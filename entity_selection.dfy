/**
 * Which entities a save captures and a load removes, and the order the
 * reinsertion uses (StateManager.GetEntitiesExcludingGlobal,
 * GetEntitiesNeedDeepClone and the reordering at the top of
 * RestoreLevelEntities).
 */
module EntitySelection {
  import opened Options
  import opened Sequences
  import opened Engine

  const InstantTeleporterRendererName: string := "Celeste.Mod.AcidHelper.Entities.InstantTeleporterRenderer"
  const CelesteNetPrefix: string := "Celeste.Mod.CelesteNet."
  const TasPrefix: string := "TAS."

  /**
   * Prefix test on the type name, character by character (the ordinal
   * comparison; the one-argument `String.StartsWith` the filter calls is
   * culture-sensitive, which for these ASCII prefixes agrees with it).
   */
  function StartsWith(s: string, prefix: string): (r: bool)
    ensures r <==> |prefix| <= |s| && forall i :: 0 <= i < |prefix| ==> s[i] == prefix[i]
  {
    |prefix| <= |s| && s[..|prefix|] == prefix
  }

  /** Survives the first filter: not tagged Global, or the cassette block manager. */
  predicate IsLevelLocal(e: Entity) {
    !e.global || e.kind.CassetteBlockManager?
  }

  predicate IsSeekerBarrierRenderer(e: Entity) {
    e.kind.SeekerBarrierRenderer?
  }

  predicate IsLightningRenderer(e: Entity) {
    e.kind.LightningRenderer?
  }

  /** Matched by exact type name, since the class belongs to another mod. */
  predicate IsInstantTeleporterRenderer(e: Entity) {
    e.typeName == InstantTeleporterRendererName
  }

  /**
   * The renderers put at the end of the list: the first seeker barrier
   * renderer, the first lightning renderer and the first instant teleporter
   * renderer of the level, each only when one exists, in that order.
   */
  function AppendedRenderers(entities: seq<Entity>): (r: seq<Entity>)
    ensures forall e :: e in r ==> e in entities
    ensures
      var seeker := FindFirst(entities, IsSeekerBarrierRenderer);
      var lightning := FindFirst(entities, IsLightningRenderer);
      var teleporter := FindFirst(entities, IsInstantTeleporterRenderer);
      var k := if seeker.Some? then 1 else 0;
      && |r| == k + (if lightning.Some? then 1 else 0) + (if teleporter.Some? then 1 else 0)
      && (seeker.Some? ==> r[0] == seeker.value)
      && (lightning.Some? ==> r[k] == lightning.value)
      && (teleporter.Some? ==> r[|r| - 1] == teleporter.value)
  {
    ToSeq(FindFirst(entities, IsSeekerBarrierRenderer))
      + ToSeq(FindFirst(entities, IsLightningRenderer))
      + ToSeq(FindFirst(entities, IsInstantTeleporterRenderer))
  }

  /**
   * `result.Remove(player); result.Insert(0, player);`: the player goes to
   * the front, whether or not the filter had kept it.
   */
  function PlayerFirst(kept: seq<Entity>, player: Option<Entity>): (r: seq<Entity>)
    ensures var head := if player.Some? then 1 else 0;
      && head <= |r|
      && (player.Some? ==> r[0] == player.value)
      && IsSubsequence(r[head..], kept)
    ensures forall e :: e in kept ==> e in r
    ensures forall e :: e in r ==> e in kept || Some(e) == player
    ensures player.Null? ==> r == kept
    ensures player.Some? && player.value in kept ==> multiset(r) == multiset(kept)
    ensures player.Some? && player.value !in kept ==> multiset(r) == multiset(kept) + multiset{player.value}
  {
    if player.Some? then
      var r := [player.value] + RemoveFirst(kept, player.value);
      assert r[1..] == RemoveFirst(kept, player.value);
      assert multiset(r) == multiset{player.value} + multiset(RemoveFirst(kept, player.value));
      SubsequenceMembers(r[1..], kept);
      r
    else
      SubsequenceOfItself(kept);
      kept
  }

  /**
   * The entities a load removes and a save starts from: every level-local
   * entity in list order, with the player moved to the front (its removal
   * fires triggers, so it goes first) and the renderers appended at the end
   * (removing other entities calls into them, so they go last).
   */
  function GetEntitiesExcludingGlobal(entities: seq<Entity>): (r: seq<Entity>)
    ensures
      var player := GetPlayer(entities);
      var tail := AppendedRenderers(entities);
      var head := if player.Some? then 1 else 0;
      && head + |tail| <= |r|
      && (player.Some? ==> r[0] == player.value)
      && r[|r| - |tail|..] == tail
      && (forall i :: head <= i < |r| - |tail| ==> IsLevelLocal(r[i]))
      && IsSubsequence(r[head..|r| - |tail|], entities)
    ensures forall e :: e in entities && IsLevelLocal(e) ==> e in r
    ensures forall e :: e in r ==> e in entities
    ensures var player := GetPlayer(entities);
      multiset(r[..|r| - |AppendedRenderers(entities)|])
        == multiset(Where(entities, IsLevelLocal)) + ExtraPlayer(player)
  {
    var r := PlayerFirst(Where(entities, IsLevelLocal), GetPlayer(entities)) + AppendedRenderers(entities);
    ExcludingGlobalOrder(entities);
    r
  }

  /** The three parts of GetEntitiesExcludingGlobal's result, and where each comes from. */
  lemma ExcludingGlobalOrder(entities: seq<Entity>)
    ensures
      var player := GetPlayer(entities);
      var tail := AppendedRenderers(entities);
      var head := if player.Some? then 1 else 0;
      var r := PlayerFirst(Where(entities, IsLevelLocal), player) + tail;
      && head + |tail| <= |r|
      && (player.Some? ==> r[0] == player.value)
      && r[|r| - |tail|..] == tail
      && (forall i :: head <= i < |r| - |tail| ==> IsLevelLocal(r[i]))
      && IsSubsequence(r[head..|r| - |tail|], entities)
      && (forall e :: e in entities && IsLevelLocal(e) ==> e in r)
      && (forall e :: e in r ==> e in entities)
      && multiset(r[..|r| - |tail|]) == multiset(Where(entities, IsLevelLocal)) + ExtraPlayer(player)
  {
    var kept := Where(entities, IsLevelLocal);
    var player := GetPlayer(entities);
    var ordered := PlayerFirst(kept, player);
    var tail := AppendedRenderers(entities);
    var head := if player.Some? then 1 else 0;
    var r := ordered + tail;
    assert r[|r| - |tail|..] == tail;
    assert r[head..|r| - |tail|] == ordered[head..];
    SubsequenceMembers(ordered[head..], kept);
    SubsequenceTransitive(ordered[head..], kept, entities);
    assert forall e :: e in r ==> e in ordered || e in tail;
    assert r[..|r| - |tail|] == ordered;
    PlayerFirstCounts(entities);
  }

  /** Moving the player to the front keeps every kept entity's count and counts a Global player once. */
  lemma PlayerFirstCounts(entities: seq<Entity>)
    ensures var player := GetPlayer(entities);
      multiset(PlayerFirst(Where(entities, IsLevelLocal), player))
        == multiset(Where(entities, IsLevelLocal)) + ExtraPlayer(player)
  {
    var player := GetPlayer(entities);
    if player.Some? {
      assert player.value in Where(entities, IsLevelLocal) <==> IsLevelLocal(player.value);
    }
  }

  /**
   * The player, counted once more, when the first filter dropped it (a
   * Global player): moving it to the front then adds it rather than moving it.
   */
  function ExtraPlayer(player: Option<Entity>): (m: multiset<Entity>)
    ensures player.Some? && !IsLevelLocal(player.value) ==> m == multiset{player.value}
    ensures player.Null? || IsLevelLocal(player.value) ==> m == multiset{}
  {
    if player.Some? && !IsLevelLocal(player.value) then multiset{player.value} else multiset{}
  }

  /** Dropped by the second filter: ignore-tagged, or from CelesteNet or the TAS mod. */
  predicate NeedsDeepClone(e: Entity) {
    !e.ignoreSaveLoad && !StartsWith(e.typeName, CelesteNetPrefix) && !StartsWith(e.typeName, TasPrefix)
  }

  /**
   * The entities a save clones: GetEntitiesExcludingGlobal, in its order,
   * without the ignore-tagged ones and those whose type name starts with
   * `Celeste.Mod.CelesteNet.` or `TAS.`.
   */
  function GetEntitiesNeedDeepClone(entities: seq<Entity>): (r: seq<Entity>)
    ensures IsSubsequence(r, GetEntitiesExcludingGlobal(entities))
    ensures forall e :: e in r ==>
      && !e.ignoreSaveLoad
      && !StartsWith(e.typeName, CelesteNetPrefix)
      && !StartsWith(e.typeName, TasPrefix)
    ensures forall e :: e in GetEntitiesExcludingGlobal(entities) && NeedsDeepClone(e) ==> e in r
    ensures forall e :: multiset(r)[e] == if NeedsDeepClone(e) then multiset(GetEntitiesExcludingGlobal(entities))[e] else 0
  {
    var r := Where(GetEntitiesExcludingGlobal(entities), NeedsDeepClone);
    assert forall e :: multiset(r)[e] == if NeedsDeepClone(e) then multiset(GetEntitiesExcludingGlobal(entities))[e] else 0 by {
      forall e ensures multiset(r)[e] == if NeedsDeepClone(e) then multiset(GetEntitiesExcludingGlobal(entities))[e] else 0 {
        WhereCounts(GetEntitiesExcludingGlobal(entities), NeedsDeepClone, e);
      }
    }
    r
  }

  /** Removing the first player from a list cuts out the element at its index. */
  lemma FirstPlayerCut(cloned: seq<Entity>)
    requires GetPlayer(cloned).Some?
    ensures var k := IndexOfFirst(cloned, IsPlayer);
      k < |cloned| && RemoveFirst(cloned, cloned[k]) == cloned[..k] + cloned[k + 1..]
  {
    var k := IndexOfFirst(cloned, IsPlayer);
    var player := cloned[k];
    assert player !in cloned[..k] by {
      forall j | 0 <= j < k ensures cloned[..k][j] != player {
        assert !IsPlayer(cloned[j]);
      }
    }
    RemoveFirstAt(cloned, k);
  }

  /**
   * The reinsertion order: the first player of the cloned list is moved from
   * its place to the end; everything else keeps its order.
   */
  function MovePlayerLast(cloned: seq<Entity>): (r: seq<Entity>)
    ensures multiset(r) == multiset(cloned)
    ensures GetPlayer(cloned).Null? ==> r == cloned
    ensures GetPlayer(cloned).Some? ==>
      && |r| == |cloned|
      && r[|r| - 1] == GetPlayer(cloned).value
      && IsSubsequence(r[..|r| - 1], cloned)
    ensures GetPlayer(cloned).Some? ==>
      var k := IndexOfFirst(cloned, IsPlayer);
      k < |cloned| && r[..|r| - 1] == cloned[..k] + cloned[k + 1..]
  {
    match GetPlayer(cloned)
    case Null => cloned
    case Some(player) =>
      FirstPlayerCut(cloned);
      var rest := RemoveFirst(cloned, player);
      var r := rest + [player];
      assert r[..|r| - 1] == rest;
      assert multiset(rest) + multiset{player} == multiset(cloned);
      r
  }
}
