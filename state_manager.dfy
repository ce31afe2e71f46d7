/**
 * The save/load orchestrator (StateManager): a three-state machine over a
 * level snapshot, the choice of entities a snapshot holds, their removal and
 * reinsertion on load, and the per-frame hotkey dispatcher.
 */
module SaveLoad {
  import opened Options
  import opened Sequences
  import opened Engine
  import opened SpeedrunSettings
  import opened EntitySelection
  import opened EntityTracking
  import opened RoomTimer

  datatype States = None | Loading | Waiting

  /** Celeste's `Player` state-machine ids of the states in which saving is refused. */
  const StIntroWalk: int := 12
  const StIntroJump: int := 13
  const StIntroRespawn: int := 14
  const StIntroWakeUp: int := 15
  const StReflectionFall: int := 18
  const StTempleFall: int := 20
  const StCassetteFly: int := 21

  const DisabledSaveStates: seq<int> :=
    [StReflectionFall, StTempleFall, StCassetteFly, StIntroJump, StIntroWalk, StIntroRespawn, StIntroWakeUp]

  /** A mod's session, as the YAML text its copy goes through. */
  type ModSession = string

  /** The level part of a snapshot: its session and its boolean fields. */
  datatype SavedLevel = SavedLevel(session: Session, flags: LevelFlags)

  /** The background clone of the saved entities, kept only as the list it clones. */
  datatype PreCloneTask = PreCloneTask(entities: seq<Entity>)

  /** No heart gem in the list has been collected yet (a collection is in progress otherwise). */
  function IsNotCollectingHeart(entities: seq<Entity>): (r: bool)
    ensures r <==> forall e :: e in entities && e.kind.HeartGem? ==> !e.kind.collected
  {
    var found := Where(entities, IsCollectedHeart);
    assert found != [] ==> found[0] in found && IsCollectedHeart(found[0]);
    found == []
  }

  /** A heart gem whose `collected` field is set. */
  predicate IsCollectedHeart(e: Entity) {
    e.kind.HeartGem? && e.kind.collected
  }

  /**
   * What ClearState does to the current level's flags: it unfreezes and
   * unlocks pausing, unless a heart is being collected or the level is
   * complete.
   */
  function ReleasedFlags(f: LevelFlags, entities: seq<Entity>): (r: LevelFlags)
    ensures IsNotCollectingHeart(entities) && !f.completed ==> !r.frozen && !r.pauseLock
    ensures !(IsNotCollectingHeart(entities) && !f.completed) ==> r == f
    ensures r.(frozen := f.frozen, pauseLock := f.pauseLock) == f
  {
    if IsNotCollectingHeart(entities) && !f.completed then f.(frozen := false, pauseLock := false) else f
  }

  /** Releasing a level twice is releasing it once. */
  lemma ReleasedFlagsIdempotent(f: LevelFlags, entities: seq<Entity>)
    ensures ReleasedFlags(ReleasedFlags(f, entities), entities) == ReleasedFlags(f, entities)
  {
  }

  /**
   * The tracking structures after a load: the level-local entities leave,
   * then a clone of the snapshot is reinserted with its player last.
   */
  function LoadedTracking(t: Tracking, saved: seq<Entity>, deepClone: seq<Entity> -> seq<Entity>): Tracking {
    ReAdd(RemoveEntities(t, GetEntitiesExcludingGlobal(t.entities)), MovePlayerLast(deepClone(saved)))
  }

  /**
   * A load's net effect on a pool: the unloaded entities of its type return
   * to its back, then one instance leaves its front per reinserted entity of
   * its type. Its length changes by the number returned minus the number
   * taken, down to empty at most.
   */
  lemma LoadedPools(t: Tracking, saved: seq<Entity>, deepClone: seq<Entity> -> seq<Entity>, k: string)
    requires k in t.pools
    ensures var removed := GetEntitiesExcludingGlobal(t.entities);
      var returned := EntitiesOfType(RemovalOrder(t.current, removed), k);
      var taken := CountOfType(Added(RemoveEntities(t, removed), MovePlayerLast(deepClone(saved))), k);
      var pool := LoadedTracking(t, saved, deepClone).pools[k];
      && pool == DropFront(t.pools[k] + returned, taken)
      && |pool| == if taken <= |t.pools[k]| + |returned| then |t.pools[k]| + |returned| - taken else 0
  {
    var removed := GetEntitiesExcludingGlobal(t.entities);
    ReAddDequeues(RemoveEntities(t, removed), MovePlayerLast(deepClone(saved)), k);
  }

  /**
   * Unloading removes exactly the entities GetEntitiesExcludingGlobal
   * lists: what stays is Global, not the cassette manager, not the player and
   * not one of the appended renderers.
   */
  lemma UnloadKeepsExactlyGlobals(t: Tracking)
    ensures var kept := RemoveEntities(t, GetEntitiesExcludingGlobal(t.entities)).entities;
      forall e :: e in kept <==>
        && e in t.entities
        && !IsLevelLocal(e)
        && GetPlayer(t.entities) != Some(e)
        && e !in AppendedRenderers(t.entities)
  {
    forall e | e in t.entities
      ensures e in GetEntitiesExcludingGlobal(t.entities)
        <==> IsLevelLocal(e) || GetPlayer(t.entities) == Some(e) || e in AppendedRenderers(t.entities)
    {
      RemovedByUnload(t.entities, e);
    }
  }

  /** Why one listed entity is or is not among those GetEntitiesExcludingGlobal returns. */
  lemma RemovedByUnload(entities: seq<Entity>, e: Entity)
    requires e in entities
    ensures e in GetEntitiesExcludingGlobal(entities)
      <==> IsLevelLocal(e) || GetPlayer(entities) == Some(e) || e in AppendedRenderers(entities)
  {
    if e in GetEntitiesExcludingGlobal(entities) {
      RemovedIsLocalPlayerOrRenderer(entities, e);
    }
    if e in AppendedRenderers(entities) {
      RenderersRemoved(entities, e);
    }
    if GetPlayer(entities) == Some(e) {
      assert GetEntitiesExcludingGlobal(entities)[0] == e;
    }
  }

  lemma RemovedIsLocalPlayerOrRenderer(entities: seq<Entity>, e: Entity)
    requires e in GetEntitiesExcludingGlobal(entities)
    ensures IsLevelLocal(e) || GetPlayer(entities) == Some(e) || e in AppendedRenderers(entities)
  {
    var removed := GetEntitiesExcludingGlobal(entities);
    var i :| 0 <= i < |removed| && removed[i] == e;
    RemovedAt(entities, i);
  }

  /** Each position of GetEntitiesExcludingGlobal holds the player, a level-local entity or a renderer. */
  lemma RemovedAt(entities: seq<Entity>, i: nat)
    requires i < |GetEntitiesExcludingGlobal(entities)|
    ensures var e := GetEntitiesExcludingGlobal(entities)[i];
      IsLevelLocal(e) || GetPlayer(entities) == Some(e) || e in AppendedRenderers(entities)
  {
    var removed := GetEntitiesExcludingGlobal(entities);
    var tail := AppendedRenderers(entities);
    if i >= |removed| - |tail| {
      SuffixMember(removed, tail, i);
    }
  }

  lemma RenderersRemoved(entities: seq<Entity>, e: Entity)
    requires e in AppendedRenderers(entities)
    ensures e in GetEntitiesExcludingGlobal(entities)
  {
    var removed := GetEntitiesExcludingGlobal(entities);
    var tail := AppendedRenderers(entities);
    var k :| 0 <= k < |tail| && tail[k] == e;
    assert removed[|removed| - |tail|..][k] == e;
  }

  /** A load keeps the EntityList invariant. */
  lemma LoadedTrackingConsistent(t: Tracking, saved: seq<Entity>, deepClone: seq<Entity> -> seq<Entity>)
    requires Consistent(t)
    ensures Consistent(LoadedTracking(t, saved, deepClone))
  {
    var unloaded := RemoveEntities(t, GetEntitiesExcludingGlobal(t.entities));
    RemoveEntitiesConsistent(t, GetEntitiesExcludingGlobal(t.entities));
    ReAddConsistent(unloaded, MovePlayerLast(deepClone(saved)));
  }

  /**
   * When a clone holds its player once and the level does not list it, the
   * player is the last entity the reinsertion appends.
   */
  lemma ReinsertedPlayerIsLast(t: Tracking, cloned: seq<Entity>)
    requires GetPlayer(cloned).Some? && multiset(cloned)[GetPlayer(cloned).value] == 1
    requires GetPlayer(cloned).value !in t.entities
    ensures var r := ReAdd(t, MovePlayerLast(cloned)).entities;
      |r| > |t.entities| && Last(r) == GetPlayer(cloned).value
  {
    PlayerNotInRest(cloned);
    ReAddNewLast(t, MovePlayerLast(cloned), GetPlayer(cloned).value);
  }

  /** An entity at the end of the order, listed neither before nor earlier in it, ends up last. */
  lemma ReAddNewLast(t: Tracking, order: seq<Entity>, e: Entity)
    requires |order| > 0 && order[|order| - 1] == e
    requires e !in order[..|order| - 1] && e !in t.entities
    ensures var r := ReAdd(t, order).entities;
      |r| > |t.entities| && Last(r) == e
  {
    var rest := order[..|order| - 1];
    assert order == rest + [e];
    var middle := ReAdd(t, rest);
    assert e !in middle.entities by {
      ReAddAddedMembers(t, rest);
      assert middle.entities == t.entities + Added(t, rest);
    }
    ReAddSnoc(t, rest, e);
  }

  /** A player the clone holds once occurs only at the end of the reinsertion order. */
  lemma PlayerNotInRest(cloned: seq<Entity>)
    requires GetPlayer(cloned).Some? && multiset(cloned)[GetPlayer(cloned).value] == 1
    ensures var order := MovePlayerLast(cloned);
      |order| > 0 && order[|order| - 1] == GetPlayer(cloned).value
      && GetPlayer(cloned).value !in order[..|order| - 1]
  {
    var player := GetPlayer(cloned).value;
    var order := MovePlayerLast(cloned);
    var rest := order[..|order| - 1];
    assert order == rest + [player];
    assert multiset(order)[player] == multiset(rest)[player] + 1;
  }

  /** The hotkey and game inputs CheckButton reads in one frame. */
  datatype Input = Input(
    savePressed: bool,
    loadPressed: bool,
    loadReleased: bool,
    clearPressed: bool,
    f5Held: bool,
    switchAutoLoadPressed: bool,
    dashPressed: bool,
    grabHeld: bool,
    jumpHeld: bool,
    pauseHeld: bool,
    talkHeld: bool,
    moveX: int,
    moveY: int,
    aimNonZero: bool)

  /** Any input that ends the freeze after a load. */
  predicate ContinueInput(i: Input) {
    i.dashPressed || i.grabHeld || i.jumpHeld || i.pauseHeld || i.talkHeld
      || i.moveX != 0 || i.moveY != 0 || i.aimNonZero || i.loadReleased
  }

  /** The branch of CheckButton a frame takes. */
  datatype ButtonAction =
    | NoAction
    | SaveAction
    | LoadAction
    | NotSavedNotice
    | ClearAction
    | F5Clear
    | ToggleAutoLoad
    | Complete

  /** CheckButton's choice of branch, first match wins. */
  function Dispatch(enabled: bool, input: Input, paused: bool, frozen: bool, state: States, saved: bool): (a: ButtonAction)
    ensures !enabled ==> a == NoAction
    ensures enabled && input.savePressed ==> a == SaveAction
    ensures a == SaveAction ==> input.savePressed
    ensures a == LoadAction ==> input.loadPressed && !paused && state == None && saved
    ensures a == NotSavedNotice ==> input.loadPressed && !paused && state == None && !saved && !frozen
    ensures a == ClearAction ==> input.clearPressed && !paused && state == None
    ensures a == F5Clear ==> input.f5Held
    ensures a == ToggleAutoLoad ==> input.switchAutoLoadPressed && !paused
    ensures a == Complete ==> state == Waiting && !paused && ContinueInput(input)
    ensures paused ==> a in {NoAction, SaveAction, F5Clear}
    ensures state != None ==> a !in {LoadAction, NotSavedNotice, ClearAction}
    ensures enabled && state != None && input.f5Held && !input.savePressed ==> a == F5Clear
    ensures (enabled && state == Waiting && !paused && ContinueInput(input)
             && !input.savePressed && !input.f5Held && !input.switchAutoLoadPressed) ==> a == Complete
    ensures enabled && !input.savePressed && input.loadPressed && !paused && state == None ==>
      && (saved ==> a == LoadAction)
      && (!saved && !frozen ==> a == NotSavedNotice)
      && (!saved && frozen ==> a == NoAction)
    ensures (enabled && !input.savePressed && !(input.loadPressed && !paused && state == None)
             && input.clearPressed && !paused && state == None) ==> a == ClearAction
    ensures (enabled && !input.savePressed && !(input.loadPressed && !paused && state == None)
             && !(input.clearPressed && !paused && state == None) && input.f5Held) ==> a == F5Clear
    ensures (enabled && !input.savePressed && !(input.loadPressed && !paused && state == None)
             && !(input.clearPressed && !paused && state == None) && !input.f5Held
             && input.switchAutoLoadPressed && !paused) ==> a == ToggleAutoLoad
    ensures a == NoAction ==>
      || !enabled
      || (!input.savePressed && input.loadPressed && !paused && state == None && !saved && frozen)
      || (
      && !input.savePressed && !input.f5Held
      && !(input.loadPressed && !paused && state == None)
      && !(input.clearPressed && !paused && state == None)
      && !(input.switchAutoLoadPressed && !paused)
      && !(state == Waiting && !paused && ContinueInput(input)))
  {
    if !enabled then NoAction
    else if input.savePressed then SaveAction
    else if input.loadPressed && !paused && state == None then
      (if saved then LoadAction else if !frozen then NotSavedNotice else NoAction)
    else if input.clearPressed && !paused && state == None then ClearAction
    else if input.f5Held then F5Clear
    else if input.switchAutoLoadPressed && !paused then ToggleAutoLoad
    else if state == Waiting && !paused && ContinueInput(input) then Complete
    else NoAction
  }

  class StateManager {
    var state: States
    var savedLevel: Option<SavedLevel>
    var savedEntities: Option<seq<Entity>>
    var savedModSessions: Option<map<string, ModSession>>
    var preCloneTask: Option<PreCloneTask>
    var playingEventInstances: set<EventInstance>

    /**
     * A snapshot is whole or absent, a pre-clone exists only of a snapshot,
     * and only a held snapshot can be loading or waiting.
     */
    predicate Valid()
      reads this
    {
      && (savedLevel.Some? <==> savedEntities.Some?)
      && (savedLevel.Some? <==> savedModSessions.Some?)
      && (preCloneTask.Some? ==> savedEntities.Some?)
      && (state != None ==> savedLevel.Some?)
    }

    /** A snapshot is held: under the invariant, all three of its parts are. */
    function IsSaved(): (r: bool)
      reads this
      ensures Valid() ==> (r <==> savedLevel.Some? && savedEntities.Some? && savedModSessions.Some?)
      ensures !r ==> savedLevel.Null? && (Valid() ==> state == None)
    {
      savedLevel.Some?
    }

    /** The state ClearState leaves. */
    predicate Cleared()
      reads this
    {
      && state == None
      && savedLevel.Null? && savedEntities.Null? && savedModSessions.Null?
      && preCloneTask.Null?
      && playingEventInstances == {}
    }

    constructor ()
      ensures Valid() && Cleared()
    {
      state := None;
      savedLevel, savedEntities, savedModSessions := Null, Null, Null;
      preCloneTask := Null;
      playingEventInstances := {};
    }

    /** When saving is allowed: idle, in live unpaused play, with a live player in a permitted state. */
    function IsAllowSave(level: Level): (r: bool)
      reads this, level
      ensures r ==>
        var player := GetPlayer(level.entities);
        player.Some? && player.value in level.entities && !player.value.kind.dead && player.value.kind.stateId !in DisabledSaveStates
      ensures (forall e :: e in level.entities ==> !IsPlayer(e)) ==> !r
      ensures r ==> forall e :: e in level.entities && e.kind.HeartGem? ==> !e.kind.collected
      ensures state != None || level.paused || level.transitioning || level.inCutscene || level.skippingCutscene ==> !r
    {
      var player := GetPlayer(level.entities);
      && state == None
      && !level.paused && !level.transitioning && !level.inCutscene && !level.skippingCutscene
      && player.Some?
      && !player.value.kind.dead
      && player.value.kind.stateId !in DisabledSaveStates
      && IsNotCollectingHeart(level.entities)
    }

    /** The level's lists, the pools and the sounds to restart, as one record. */
    function Track(level: Level, pooler: Pooler): Tracking
      reads this, level, pooler
    {
      Tracking(level.entities, level.current, pooler.pools, playingEventInstances)
    }

    /** The state a load leaves behind, given the tracking it started from. */
    predicate LoadedFrom(before: Tracking, level: Level, pooler: Pooler, timer: RoomTimerManager,
                         deepClone: seq<Entity> -> seq<Entity>)
      reads this, level, pooler, timer
    {
      && Valid() && IsSaved()
      && state == Loading
      && preCloneTask == Some(PreCloneTask(savedEntities.value))
      && Track(level, pooler) == LoadedTracking(before, savedEntities.value, deepClone)
      && level.session == savedLevel.value.session
      && level.Flags() == savedLevel.value.flags.(frozen := true, timerStopped := true)
      && !level.transitioning
      && timer.previousRoom.Null?
    }

    /**
     * Drops the snapshot, the pre-clone and the sounds to restart, returns
     * to None, makes the room timer forget the previous room (and its end points when asked)
     * and, in a level, releases the level's freeze and pause lock.
     */
    method ClearState(scene: Scene, timer: RoomTimerManager, clearEndPoint: bool)
      modifies this, timer, LevelOf(scene)
      ensures Valid() && Cleared()
      ensures timer.previousRoom.Null?
      ensures timer.endPoints == if clearEndPoint then {} else old(timer.endPoints)
      ensures scene.InLevel? && old(scene.level.Valid()) ==> scene.level.Valid()
      ensures scene.InLevel? ==>
        var level := scene.level;
        && level.Flags() == ReleasedFlags(old(level.Flags()), old(level.entities))
        && level.entities == old(level.entities) && level.current == old(level.current)
        && level.session == old(level.session) && level.transitioning == old(level.transitioning)
    {
      if scene.InLevel? && IsNotCollectingHeart(scene.level.entities) && !scene.level.completed {
        scene.level.frozen := false;
        scene.level.pauseLock := false;
      }
      timer.ClearPbTimes(clearEndPoint);
      playingEventInstances := {};
      savedModSessions := Null;
      savedLevel := Null;
      savedEntities := Null;
      preCloneTask := Null;
      state := None;
    }

    /** Clearing twice leaves what clearing once does. */
    method ClearStateTwice(scene: Scene, timer: RoomTimerManager, clearEndPoint: bool)
      modifies this, timer, LevelOf(scene)
      ensures Valid() && Cleared()
      ensures timer.previousRoom.Null?
      ensures timer.endPoints == if clearEndPoint then {} else old(timer.endPoints)
      ensures scene.InLevel? && old(scene.level.Valid()) ==> scene.level.Valid()
      ensures scene.InLevel? ==>
        var level := scene.level;
        && level.Flags() == ReleasedFlags(old(level.Flags()), old(level.entities))
        && level.entities == old(level.entities) && level.current == old(level.current)
        && level.session == old(level.session) && level.transitioning == old(level.transitioning)
    {
      ClearState(scene, timer, clearEndPoint);
      ClearState(scene, timer, clearEndPoint);
      if scene.InLevel? {
        ReleasedFlagsIdempotent(old(scene.level.Flags()), old(scene.level.entities));
      }
    }

    /**
     * The hook run when a scene begins: the overworld clears everything; with
     * a snapshot held, a level resets the state to None and starts a
     * pre-clone, and a scene of another area clears the snapshot.
     */
    method ClearStateWhenSwitchScene(scene: Scene, timer: RoomTimerManager)
      requires Valid()
      modifies this, timer, LevelOf(scene)
      ensures Valid()
      ensures scene.Overworld? ==> Cleared()
      ensures (old(IsSaved()) && old(SessionOf(scene)).Some?
               && old(SessionOf(scene)).value.area != old(savedLevel.value.session.area)) ==> Cleared()
      ensures (old(IsSaved()) && !scene.Overworld?
               && (old(SessionOf(scene)).Some? ==> old(SessionOf(scene)).value.area == old(savedLevel.value.session.area))) ==>
        && savedLevel == old(savedLevel) && savedEntities == old(savedEntities)
        && savedModSessions == old(savedModSessions)
        && playingEventInstances == old(playingEventInstances)
        && (scene.InLevel? ==> state == None && preCloneTask == Some(PreCloneTask(savedEntities.value)))
        && (!scene.InLevel? ==> state == old(state) && preCloneTask == old(preCloneTask))
        && unchanged(timer) && unchanged(LevelOf(scene))
      ensures !old(IsSaved()) && !scene.Overworld? ==> unchanged(this) && unchanged(timer) && unchanged(LevelOf(scene))
      ensures (scene.Overworld? || (old(IsSaved()) && old(SessionOf(scene)).Some?
               && old(SessionOf(scene)).value.area != old(savedLevel.value.session.area))) ==>
        timer.previousRoom.Null? && timer.endPoints == {}
      ensures scene.InLevel? && old(scene.level.Valid()) ==> scene.level.Valid()
      ensures (scene.InLevel? && old(IsSaved())
               && old(scene.level.session.area) != old(savedLevel.value.session.area)) ==>
        var level := scene.level;
        && level.Flags() == ReleasedFlags(old(level.Flags()), old(level.entities))
        && level.entities == old(level.entities) && level.current == old(level.current)
        && level.session == old(level.session) && level.transitioning == old(level.transitioning)
    {
      if scene.Overworld? {
        ClearState(scene, timer, true);
      }
      if IsSaved() {
        if scene.InLevel? {
          state := None;
          preCloneTask := Some(PreCloneTask(savedEntities.value));
        }
        var session := SessionOf(scene);
        if session.Some? && session.value.area != savedLevel.value.session.area {
          ClearState(scene, timer, true);
        }
      }
    }

    /**
     * Saves the current level and loads it straight back. Refused, with the
     * previous snapshot kept, outside a level or when IsAllowSave fails.
     */
    method SaveState(scene: Scene, liveModSessions: map<string, ModSession>, timer: RoomTimerManager,
                     pooler: Pooler, deepClone: seq<Entity> -> seq<Entity>) returns (ok: bool)
      requires Valid()
      requires scene.InLevel? ==> scene.level.Valid()
      modifies this, LevelOf(scene), timer, pooler
      ensures Valid()
      ensures scene.InLevel? ==> scene.level.Valid()
      ensures ok <==> scene.InLevel? && old(IsAllowSave(scene.level))
      ensures !ok ==> unchanged(this) && unchanged(timer) && unchanged(pooler) && unchanged(LevelOf(scene))
      ensures ok ==>
        var level := scene.level;
        && savedEntities == Some(deepClone(GetEntitiesNeedDeepClone(old(level.entities))))
        && savedLevel == Some(SavedLevel(old(level.session), ReleasedFlags(old(level.Flags()), old(level.entities))))
        && savedModSessions == Some(liveModSessions)
        && LoadedFrom(old(Track(level, pooler)).(playing := {}), level, pooler, timer, deepClone)
        && timer.endPoints == old(timer.endPoints)
    {
      if !scene.InLevel? {
        return false;
      }
      var level := scene.level;
      if !IsAllowSave(level) {
        return false;
      }
      ghost var before := Track(level, pooler);
      ClearState(scene, timer, false);
      ghost var cleared := Track(level, pooler);
      assert cleared == before.(playing := {});
      ghost var endPoints := timer.endPoints;
      TakeSnapshot(level, liveModSessions, deepClone);
      assert Track(level, pooler) == cleared;
      ok := LoadState(scene, timer, pooler, deepClone);
      assert timer.endPoints == endPoints;
    }

    /** Records the level's session and flags, a clone of the entities to restore and the mods' sessions. */
    method TakeSnapshot(level: Level, liveModSessions: map<string, ModSession>, deepClone: seq<Entity> -> seq<Entity>)
      requires Cleared()
      modifies this`savedLevel, this`savedEntities, this`savedModSessions
      ensures Valid() && state == None && playingEventInstances == {}
      ensures savedLevel == Some(SavedLevel(level.session, level.Flags()))
      ensures savedEntities == Some(deepClone(GetEntitiesNeedDeepClone(level.entities)))
      ensures savedModSessions == Some(liveModSessions)
    {
      savedLevel := Some(SavedLevel(level.session, level.Flags()));
      savedEntities := Some(deepClone(GetEntitiesNeedDeepClone(level.entities)));
      savedModSessions := Some(liveModSessions);
    }

    /**
     * Replaces the level's entities by a clone of the snapshot and restores
     * its session and flags, frozen with the timer stopped until the screen
     * wipe completes. Refused, changing nothing, outside a level, when
     * paused, when not idle or when nothing is saved.
     */
    method LoadState(scene: Scene, timer: RoomTimerManager, pooler: Pooler,
                     deepClone: seq<Entity> -> seq<Entity>) returns (ok: bool)
      requires Valid()
      requires scene.InLevel? ==> scene.level.Valid()
      modifies this, LevelOf(scene), timer`previousRoom, pooler
      ensures Valid()
      ensures scene.InLevel? ==> scene.level.Valid()
      ensures ok <==> scene.InLevel? && old(!scene.level.paused && state == None && IsSaved())
      ensures !ok ==> unchanged(this) && unchanged(timer) && unchanged(pooler) && unchanged(LevelOf(scene))
      ensures ok ==>
        && savedLevel == old(savedLevel) && savedEntities == old(savedEntities)
        && savedModSessions == old(savedModSessions)
        && LoadedFrom(old(Track(scene.level, pooler)), scene.level, pooler, timer, deepClone)
      ensures timer.endPoints == old(timer.endPoints)
    {
      if !scene.InLevel? {
        return false;
      }
      var level := scene.level;
      if level.paused || state != None || !IsSaved() {
        return false;
      }
      LoadLevel(level, timer, pooler, deepClone);
      ok := true;
    }

    /** The body of a load that its guard let through. */
    method LoadLevel(level: Level, timer: RoomTimerManager, pooler: Pooler, deepClone: seq<Entity> -> seq<Entity>)
      requires Valid() && IsSaved() && level.Valid()
      modifies this`state, this`preCloneTask, this`playingEventInstances, level, timer`previousRoom, pooler`pools
      ensures Valid() && level.Valid()
      ensures savedLevel == old(savedLevel) && savedEntities == old(savedEntities)
      ensures savedModSessions == old(savedModSessions)
      ensures LoadedFrom(old(Track(level, pooler)), level, pooler, timer, deepClone)
    {
      ghost var before := Track(level, pooler);
      BeginLoad(level, timer);
      RestoreSnapshot(level, pooler, deepClone, before);
    }

    /** Marks the load as started, forgets the room timer's room and ends any room transition. */
    method BeginLoad(level: Level, timer: RoomTimerManager)
      requires Valid() && IsSaved()
      modifies this`state, level`transitioning, timer`previousRoom
      ensures Valid() && IsSaved()
      ensures state == Loading && !level.transitioning && timer.previousRoom.Null?
    {
      state := Loading;
      timer.ResetTime();
      level.transitioning := false;
    }

    /**
     * The part of a load that rebuilds the level from the snapshot: its
     * entities, then its session and flags, then the freeze for the wipe.
     */
    method RestoreSnapshot(level: Level, pooler: Pooler, deepClone: seq<Entity> -> seq<Entity>, ghost before: Tracking)
      requires Valid() && IsSaved() && level.Valid()
      requires Track(level, pooler) == before
      modifies this`preCloneTask, this`playingEventInstances, level, pooler`pools
      ensures Valid() && IsSaved() && level.Valid()
      ensures preCloneTask == Some(PreCloneTask(savedEntities.value))
      ensures Track(level, pooler) == LoadedTracking(before, savedEntities.value, deepClone)
      ensures level.session == savedLevel.value.session
      ensures level.Flags() == savedLevel.value.flags.(frozen := true, timerStopped := true)
      ensures level.transitioning == old(level.transitioning)
    {
      ReplaceLevelEntities(level, pooler, deepClone, before);
      ghost var loaded := Track(level, pooler);
      RestoreLevelFrozen(level);
      assert Track(level, pooler) == loaded;
    }

    /** RestoreLevel followed by the freeze that holds the level still during the wipe. */
    method RestoreLevelFrozen(level: Level)
      requires IsSaved()
      modifies level
      ensures level.session == savedLevel.value.session
      ensures level.Flags() == savedLevel.value.flags.(frozen := true, timerStopped := true)
      ensures level.entities == old(level.entities) && level.current == old(level.current)
      ensures level.transitioning == old(level.transitioning)
    {
      RestoreLevel(level);
      FreezeLevel(level);
    }

    /** Holds the level still while the wipe plays: frozen, with the timer stopped. */
    method FreezeLevel(level: Level)
      modifies level`frozen, level`timerStopped
      ensures level.Flags() == old(level.Flags()).(frozen := true, timerStopped := true)
    {
      level.frozen := true;
      level.timerStopped := true;
    }

    /** UnloadLevelEntities followed by RestoreLevelEntities. */
    method ReplaceLevelEntities(level: Level, pooler: Pooler, deepClone: seq<Entity> -> seq<Entity>, ghost before: Tracking)
      requires Valid() && IsSaved() && level.Valid()
      requires Track(level, pooler) == before
      modifies this`preCloneTask, this`playingEventInstances, level`entities, level`current, pooler`pools
      ensures Valid() && IsSaved() && level.Valid()
      ensures preCloneTask == Some(PreCloneTask(savedEntities.value))
      ensures Track(level, pooler) == LoadedTracking(before, savedEntities.value, deepClone)
    {
      UnloadLevelEntities(level, pooler);
      assert Track(level, pooler) == RemoveEntities(before, GetEntitiesExcludingGlobal(before.entities));
      RestoreLevelEntities(level, pooler, deepClone);
      LoadedTrackingConsistent(before, savedEntities.value, deepClone);
    }

    /**
     * The screen wipe's completion callback: with the freeze option on (and
     * not for TAS), waits for input with pausing locked; otherwise completes
     * the load.
     */
    method WipeCompleted(level: Level, tas: bool, settings: Settings)
      requires Valid() && IsSaved()
      modifies this, level
      ensures Valid()
      ensures savedLevel == old(savedLevel) && savedEntities == old(savedEntities)
      ensures savedModSessions == old(savedModSessions) && preCloneTask == old(preCloneTask)
      ensures level.entities == old(level.entities) && level.current == old(level.current)
      ensures level.transitioning == old(level.transitioning)
      ensures !tas && settings.freezeAfterLoadState ==>
        && state == Waiting
        && playingEventInstances == old(playingEventInstances)
        && level.Flags() == old(level.Flags()).(pauseLock := true)
        && level.session == old(level.session)
      ensures tas || !settings.freezeAfterLoadState ==>
        && state == None
        && playingEventInstances == {}
        && level.Flags() == savedLevel.value.flags
        && level.session == savedLevel.value.session
    {
      if !tas && settings.freezeAfterLoadState {
        state := Waiting;
        level.pauseLock := true;
      } else {
        LoadStateComplete(level);
      }
    }

    /** Ends a load: the level's session and flags come back from the snapshot, the sounds restart, and the state returns to None. */
    method LoadStateComplete(level: Level)
      requires Valid() && IsSaved()
      modifies this`state, this`playingEventInstances, level
      ensures Valid()
      ensures state == None && playingEventInstances == {}
      ensures level.session == savedLevel.value.session && level.Flags() == savedLevel.value.flags
      ensures level.entities == old(level.entities) && level.current == old(level.current)
      ensures level.transitioning == old(level.transitioning)
    {
      RestoreLevel(level);
      playingEventInstances := {};
      state := None;
    }

    /** Copies the snapshot's session and boolean fields into the level. */
    method RestoreLevel(level: Level)
      requires IsSaved()
      modifies level
      ensures level.session == savedLevel.value.session && level.Flags() == savedLevel.value.flags
      ensures level.entities == old(level.entities) && level.current == old(level.current)
      ensures level.transitioning == old(level.transitioning)
    {
      level.session := savedLevel.value.session;
      level.SetFlags(savedLevel.value.flags);
    }

    /**
     * Removes every entity GetEntitiesExcludingGlobal lists from the level's
     * list and set; the pooler takes back each removed entity of a pooled
     * type, in removal order.
     */
    method UnloadLevelEntities(level: Level, pooler: Pooler)
      modifies level`entities, level`current, pooler`pools
      ensures var removed := GetEntitiesExcludingGlobal(old(level.entities));
        && level.entities == Without(old(level.entities), removed)
        && level.current == old(level.current) - (set e | e in removed)
        && pooler.pools == PutBack(old(pooler.pools), RemovalOrder(old(level.current), removed))
    {
      var entities := GetEntitiesExcludingGlobal(level.entities);
      var order := RemovalOrder(level.current, entities);
      level.entities := Without(level.entities, entities);
      level.current := level.current - set e | e in entities;
      pooler.pools := PutBack(pooler.pools, order);
    }

    /** Starts cloning `entities` ahead of the next load (the background task is not modelled). */
    method PreCloneEntities(entities: seq<Entity>)
      requires Valid() && IsSaved()
      modifies this`preCloneTask
      ensures Valid() && IsSaved()
      ensures preCloneTask == Some(PreCloneTask(entities))
    {
      preCloneTask := Some(PreCloneTask(entities));
    }

    /** Adds the playing sounds among an entity's components to the sounds to restart. */
    method RecordPlayingSounds(components: seq<Component>)
      modifies this`playingEventInstances
      ensures playingEventInstances == old(playingEventInstances) + PlayingInstances(components)
    {
      var j := 0;
      while j < |components|
        invariant 0 <= j <= |components|
        invariant playingEventInstances == old(playingEventInstances) + PlayingInstances(components[..j])
      {
        var component := components[j];
        assert components[..j + 1][..j] == components[..j];
        if component.SoundSource? && component.playing && component.instance.Some? {
          playingEventInstances := playingEventInstances + {component.instance.value};
        }
        j := j + 1;
      }
      assert components[..j] == components;
    }

    /**
     * Starts a pre-clone of the snapshot, clones it, moves the clone's player
     * last and reinserts each cloned entity the level does not list yet:
     * into the set and the list, recording its playing sounds and taking one
     * instance from the pool of its type.
     */
    method RestoreLevelEntities(level: Level, pooler: Pooler, deepClone: seq<Entity> -> seq<Entity>)
      requires Valid() && IsSaved()
      modifies this`preCloneTask, this`playingEventInstances, level`entities, level`current, pooler`pools
      ensures Valid() && IsSaved()
      ensures preCloneTask == Some(PreCloneTask(savedEntities.value))
      ensures Track(level, pooler) == ReAdd(old(Track(level, pooler)), MovePlayerLast(deepClone(savedEntities.value)))
    {
      PreCloneEntities(savedEntities.value);
      var cloned := MovePlayerLast(deepClone(savedEntities.value));
      var i := 0;
      while i < |cloned|
        invariant 0 <= i <= |cloned|
        invariant Valid() && IsSaved()
        invariant preCloneTask == Some(PreCloneTask(savedEntities.value))
        invariant ReAdd(Track(level, pooler), cloned[i..]) == ReAdd(old(Track(level, pooler)), cloned)
      {
        assert cloned[i..][0] == cloned[i] && cloned[i..][1..] == cloned[i + 1..];
        ReAddEntity(level, pooler, cloned[i]);
        i := i + 1;
      }
    }

    /**
     * One turn of the reinsertion loop: an entity the list does not hold yet
     * joins the set and the list, its playing sounds are recorded and one
     * pooled instance of its type is dequeued.
     */
    method ReAddEntity(level: Level, pooler: Pooler, entity: Entity)
      requires Valid() && IsSaved()
      modifies this`playingEventInstances, level`entities, level`current, pooler`pools
      ensures Valid() && IsSaved()
      ensures Track(level, pooler) == ReAddOne(old(Track(level, pooler)), entity)
    {
      if entity !in level.entities {
        level.current := level.current + {entity};
        level.entities := level.entities + [entity];
        RecordPlayingSounds(entity.components);
        var typeName := entity.typeName;
        if typeName in pooler.pools && |pooler.pools[typeName]| > 0 {
          pooler.pools := pooler.pools[typeName := pooler.pools[typeName][1..]];
        }
      }
    }

    /**
     * What a dispatched action does to the save state, the level, the room
     * timer and the pooler: the effect of the save, load, clear and
     * wipe-completion branches, and nothing at all for the others.
     */
    twostate predicate Performed(action: ButtonAction, level: Level, liveModSessions: map<string, ModSession>,
                                 timer: RoomTimerManager, pooler: Pooler, deepClone: seq<Entity> -> seq<Entity>)
      reads this, level, timer, pooler
    {
      match action
      case NoAction | NotSavedNotice | ToggleAutoLoad =>
        unchanged(this) && unchanged(level) && unchanged(timer) && unchanged(pooler)
      case ClearAction | F5Clear =>
        && Cleared() && timer.previousRoom.Null? && timer.endPoints == {}
        && level.Flags() == ReleasedFlags(old(level.Flags()), old(level.entities))
        && level.entities == old(level.entities) && level.current == old(level.current)
        && level.session == old(level.session) && level.transitioning == old(level.transitioning)
        && unchanged(pooler)
      case LoadAction =>
        && savedLevel == old(savedLevel) && savedEntities == old(savedEntities)
        && savedModSessions == old(savedModSessions)
        && LoadedFrom(old(Track(level, pooler)), level, pooler, timer, deepClone)
        && timer.endPoints == old(timer.endPoints)
      case SaveAction =>
        if old(IsAllowSave(level)) then
          && savedEntities == Some(deepClone(GetEntitiesNeedDeepClone(old(level.entities))))
          && savedLevel == Some(SavedLevel(old(level.session), ReleasedFlags(old(level.Flags()), old(level.entities))))
          && savedModSessions == Some(liveModSessions)
          && LoadedFrom(old(Track(level, pooler)).(playing := {}), level, pooler, timer, deepClone)
          && timer.endPoints == old(timer.endPoints)
        else
          unchanged(this) && unchanged(level) && unchanged(timer) && unchanged(pooler)
      case Complete =>
        && state == None && playingEventInstances == {}
        && savedLevel == old(savedLevel) && savedLevel.Some?
        && savedEntities == old(savedEntities) && savedModSessions == old(savedModSessions)
        && preCloneTask == old(preCloneTask)
        && level.session == savedLevel.value.session && level.Flags() == savedLevel.value.flags
        && level.entities == old(level.entities) && level.current == old(level.current)
        && level.transitioning == old(level.transitioning)
        && unchanged(timer) && unchanged(pooler)
    }

    /**
     * One frame's hotkey handling in a level: the branch Dispatch picks,
     * carried out.
     */
    method CheckButton(level: Level, input: Input, settings: Settings, liveModSessions: map<string, ModSession>,
                       timer: RoomTimerManager, pooler: Pooler,
                       deepClone: seq<Entity> -> seq<Entity>) returns (action: ButtonAction)
      requires Valid() && level.Valid()
      modifies this, level, timer, pooler, settings`autoLoadAfterDeath
      ensures Valid() && level.Valid()
      ensures action == old(Dispatch(settings.enabled, input, level.paused, level.frozen, state, IsSaved()))
      ensures settings.autoLoadAfterDeath ==
        if action == ToggleAutoLoad then !old(settings.autoLoadAfterDeath) else old(settings.autoLoadAfterDeath)
      ensures Performed(action, level, liveModSessions, timer, pooler, deepClone)
    {
      action := Dispatch(settings.enabled, input, level.paused, level.frozen, state, IsSaved());
      if action == ToggleAutoLoad {
        settings.autoLoadAfterDeath := !settings.autoLoadAfterDeath;
      } else {
        Perform(action, level, liveModSessions, timer, pooler, deepClone);
      }
    }

    /** The branch of CheckButton for a dispatched action other than the auto-load toggle. */
    method Perform(action: ButtonAction, level: Level, liveModSessions: map<string, ModSession>,
                   timer: RoomTimerManager, pooler: Pooler, deepClone: seq<Entity> -> seq<Entity>)
      requires Valid() && level.Valid()
      requires action == LoadAction ==> state == None && IsSaved() && !level.paused
      requires action == Complete ==> state == Waiting
      modifies this, level, timer, pooler
      ensures Valid() && level.Valid()
      ensures Performed(action, level, liveModSessions, timer, pooler, deepClone)
    {
      var scene := InLevel(level);
      match action
      case SaveAction =>
        var ok := SaveState(scene, liveModSessions, timer, pooler, deepClone);
      case LoadAction =>
        var ok := LoadState(scene, timer, pooler, deepClone);
      case ClearAction =>
        ClearState(scene, timer, true);
      case F5Clear =>
        ClearState(scene, timer, true);
      case Complete =>
        LoadStateComplete(level);
      case ToggleAutoLoad =>
      case NoAction =>
      case NotSavedNotice =>
    }
  }
}
