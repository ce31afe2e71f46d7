/**
 * What removing and reinserting entities does to the level's tracking
 * structures, the entity pools and the set of sounds to restart
 * (StateManager.UnloadLevelEntities and the loop of RestoreLevelEntities),
 * as functions on one record.
 */
module EntityTracking {
  import opened Options
  import opened Sequences
  import opened Engine

  /**
   * The level's `entities` list and `current` set, the pooler's queues and
   * the state manager's `playingEventInstances`.
   */
  datatype Tracking = Tracking(
    entities: seq<Entity>,
    current: set<Entity>,
    pools: map<string, seq<Entity>>,
    playing: set<EventInstance>)

  /** The EntityList invariant on a tracking record. */
  predicate Consistent(t: Tracking) {
    ListMatchesSet(t.entities, t.current)
  }

  /** The event instances of the sound sources that are playing. */
  function PlayingInstances(cs: seq<Component>): (r: set<EventInstance>)
    ensures forall x :: x in r <==> SoundSource(true, Some(x)) in cs
    decreases |cs|
  {
    if cs == [] then {}
    else
      var c := cs[|cs| - 1];
      assert cs == cs[..|cs| - 1] + [c];
      PlayingInstances(cs[..|cs| - 1])
        + (if c.SoundSource? && c.playing && c.instance.Some? then {c.instance.value} else {})
  }

  /** `if (pools.ContainsKey(type) && pools[type].Count > 0) pools[type].Dequeue();` */
  function Dequeue(pools: map<string, seq<Entity>>, typeName: string): (r: map<string, seq<Entity>>)
    ensures r.Keys == pools.Keys
    ensures forall t :: t in pools && t != typeName ==> r[t] == pools[t]
    ensures typeName in pools ==> r[typeName] == DropFront(pools[typeName], 1)
  {
    if typeName in pools && |pools[typeName]| > 0 then pools[typeName := pools[typeName][1..]]
    else pools
  }

  /**
   * One turn of the reinsertion loop: an entity already listed is skipped;
   * otherwise it joins the set and the end of the list, its playing sounds
   * are recorded and the pool of its type gives up one instance.
   */
  function ReAddOne(t: Tracking, e: Entity): (r: Tracking)
    ensures e in r.entities && (e in t.current || e !in t.entities ==> e in r.current)
    ensures e in t.entities ==> r == t
    ensures e !in t.entities ==>
      && r.entities == t.entities + [e]
      && r.current == t.current + {e}
      && r.playing == t.playing + PlayingInstances(e.components)
      && r.pools == Dequeue(t.pools, e.typeName)
  {
    if e in t.entities then t
    else Tracking(
      t.entities + [e],
      t.current + {e},
      Dequeue(t.pools, e.typeName),
      t.playing + PlayingInstances(e.components))
  }

  /**
   * The whole reinsertion loop over the cloned list, in order. It only
   * appends to the list and never adds or drops a pool.
   */
  function ReAdd(t: Tracking, cloned: seq<Entity>): (r: Tracking)
    ensures |t.entities| <= |r.entities| && r.entities[..|t.entities|] == t.entities
    ensures r.pools.Keys == t.pools.Keys
    decreases |cloned|
  {
    if cloned == [] then t
    else
      var t1 := ReAddOne(t, cloned[0]);
      var r := ReAdd(t1, cloned[1..]);
      assert r.entities[..|t.entities|] == r.entities[..|t1.entities|][..|t.entities|];
      r
  }

  /** The entities one reinsertion appended to the list. */
  function Added(t: Tracking, cloned: seq<Entity>): seq<Entity> {
    ReAdd(t, cloned).entities[|t.entities|..]
  }

  /**
   * `level.Remove(list)` followed by `UpdateLists()`: every listed entity
   * leaves the list and the set, and the pooler's `EntityRemoved` puts each
   * one of a pooled type back at the end of its pool, in removal order.
   */
  function RemoveEntities(t: Tracking, removed: seq<Entity>): (r: Tracking)
    ensures forall e :: e in r.entities <==> e in t.entities && e !in removed
    ensures IsSubsequence(r.entities, t.entities)
    ensures r.pools.Keys == t.pools.Keys
    ensures forall k :: k in t.pools ==> r.pools[k] == t.pools[k] + EntitiesOfType(RemovalOrder(t.current, removed), k)
    ensures r.playing == t.playing
  {
    var order := RemovalOrder(t.current, removed);
    assert forall k :: k in t.pools ==> PutBack(t.pools, order)[k] == t.pools[k] + EntitiesOfType(order, k) by {
      forall k | k in t.pools ensures PutBack(t.pools, order)[k] == t.pools[k] + EntitiesOfType(order, k) {
        PutBackAppends(t.pools, order, k);
      }
    }
    t.(entities := Without(t.entities, removed), current := t.current - (set e | e in removed),
       pools := PutBack(t.pools, order))
  }

  /**
   * The order `UpdateLists` removes entities in: `EntityList.Remove` queues
   * an entity of the set once, at its first occurrence in the list given,
   * and skips one already queued or not in the set.
   */
  function RemovalOrder(current: set<Entity>, removed: seq<Entity>): (r: seq<Entity>)
    ensures NoDuplicates(r)
    ensures forall e :: e in r <==> e in current && e in removed
    ensures IsSubsequence(r, removed)
    decreases |removed|
  {
    if removed == [] then []
    else if removed[0] in current then
      var rest := RemovalOrder(current - {removed[0]}, removed[1..]);
      ConsNoDuplicates(removed[0], rest);
      SubsequenceKeepFirst(removed, rest);
      [removed[0]] + rest
    else
      var rest := RemovalOrder(current, removed[1..]);
      SubsequenceSkipFirst(removed, rest);
      rest
  }

  /** `Pooler.EntityRemoved` on each entity in turn: one of a pooled type joins the back of its pool. */
  function PutBack(pools: map<string, seq<Entity>>, es: seq<Entity>): (r: map<string, seq<Entity>>)
    ensures r.Keys == pools.Keys
    decreases |es|
  {
    if es == [] then pools
    else
      var e := es[0];
      PutBack(if e.typeName in pools then pools[e.typeName := pools[e.typeName] + [e]] else pools, es[1..])
  }

  /** Each pool gains, at its back and in order, exactly the entities of its type that were put back. */
  lemma {:induction false} PutBackAppends(pools: map<string, seq<Entity>>, es: seq<Entity>, k: string)
    requires k in pools
    ensures PutBack(pools, es)[k] == pools[k] + EntitiesOfType(es, k)
    decreases |es|
  {
    if es != [] {
      var e := es[0];
      var next := if e.typeName in pools then pools[e.typeName := pools[e.typeName] + [e]] else pools;
      PutBackAppends(next, es[1..], k);
      var rest := EntitiesOfType(es[1..], k);
      if e.typeName == k {
        assert next[k] == pools[k] + [e];
        assert EntitiesOfType(es, k) == [e] + rest;
        assert (pools[k] + [e]) + rest == pools[k] + ([e] + rest);
      } else {
        assert next[k] == pools[k];
      }
    }
  }

  /** The entities of type `typeName` in `s`, in order. */
  function EntitiesOfType(s: seq<Entity>, typeName: string): (r: seq<Entity>)
    ensures |r| == CountOfType(s, typeName)
    ensures forall e :: e in r <==> e in s && e.typeName == typeName
    ensures IsSubsequence(r, s)
    decreases |s|
  {
    if s == [] then []
    else
      var rest := EntitiesOfType(s[1..], typeName);
      if s[0].typeName == typeName then
        SubsequenceKeepFirst(s, rest);
        [s[0]] + rest
      else
        SubsequenceSkipFirst(s, rest);
        rest
  }

  /** The list with every entity of `removed` taken out, the rest in order. */
  function Without(s: seq<Entity>, removed: seq<Entity>): (r: seq<Entity>)
    ensures forall e :: e in r <==> e in s && e !in removed
    ensures IsSubsequence(r, s)
  {
    Where(s, e => e !in removed)
  }

  lemma RemoveEntitiesConsistent(t: Tracking, removed: seq<Entity>)
    requires Consistent(t)
    ensures Consistent(RemoveEntities(t, removed))
  {
    var r := RemoveEntities(t, removed);
    SubsequenceNoDuplicates(r.entities, t.entities);
    assert r.current == set e | e in r.entities;
  }

  /** The number of entities of type `typeName` in `s`. */
  function CountOfType(s: seq<Entity>, typeName: string): (n: nat)
    ensures n <= |s|
    decreases |s|
  {
    if s == [] then 0 else (if s[0].typeName == typeName then 1 else 0) + CountOfType(s[1..], typeName)
  }

  lemma {:induction false} CountOfTypeAppend(a: seq<Entity>, b: seq<Entity>, typeName: string)
    ensures CountOfType(a + b, typeName) == CountOfType(a, typeName) + CountOfType(b, typeName)
    decreases |a|
  {
    if a == [] {
      assert a + b == b;
    } else {
      assert (a + b)[0] == a[0] && (a + b)[1..] == a[1..] + b;
      CountOfTypeAppend(a[1..], b, typeName);
    }
  }

  /** The sounds of the entities of `s` that are playing. */
  function SoundsOf(s: seq<Entity>): set<EventInstance>
    decreases |s|
  {
    if s == [] then {} else PlayingInstances(s[0].components) + SoundsOf(s[1..])
  }

  lemma {:induction false} SoundsOfAppend(a: seq<Entity>, b: seq<Entity>)
    ensures SoundsOf(a + b) == SoundsOf(a) + SoundsOf(b)
    decreases |a|
  {
    if a == [] {
      assert a + b == b;
    } else {
      assert (a + b)[0] == a[0] && (a + b)[1..] == a[1..] + b;
      SoundsOfAppend(a[1..], b);
    }
  }

  /**
   * Every cloned entity ends up in the list, and in the set too when the set
   * agreed with the list; the set and the recorded sounds only grow.
   */
  lemma {:induction false} ReAddGrows(t: Tracking, cloned: seq<Entity>)
    ensures var r := ReAdd(t, cloned);
      && t.current <= r.current
      && t.playing <= r.playing
      && (forall e :: e in cloned ==> e in r.entities)
      && (Consistent(t) ==> forall e :: e in cloned ==> e in r.current)
    decreases |cloned|
  {
    if cloned != [] {
      var t1 := ReAddOne(t, cloned[0]);
      ReAddGrows(t1, cloned[1..]);
      var r := ReAdd(t, cloned);
      assert cloned[0] in r.entities by {
        var k :| 0 <= k < |t1.entities| && t1.entities[k] == cloned[0];
        assert r.entities[..|t1.entities|][k] == cloned[0];
      }
      if Consistent(t) {
        ReAddOneConsistent(t, cloned[0]);
      }
      assert forall e :: e in cloned ==> e == cloned[0] || e in cloned[1..];
    }
  }

  lemma ReAddOneConsistent(t: Tracking, e: Entity)
    requires Consistent(t)
    ensures Consistent(ReAddOne(t, e))
  {
    if e !in t.entities {
      var r := ReAddOne(t, e);
      forall i, j | 0 <= i < j < |r.entities| ensures r.entities[i] != r.entities[j] {
        if j == |t.entities| {
          assert r.entities[i] == t.entities[i];
        }
      }
      assert r.current == set x | x in r.entities;
    }
  }

  /** Reinsertion keeps the EntityList invariant. */
  lemma {:induction false} ReAddConsistent(t: Tracking, cloned: seq<Entity>)
    requires Consistent(t)
    ensures Consistent(ReAdd(t, cloned))
    decreases |cloned|
  {
    if cloned != [] {
      ReAddOneConsistent(t, cloned[0]);
      ReAddConsistent(ReAddOne(t, cloned[0]), cloned[1..]);
    }
  }

  /** Reinserting entities that are all listed already changes nothing. */
  lemma {:induction false} ReAddPresent(t: Tracking, cloned: seq<Entity>)
    requires forall e :: e in cloned ==> e in t.entities
    ensures ReAdd(t, cloned) == t
    decreases |cloned|
  {
    if cloned != [] {
      assert cloned[0] in cloned;
      assert forall e :: e in cloned[1..] ==> e in cloned;
      ReAddPresent(t, cloned[1..]);
    }
  }

  /** Running the reinsertion a second time over the same list adds nothing. */
  lemma ReAddIdempotent(t: Tracking, cloned: seq<Entity>)
    ensures ReAdd(ReAdd(t, cloned), cloned) == ReAdd(t, cloned)
  {
    ReAddGrows(t, cloned);
    ReAddPresent(ReAdd(t, cloned), cloned);
  }

  /** Splits what one reinsertion adds into what its first turn adds and what the rest adds. */
  lemma AddedSplit(t: Tracking, cloned: seq<Entity>)
    requires cloned != []
    ensures var e, t1 := cloned[0], ReAddOne(t, cloned[0]);
      Added(t, cloned) == (if e in t.entities then [] else [e]) + Added(t1, cloned[1..])
  {
    var e, t1 := cloned[0], ReAddOne(t, cloned[0]);
    var r := ReAdd(t1, cloned[1..]);
    assert ReAdd(t, cloned) == r;
    if e !in t.entities {
      var rest := r.entities[|t1.entities|..];
      assert r.entities == t1.entities + rest;
      assert r.entities[|t.entities|..] == [e] + rest;
    }
  }

  /** What reinsertion appends is exactly the cloned entities that were not listed. */
  lemma {:induction false} ReAddAddedMembers(t: Tracking, cloned: seq<Entity>)
    ensures forall e :: e in Added(t, cloned) <==> e in cloned && e !in t.entities
    decreases |cloned|
  {
    if cloned == [] {
      assert Added(t, cloned) == [];
    } else {
      var e, t1 := cloned[0], ReAddOne(t, cloned[0]);
      var first := if e in t.entities then [] else [e];
      var rest := Added(t1, cloned[1..]);
      AddedSplit(t, cloned);
      ReAddAddedMembers(t1, cloned[1..]);
      assert Added(t, cloned) == first + rest;
      assert forall x :: x in t1.entities <==> x in t.entities || x == e;
      assert forall x :: x in cloned <==> x == e || x in cloned[1..];
    }
  }

  /** Reinsertion appends each entity at most once. */
  lemma {:induction false} ReAddAddedNoDuplicates(t: Tracking, cloned: seq<Entity>)
    ensures NoDuplicates(Added(t, cloned))
    decreases |cloned|
  {
    if cloned == [] {
      assert Added(t, cloned) == [];
    } else {
      var e, t1 := cloned[0], ReAddOne(t, cloned[0]);
      var rest := Added(t1, cloned[1..]);
      AddedSplit(t, cloned);
      ReAddAddedNoDuplicates(t1, cloned[1..]);
      if e !in t.entities {
        ReAddAddedMembers(t1, cloned[1..]);
        assert e in t1.entities;
        ConsNoDuplicates(e, rest);
      }
    }
  }

  /** The sounds recorded by reinsertion are exactly those of the entities it added. */
  lemma {:induction false} ReAddRecordsSounds(t: Tracking, cloned: seq<Entity>)
    ensures ReAdd(t, cloned).playing == t.playing + SoundsOf(Added(t, cloned))
    decreases |cloned|
  {
    if cloned == [] {
      assert Added(t, cloned) == [];
    } else {
      var e, t1 := cloned[0], ReAddOne(t, cloned[0]);
      var first := if e in t.entities then [] else [e];
      AddedSplit(t, cloned);
      ReAddRecordsSounds(t1, cloned[1..]);
      SoundsOfAppend(first, Added(t1, cloned[1..]));
      assert SoundsOf(first) == if e in t.entities then {} else PlayingInstances(e.components) by {
        if e !in t.entities {
          assert first[1..] == [];
        }
      }
    }
  }

  /** What one turn adds holds one entity of its own type and none of any other. */
  lemma CountOfTypeFirst(t: Tracking, e: Entity, typeName: string)
    ensures CountOfType(if e in t.entities then [] else [e], typeName)
      == if e !in t.entities && e.typeName == typeName then 1 else 0
  {
    if e !in t.entities {
      assert [e][1..] == [];
    }
  }

  /**
   * Each pool loses instances only from its front, one per added entity of
   * its type, down to empty; pools of types that nothing added has are left
   * as they were.
   */
  lemma ReAddDequeues(t: Tracking, cloned: seq<Entity>, typeName: string)
    requires typeName in t.pools
    ensures ReAdd(t, cloned).pools[typeName] == DropFront(t.pools[typeName], CountOfType(Added(t, cloned), typeName))
  {
    PoolAfterReAdd(t, cloned, typeName);
    AddedOfTypeCounts(t, cloned, typeName);
  }

  /** The number of appended entities of one type, counted turn by turn. */
  function AddedOfType(t: Tracking, cloned: seq<Entity>, typeName: string): nat
    decreases |cloned|
  {
    if cloned == [] then 0
    else
      (if cloned[0] !in t.entities && cloned[0].typeName == typeName then 1 else 0)
        + AddedOfType(ReAddOne(t, cloned[0]), cloned[1..], typeName)
  }

  lemma {:induction false} AddedOfTypeCounts(t: Tracking, cloned: seq<Entity>, typeName: string)
    ensures AddedOfType(t, cloned, typeName) == CountOfType(Added(t, cloned), typeName)
    decreases |cloned|
  {
    if cloned == [] {
      assert Added(t, cloned) == [];
    } else {
      var e, t1 := cloned[0], ReAddOne(t, cloned[0]);
      AddedSplit(t, cloned);
      AddedOfTypeCounts(t1, cloned[1..], typeName);
      CountOfTypeAppend(if e in t.entities then [] else [e], Added(t1, cloned[1..]), typeName);
      CountOfTypeFirst(t, e, typeName);
    }
  }

  lemma {:induction false} PoolAfterReAdd(t: Tracking, cloned: seq<Entity>, typeName: string)
    requires typeName in t.pools
    ensures ReAdd(t, cloned).pools[typeName] == DropFront(t.pools[typeName], AddedOfType(t, cloned, typeName))
    decreases |cloned|
  {
    if cloned == [] {
      assert DropFront(t.pools[typeName], 0) == t.pools[typeName];
    } else {
      var e, t1 := cloned[0], ReAddOne(t, cloned[0]);
      var k := if e !in t.entities && e.typeName == typeName then 1 else 0;
      PoolAfterReAddOne(t, e, typeName);
      PoolAfterReAdd(t1, cloned[1..], typeName);
      DropFrontTwice(t.pools[typeName], k, AddedOfType(t1, cloned[1..], typeName));
    }
  }

  /** One turn takes at most one instance, from the front of its type's pool. */
  lemma PoolAfterReAddOne(t: Tracking, e: Entity, typeName: string)
    requires typeName in t.pools
    ensures typeName in ReAddOne(t, e).pools
    ensures ReAddOne(t, e).pools[typeName]
      == DropFront(t.pools[typeName], if e !in t.entities && e.typeName == typeName then 1 else 0)
  {
    if e !in t.entities && e.typeName != typeName {
      assert ReAddOne(t, e).pools[typeName] == t.pools[typeName];
    }
  }

  /** Reinserting a list and then one more entity is one reinsertion of the longer list. */
  lemma {:induction false} ReAddSnoc(t: Tracking, s: seq<Entity>, e: Entity)
    ensures ReAdd(t, s + [e]) == ReAddOne(ReAdd(t, s), e)
    decreases |s|
  {
    if s == [] {
      assert s + [e] == [e] && [e][1..] == [];
    } else {
      assert (s + [e])[0] == s[0] && (s + [e])[1..] == s[1..] + [e];
      ReAddSnoc(ReAddOne(t, s[0]), s[1..], e);
    }
  }
}
