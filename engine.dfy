/**
 * The parts of the game engine (Monocle / Celeste) that the save/load code
 * touches, abstracted to values: an entity is an identity with a type tag,
 * its concrete .NET type name, the tag flags the code tests and its
 * components; a level is the live scene holding the entity list.
 */
module Engine {
  import opened Options
  import opened Sequences

  /** An FMOD event instance, by identity. */
  type EventInstance = nat

  datatype Component =
    | SoundSource(playing: bool, instance: Option<EventInstance>)
    | OtherComponent

  /** The engine classes the code tests with `is`, with the fields it reads. */
  datatype Kind =
    | Player(stateId: int, dead: bool)
    | CassetteBlockManager
    | SeekerBarrierRenderer
    | LightningRenderer
    | HeartGem(collected: bool)
    | OtherKind

  /**
   * An entity, as a value: two entities are the same object exactly when all
   * their fields agree. `id` keeps two objects of equal contents apart;
   * `global` is `TagCheck(Tags.Global)`, `ignoreSaveLoad` that the entity
   * carries an ignore-save-load component.
   */
  datatype Entity = Entity(
    id: nat,
    kind: Kind,
    typeName: string,
    global: bool,
    ignoreSaveLoad: bool,
    components: seq<Component>)

  datatype AreaKey = AreaKey(id: int, mode: int)

  /** The session: the area being played and the current room (`Session.Level`). */
  datatype Session = Session(area: AreaKey, room: string)

  predicate IsPlayer(e: Entity) {
    e.kind.Player?
  }

  /** The EntityList invariant: no entity listed twice, and the set is the list's elements. */
  predicate ListMatchesSet(entities: seq<Entity>, current: set<Entity>) {
    NoDuplicates(entities) && current == set e | e in entities
  }

  /** `level.GetPlayer()`: the first player in the level's entity list, or null. */
  function GetPlayer(entities: seq<Entity>): (p: Option<Entity>)
    ensures p.Some? ==> p.value in entities && IsPlayer(p.value)
    ensures p.Null? ==> forall e :: e in entities ==> !IsPlayer(e)
  {
    FindFirst(entities, IsPlayer)
  }

  /**
   * The level's boolean fields that a copy of its simple-type fields carries
   * over. `Transitioning` is not among them: it is derived from the
   * `transition` coroutine, a reference.
   */
  datatype LevelFlags = LevelFlags(
    paused: bool,
    inCutscene: bool,
    skippingCutscene: bool,
    frozen: bool,
    completed: bool,
    pauseLock: bool,
    timerStopped: bool)

  /**
   * A level: the `entities` list and `current` set of its EntityList and the
   * flags the save/load code reads or writes.
   */
  class Level {
    var entities: seq<Entity>
    var current: set<Entity>
    var paused: bool
    var transitioning: bool
    var inCutscene: bool
    var skippingCutscene: bool
    var frozen: bool
    var completed: bool
    var pauseLock: bool
    var timerStopped: bool
    var session: Session

    /** EntityList's invariant, on the level's own list and set. */
    predicate Valid()
      reads this
    {
      ListMatchesSet(entities, current)
    }

    function Flags(): LevelFlags
      reads this
    {
      LevelFlags(paused, inCutscene, skippingCutscene, frozen, completed, pauseLock, timerStopped)
    }

    /** Overwrites the boolean fields with `f` and nothing else. */
    method SetFlags(f: LevelFlags)
      modifies this`paused, this`inCutscene, this`skippingCutscene, this`frozen
      modifies this`completed, this`pauseLock, this`timerStopped
      ensures Flags() == f
    {
      paused := f.paused;
      inCutscene := f.inCutscene;
      skippingCutscene := f.skippingCutscene;
      frozen := f.frozen;
      completed := f.completed;
      pauseLock := f.pauseLock;
      timerStopped := f.timerStopped;
    }

    constructor (entities: seq<Entity>, session: Session)
      requires NoDuplicates(entities)
      ensures Valid()
      ensures this.entities == entities && this.session == session
      ensures !paused && !transitioning && !inCutscene && !skippingCutscene
      ensures !frozen && !completed && !pauseLock && !timerStopped
    {
      this.entities := entities;
      this.current := set e | e in entities;
      this.session := session;
      paused, transitioning, inCutscene, skippingCutscene := false, false, false, false;
      frozen, completed, pauseLock, timerStopped := false, false, false, false;
    }
  }

  /** `Engine.Pooler`: a queue of reusable instances per concrete type name. */
  class Pooler {
    var pools: map<string, seq<Entity>>

    constructor (pools: map<string, seq<Entity>>)
      ensures this.pools == pools
    {
      this.pools := pools;
    }
  }

  /** `Engine.Scene`: the kinds of scene the code distinguishes. */
  datatype Scene =
    | InLevel(level: Level)
    | Overworld
    | MapEditor
    | OtherScene(session: Option<Session>)

  /** The objects of a scene that an operation on it may change. */
  function LevelOf(scene: Scene): set<object> {
    if scene.InLevel? then {scene.level} else {}
  }

  /** `scene.GetSession()`: the session of a level or of a loading/exit scene. */
  function SessionOf(scene: Scene): (s: Option<Session>)
    reads LevelOf(scene)
    ensures scene.InLevel? ==> s == Some(scene.level.session)
    ensures scene.Overworld? || scene.MapEditor? ==> s.Null?
  {
    match scene
    case InLevel(level) => Some(level.session)
    case OtherScene(session) => session
    case _ => Null
  }
}
