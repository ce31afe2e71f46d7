# SpeedrunTool save states and room timer, in Dafny

This project models two parts of SpeedrunTool, a Celeste mod for speedrunners.

- **The save/load orchestrator** (`StateManager`). It is a three-state machine (`None`, `Loading`, `Waiting`) over an optional snapshot of the current level. Saving is allowed only under a guard (`IsAllowSave`). A load works in this order:
  1. It removes the level-local entities. `GetEntitiesExcludingGlobal` chooses them: the player goes first and three kinds of renderer go last.
  2. It reinserts a deep clone of the saved entities, with the player moved last.
  3. Each reinserted entity joins the level's `current` set and `entities` list, has its playing sounds recorded, and takes one instance from the pool of its type.
  4. It restores the level's session and flags and freezes the level for the screen wipe.
  5. The wipe's callback either waits for input (`Waiting`) or completes the load (`LoadStateComplete`).

  `CheckButton`, run once per frame, picks one hotkey branch.
- **The room timer's bookkeeping** (`RoomTimerManager`):
  - the personal-best comparison text `±S.mmm`;
  - the mode cycle `Off → NextRoom → CurrentRoom → Off`;
  - the timed-rooms counter bounded to [1, 99];
  - the timer-visibility hook;
  - the room-change detection of each frame through `previousRoom`, which `ResetTime` and `ClearPbTimes` reset.

How the game engine is modelled:
- An entity is a value with a type name, a kind tag, a few flags and its components.
- The level, the entity pooler, the mod settings, the state manager and the room timer are classes whose fields the methods update.
- The deep clone is an uninterpreted function parameter, `deepClone: seq<Entity> -> seq<Entity>`.
- The list operations of the source that are expressions (LINQ `Where`, and `Remove`/`Insert`/`Add` on a fresh list) are functions.
- The reinsertion `foreach` is a method with a loop. It is proved against the function `ReAdd`, and the loop's properties are proved about `ReAdd` as lemmas.

Files:
- `options.dfy`: `Option`.
- `sequences.dfy`: subsequences, `Where`, `RemoveFirst`, `FindFirst`, `DropFront`.
- `engine.dfy`: entity, level, pooler and scene.
- `settings.dfy`: the settings object.
- `entity_selection.dfy`: which entities are saved and removed, and in what order.
- `entity_tracking.dfy`: removal and reinsertion on the tracking structures.
- `state_manager.dfy`: the `StateManager` class and the hotkey dispatcher.
- `time_format.dfy`: decimal digits.
- `room_timer.dfy`: `RoomTimerManager`.

## Model

| member | source | states |
|---|---|---|
| SaveLoad.StateManager.constructor | SpeedrunTool/SaveLoad/StateManager.cs:30-52 | A new manager holds no snapshot, no pre-clone and no sounds, and is in state `None`. |
| SaveLoad.StateManager.SaveState | SpeedrunTool/SaveLoad/StateManager.cs:123-160 | Succeeds exactly when the scene is a level and `IsAllowSave` holds (idle; not paused, transitioning, in or skipping a cutscene; a live player whose state is not one of the seven disabled ones; no heart being collected). On refusal nothing changes, so the previous snapshot stays. On success the snapshot holds the clone of `GetEntitiesNeedDeepClone`, the level's session, the flags as `ClearState(false)` left them and the mods' sessions, and the level is then loaded from it with the end points kept. |
| SaveLoad.StateManager.IsSaved | SpeedrunTool/SaveLoad/StateManager.cs:31 | True exactly when a snapshot is held: under the manager's invariant, the saved level, entities and mod sessions together. With none held, the state is `None`. |
| SaveLoad.StateManager.IsAllowSave | SpeedrunTool/SaveLoad/StateManager.cs:416-421 | A save being allowed implies that the first player (`GetPlayer`) is listed, live whose state is not one of the seven disabled ones, and no heart gem being collected. A level with no player, a manager that is not idle, or a paused, transitioning, in-cutscene or cutscene-skipping level never allows one. |
| SaveLoad.IsNotCollectingHeart | SpeedrunTool/SaveLoad/StateManager.cs:423-425 | True exactly when no heart gem in the entity list has its `collected` field set. |
| SaveLoad.StateManager.TakeSnapshot | SpeedrunTool/SaveLoad/StateManager.cs:129-156 | From a cleared manager, records the session and flags, a clone of the entities to restore and the mods' sessions, leaving a whole, valid snapshot. |
| SaveLoad.StateManager.LoadState | SpeedrunTool/SaveLoad/StateManager.cs:168-229 | Succeeds exactly when the scene is an unpaused level, the state is `None` and a snapshot exists. Otherwise it changes nothing. On success the state is `Loading`, the snapshot is kept, the level's tracking is `LoadedTracking` of the old one, the session and flags are the snapshot's with `Frozen` and `TimerStopped` set, the transition is ended and the room timer's previous room is forgotten. |
| SaveLoad.StateManager.LoadLevel | SpeedrunTool/SaveLoad/StateManager.cs:172-211 | The body of a load past its guard leaves exactly the state `LoadedFrom` describes of the tracking it started from. |
| SaveLoad.StateManager.BeginLoad | SpeedrunTool/SaveLoad/StateManager.cs:172-182 | Sets the state to `Loading`, resets the room timer's previous room and ends the level's transition. |
| SaveLoad.StateManager.RestoreSnapshot | SpeedrunTool/SaveLoad/StateManager.cs:189-211 | Unloads, reinserts, restores and freezes: the tracking becomes `LoadedTracking`, and the session and flags become the snapshot's with the level frozen and its timer stopped. |
| SaveLoad.StateManager.ReplaceLevelEntities | SpeedrunTool/SaveLoad/StateManager.cs:189-190 | Unload followed by reinsertion turns the tracking into `LoadedTracking` of the old one, keeping the level's list and set consistent. |
| SaveLoad.StateManager.RestoreLevelFrozen | SpeedrunTool/SaveLoad/StateManager.cs:192-211 | Restores the session and flags from the snapshot, then sets `Frozen` and `TimerStopped`, leaving the entities and the transition alone. |
| SaveLoad.StateManager.FreezeLevel | SpeedrunTool/SaveLoad/StateManager.cs:210-211 | Sets `Frozen` and `TimerStopped` and no other flag. |
| SaveLoad.StateManager.WipeCompleted | SpeedrunTool/SaveLoad/StateManager.cs:213-226 | When not run for TAS and freeze-after-load is on, goes to `Waiting` with pausing locked and the sounds kept. Otherwise it completes the load: state `None`, no sounds left to restart, and the snapshot's session and flags. |
| SaveLoad.StateManager.LoadStateComplete | SpeedrunTool/SaveLoad/StateManager.cs:231-239 | Restores the snapshot's session and flags, empties the sounds to restart and returns to `None`, leaving the entity lists alone. |
| SaveLoad.StateManager.RestoreLevel | SpeedrunTool/SaveLoad/StateManager.cs:354-370 | The level's session and boolean fields become the snapshot's. Its entity list, entity set and transition are unchanged. |
| SaveLoad.StateManager.ClearState | SpeedrunTool/SaveLoad/StateManager.cs:267-294 | Leaves no snapshot, mod sessions, pre-clone or sounds, and state `None`. Resets the room timer's previous room; the end points are cleared only when asked. In a level, releases freeze and pause lock exactly as `ReleasedFlags` says, with nothing else about the level changed. |
| SaveLoad.StateManager.ClearStateTwice | SpeedrunTool/SaveLoad/StateManager.cs:267-294 | Clearing twice leaves exactly what clearing once leaves: a cleared, valid manager, the previous room forgotten, the end points cleared exactly when asked, and in a level the flags released once by `ReleasedFlags` with the entity list, entity set, session, transition and list invariant unchanged. |
| SaveLoad.ReleasedFlags | SpeedrunTool/SaveLoad/StateManager.cs:268-271 | Unfreezes and unlocks pausing when no heart is being collected and the level is not complete. Otherwise the flags are unchanged. No other flag ever changes. |
| SaveLoad.ReleasedFlagsIdempotent | SpeedrunTool/SaveLoad/StateManager.cs:268-271 | Releasing a level's flags twice is releasing them once. |
| SaveLoad.StateManager.ClearStateWhenSwitchScene | SpeedrunTool/SaveLoad/StateManager.cs:86-99 | The overworld clears everything. So does a scene whose area differs from the snapshot's. In both cases the room timer forgets its room and its end points. A level cleared this way has its flags released by `ReleasedFlags`, and its entity list, set, session and transition are unchanged. With a snapshot held and the area the same, a level forces the state to `None` and starts a pre-clone, keeping the snapshot. With no snapshot, a scene other than the overworld changes nothing. The list invariant of a level is kept. |
| SaveLoad.StateManager.UnloadLevelEntities | SpeedrunTool/SaveLoad/StateManager.cs:296-303 | Removes every entity `GetEntitiesExcludingGlobal` lists from the level's list (keeping the order of the rest) and from its set. The pools become `PutBack` of the old pools over the removed entities, taken in `RemovalOrder`: each one that was in the set goes back to its type's pool. |
| SaveLoad.UnloadKeepsExactlyGlobals | SpeedrunTool/SaveLoad/StateManager.cs:372-398 | After unloading, an entity is still listed exactly when it was listed, is Global and not the cassette manager, is not the player, and is not one of the appended renderers. |
| SaveLoad.RemovedByUnload | SpeedrunTool/SaveLoad/StateManager.cs:372-398 | A listed entity is removed exactly when it is level-local, the player or an appended renderer. |
| SaveLoad.StateManager.PreCloneEntities | SpeedrunTool/SaveLoad/StateManager.cs:305-311 | The pre-clone task now stands for the given list. |
| SaveLoad.StateManager.RestoreLevelEntities | SpeedrunTool/SaveLoad/StateManager.cs:313-352 | Starts a pre-clone of the snapshot. The tracking (list, set, pools, sounds) becomes `ReAdd` of the old tracking over the clone with its player moved last. |
| SaveLoad.StateManager.ReAddEntity | SpeedrunTool/SaveLoad/StateManager.cs:327-351 | One loop turn: the tracking becomes `ReAddOne` of the old tracking. |
| SaveLoad.StateManager.RecordPlayingSounds | SpeedrunTool/SaveLoad/StateManager.cs:335-344 | Adds to the sounds to restart exactly the instances of the playing sound sources among the components. |
| EntityTracking.PlayingInstances | SpeedrunTool/SaveLoad/StateManager.cs:340-343 | An instance is recorded exactly when a playing sound source with that instance is among the components. |
| EntityTracking.ReAddOne | SpeedrunTool/SaveLoad/StateManager.cs:328-350 | An entity already listed changes nothing. Otherwise it is appended to the list, added to the set, its playing sounds are recorded and its type's pool is dequeued. |
| EntityTracking.Dequeue | SpeedrunTool/SaveLoad/StateManager.cs:346-350 | The pool of the entity's type loses its first element if it has one (never going below empty). Every other pool and the set of pool types are unchanged. |
| EntityTracking.ReAdd | SpeedrunTool/SaveLoad/StateManager.cs:327-351 | The reinsertion only appends to the list and never adds or drops a pool type. |
| EntityTracking.ReAddAddedMembers | SpeedrunTool/SaveLoad/StateManager.cs:328-331 | The entities appended are exactly the cloned ones that were not listed before. |
| EntityTracking.ReAddAddedNoDuplicates | SpeedrunTool/SaveLoad/StateManager.cs:328-331 | No entity is appended twice. |
| EntityTracking.ReAddGrows | SpeedrunTool/SaveLoad/StateManager.cs:328-331 | Every cloned entity ends up in the list, and in the set too when the list and set were consistent. The set and the recorded sounds only grow. |
| EntityTracking.ReAddPresent | SpeedrunTool/SaveLoad/StateManager.cs:328 | Reinserting entities that are all listed already changes nothing. |
| EntityTracking.ReAddIdempotent | SpeedrunTool/SaveLoad/StateManager.cs:328 | Reinserting the same clone a second time adds nothing. |
| EntityTracking.ReAddRecordsSounds | SpeedrunTool/SaveLoad/StateManager.cs:335-344 | The sounds to restart grow by exactly the playing sounds of the appended entities. |
| EntityTracking.ReAddDequeues | SpeedrunTool/SaveLoad/StateManager.cs:346-350 | Each pool loses one element per appended entity of its type, down to empty at most. |
| SaveLoad.LoadedPools | SpeedrunTool/SaveLoad/StateManager.cs:296-350 | The net effect of a load on a pool: the removed entities of its type are put back at its end, then one element is taken from its front per reinserted entity of its type, down to empty at most. |
| EntityTracking.ReAddOneConsistent | SpeedrunTool/SaveLoad/StateManager.cs:328-331 | One turn keeps the list duplicate-free and the set equal to the list's elements. |
| EntityTracking.ReAddConsistent | SpeedrunTool/SaveLoad/StateManager.cs:327-351 | The whole loop keeps the list duplicate-free and the set equal to the list's elements. |
| EntityTracking.ReAddSnoc | SpeedrunTool/SaveLoad/StateManager.cs:327-351 | The loop over a list with one more entity is one more turn after the loop over the list. |
| EntityTracking.RemoveEntities | SpeedrunTool/SaveLoad/StateManager.cs:297-299 | An entity stays listed exactly when it was listed and not removed, and the rest keep their order. Each pool gets back, at its end and in removal order, the removed entities of its type that were in the set; no pool type is added or dropped. The sounds are untouched. |
| EntityTracking.RemovalOrder | SpeedrunTool/SaveLoad/StateManager.cs:297-299 | The entities the engine takes out: each removed entity that was in the set, once, as a subsequence of the removal list (so in its order). |
| EntityTracking.PutBackAppends | SpeedrunTool/SaveLoad/StateManager.cs:297-299 | Putting entities back appends to each pool exactly those of its type, in order. |
| EntityTracking.EntitiesOfType | SpeedrunTool/SaveLoad/StateManager.cs:346-350 | The entities of one type as a subsequence of the list (so in its order): as many as `CountOfType` says, and exactly the members of that type. |
| EntityTracking.RemoveEntitiesConsistent | SpeedrunTool/SaveLoad/StateManager.cs:297-299 | Removal keeps the list duplicate-free and the set equal to the list's elements. |
| SaveLoad.LoadedTrackingConsistent | SpeedrunTool/SaveLoad/StateManager.cs:189-190 | A whole load (unload, then reinsert) keeps the list duplicate-free and the set equal to the list's elements. |
| SaveLoad.ReinsertedPlayerIsLast | SpeedrunTool/SaveLoad/StateManager.cs:317-331 | When the clone holds its player once and the level does not list it, the player is the last entity of the level's list after reinsertion. |
| SaveLoad.PlayerNotInRest | SpeedrunTool/SaveLoad/StateManager.cs:319-322 | A player the clone holds once is last in the reinsertion order and nowhere before it. |
| EntitySelection.MovePlayerLast | SpeedrunTool/SaveLoad/StateManager.cs:319-322 | A permutation of the clone: with a player, the first one is cut from its index and moved to the end, and the rest keep their order. Without one, the list is unchanged. |
| EntitySelection.GetEntitiesExcludingGlobal | SpeedrunTool/SaveLoad/StateManager.cs:372-398 | The player, if any, is at index 0. The renderers found come last, in the order seeker barrier, lightning, instant teleporter. Everything between is non-Global or the cassette manager, in list order. Every level-local entity is included, and nothing unlisted is. Before the renderers, the list holds as a multiset exactly the level-local entities plus the player when the filter dropped it. |
| EntitySelection.PlayerFirstCounts | SpeedrunTool/SaveLoad/StateManager.cs:374-380 | Moving the player to the front adds it to the level-local entities only when the filter dropped it: no entity is duplicated or lost. |
| EntitySelection.AppendedRenderers | SpeedrunTool/SaveLoad/StateManager.cs:383-395 | The first seeker barrier renderer, lightning renderer and instant teleporter renderer of the level, each present only when found, in that order. |
| EntitySelection.PlayerFirst | SpeedrunTool/SaveLoad/StateManager.cs:376-380 | The player is at the front whether or not the filter kept it. The rest keep their order. As multisets the result is the filtered list when the player was kept (moved, not copied), the filtered list plus the player when it was not, and the list itself without a player. |
| EntitySelection.GetEntitiesNeedDeepClone | SpeedrunTool/SaveLoad/StateManager.cs:400-414 | An order-preserving subsequence of `GetEntitiesExcludingGlobal`. It has no ignore-tagged entity and no type name starting with `Celeste.Mod.CelesteNet.` or `TAS.`, and keeps every other entity. Each kept entity appears as many times as in `GetEntitiesExcludingGlobal` (a non-Global renderer listed twice is cloned twice), and a dropped one not at all. |
| Sequences.WhereCounts | SpeedrunTool/SaveLoad/StateManager.cs:400-414 | `Where(...).ToList()` keeps every copy of an element it accepts and none of one it rejects. |
| SaveLoad.Dispatch | SpeedrunTool/SaveLoad/StateManager.cs:427-465 | First match wins, in both directions. Each action implies its own guard. Each guard, with every earlier guard failing, yields its action: save, then load (a snapshot held), the not-saved notice (none held and the level not frozen) or nothing (frozen), then clear, then F5, then the auto-load toggle, then completion (waiting, unpaused and one of the continue inputs of lines 452-461, `ContinueInput`). Disabled does nothing, and `NoAction` arises only from these cases or when no guard holds. |
| SaveLoad.StateManager.CheckButton | SpeedrunTool/SaveLoad/StateManager.cs:427-465 | What the frame does is the `Dispatch` action of the old state. The auto-load setting flips exactly on the toggle. The state follows `Performed`: a save's snapshot (session, released flags, entity clone, mod sessions) and load, or nothing when `IsAllowSave` refuses. A load's `LoadedFrom` with the snapshot and end points kept. A clear's `Cleared`, with the timer's room and end points cleared, the flags released and the entities, session, transition and pools unchanged. A completion's `None` with the snapshot's session and flags, the entities, timer and pools unchanged. Nothing changed otherwise. |
| SaveLoad.StateManager.Perform | SpeedrunTool/SaveLoad/StateManager.cs:430-463 | Carries out the save, load, clear, F5 and completion branches of an action whose guard held (for a load: idle, unpaused and saved; for a completion: `Waiting`), leaving the state `Performed` describes and keeping the manager's and the level's invariants. |
| RoomTimer.ComparePb | SpeedrunTool/Source/RoomTimer/RoomTimerManager.cs:246-261 | Empty with no personal best, and `+0.0` on a tie. Otherwise `+` exactly when the difference is not negative and `-` exactly when it is. Then the whole seconds of the absolute difference, in decimal with no leading zero, a point, and three digits of its truncated milliseconds. |
| RoomTimer.ComparePbMilliseconds | SpeedrunTool/Source/RoomTimer/RoomTimerManager.cs:257-259 | Seconds times 1000 plus the milliseconds digits is the absolute difference in whole milliseconds. |
| RoomTimer.SecondsOfMilliseconds | SpeedrunTool/Source/RoomTimer/RoomTimerManager.cs:257-259 | The whole seconds of a tick count are the whole seconds of its whole milliseconds, so the text's two parts agree. |
| RoomTimer.ComparePbDistinguishes | SpeedrunTool/Source/RoomTimer/RoomTimerManager.cs:251-260 | Two non-tied times give the same text against a best exactly when their differences have the same sign and the same whole milliseconds (the text loses only sub-millisecond ticks). |
| RoomTimer.ComparePbNegated | SpeedrunTool/Source/RoomTimer/RoomTimerManager.cs:251-260 | Negating the difference changes the sign character and nothing else. |
| RoomTimer.IsShowTimer | SpeedrunTool/Source/RoomTimer/RoomTimerManager.cs:109-111 | The timer shows when the game would show it, or whenever a room-timer mode other than `Off` is selected. |
| RoomTimer.NextRoomTimerType | SpeedrunTool/Source/RoomTimer/RoomTimerManager.cs:66 | The next mode's enum value is the current one plus one, modulo the three modes. |
| RoomTimer.NextRoomTimerTypeCycles | SpeedrunTool/Source/RoomTimer/RoomTimerManager.cs:15-19 | The cycle is `Off → NextRoom → CurrentRoom → Off`. Three presses return to the start, and one press always changes the mode. |
| RoomTimer.RoomTimerManager.SwitchRoomTimer | SpeedrunTool/Source/RoomTimer/RoomTimerManager.cs:113-120 | The selected mode becomes the given one. |
| RoomTimer.RoomTimerManager.SwitchRoomTimerPressed | SpeedrunTool/Source/RoomTimer/RoomTimerManager.cs:64-69 | In an unpaused level the mode advances to the next; otherwise it is unchanged. |
| RoomTimer.RoomTimerManager.IncreaseTimedRoomsPressed | SpeedrunTool/Source/RoomTimer/RoomTimerManager.cs:71-80 | In an unpaused level the count grows by one when below 99; otherwise it is unchanged. A count in [1, 99] stays there. |
| RoomTimer.RoomTimerManager.DecreaseTimedRoomsPressed | SpeedrunTool/Source/RoomTimer/RoomTimerManager.cs:82-91 | In an unpaused level the count shrinks by one when above 1; otherwise it is unchanged. A count in [1, 99] stays there. |
| RoomTimer.RoomTimerManager.ClearPbTimes | SpeedrunTool/Source/RoomTimer/RoomTimerManager.cs:122-132 | Forgets the previous room. Clears the end points exactly when asked; otherwise they are intact. |
| EntitySelection.StartsWith | SpeedrunTool/SaveLoad/StateManager.cs:409-410 | A type name starts with a prefix exactly when the prefix is no longer than it and agrees with it character by character. |
| RoomTimer.RoomTimerManager.ResetRoomTimerPbPressed | SpeedrunTool/Source/RoomTimer/RoomTimerManager.cs:57-62 | In an unpaused level or the map editor, clears the previous room and the end points; elsewhere nothing changes. |
| RoomTimer.RoomTimerManager.ResetTime | SpeedrunTool/Source/RoomTimer/RoomTimerManager.cs:186-190 | Forgets the previous room. |
| RoomTimer.EnteringNextRoom | SpeedrunTool/Source/RoomTimer/RoomTimerManager.cs:138 | True exactly when a previous room is remembered and differs from the current one. |
| RoomTimer.RoomTimerManager.Timing | SpeedrunTool/Source/RoomTimer/RoomTimerManager.cs:134-146 | Afterwards the previous room is the current room. The frame enters a room exactly as `EnteringNextRoom` says of the old previous room, and the timers advance exactly on completion, a new room or a reached end point. |
| RoomTimer.ResetThenTiming | SpeedrunTool/Source/RoomTimer/RoomTimerManager.cs:186-190 | After `ResetTime`, or `ClearPbTimes` with or without the end points, the next frame never counts as entering a room, whatever room it is in. |
| TimeFormat.NatToString | SpeedrunTool/Source/RoomTimer/RoomTimerManager.cs:259 | The whole seconds are written as at least one decimal digit, with no leading zero. |
| TimeFormat.ParseNatToString | SpeedrunTool/Source/RoomTimer/RoomTimerManager.cs:259 | The decimal text of the whole seconds reads back as the same number. |
| TimeFormat.Pad3 | SpeedrunTool/Source/RoomTimer/RoomTimerManager.cs:259 | The `.fff` part is three digits reading back as the milliseconds below 1000. |

## Left out

- The deep clone (`DeepCloneShared`, `DeepCloneToShared`, `DeepCloneYaml`, `DeepClonerUtils`) belongs to a library that is not part of this model. It is an uninterpreted function parameter, so identity preservation and the shared clone state (`SetSharedDeepCloneState`, `ClearSharedDeepCloneState`) are not modelled.
- SaveLoad.StateManager.PreCloneEntities: the background `Task` and its result are not modelled. The pre-clone is a value that records which list it clones, and `ClearState` nulls it.
- The reflection-driven engine calls are not modelled: `TagLists`/`Tracker` `EntityAdded`/`ComponentAdded`/`EntityRemoved`, `SetActualDepth`, the `Removed` callbacks, and the pending lists of `Entities.UpdateLists`. The level's `entities` list and `current` set stand for the EntityList. Of what `UpdateLists` does with removed entities, only their return to `Engine.Pooler` is modelled (`RemoveEntities`).
- Audio is not modelled: `EventInstance.start`, both cassette-manager restores (StateManager.cs:248-265), and the event start in `LoadStateComplete`. The sounds to restart are a set of instance ids.
- SaveLoad.StateManager.RestoreLevel: the float fields, the static engine fields, and the copies of the camera, bloom, lighting and backdrops are not modelled; they are float and drawing state. The copy of simple fields is modelled as the session plus the boolean flags (`Frozen`, `PauseLock`, `TimerStopped`, `Completed` and the rest).
- SaveLoad.StateManager.LoadState: the mod-session restore loop over `Everest.Modules` is not modelled, and neither are `SaveLoadAction` callbacks, `DeathStatisticsManager.Died`, displacement, particles, `TrailManager` and `ScreenWipe` cancelling. The screen wipe's callback is the separate method `WipeCompleted`, which the host calls when the wipe ends.
- SaveLoad.StateManager.WipeCompleted requires a snapshot. In the source, an F5 press during the wipe clears the snapshot before the callback runs. With freeze-after-load off (or for TAS), the callback's `LoadStateComplete` then calls `RestoreLevel` on a null `savedLevel`. With it on, the callback enters `Waiting` with no snapshot, and the null dereference comes later: a continue input reaches CheckButton's completion branch (StateManager.cs:452-463), whose `LoadStateComplete` calls `RestoreLevel`. Neither path is modelled: the manager's invariant ties every state other than `None` to a held snapshot.
- Hook registration (`OnLoad`/`OnUnload`, `Load`/`Unload`), `CheckButtonsAndUpdateBackdrop` and `AutoLoadStateWhenDeath` are not modelled: they are plumbing around the modelled methods.
- The `MiniTextbox` and `PopupMessageUtils` messages are not modelled. `CheckButton` reports the not-saved notice as its `NotSavedNotice` branch.
- Settings persistence (`SaveSettings`) is not modelled.
- `RoomTimerData` and `EndPoint` are not part of this model. The end points are an abstract set, and the timers' own updates (`UpdateTimerState`, `RoomTimerData.Timing`) are reported as Timing's `updateTimerState` result instead of being performed.
- Removing `ConfettiRenderer` entities in `ClearPbTimes` is not modelled.
- SaveLoad.StateManager.ClearState: the source wraps `ClearPbTimes` in a catch of `NullReferenceException` (StateManager.cs:273-278). The path where it throws, leaving the room timer as it was, is not modelled: the model's `ClearPbTimes` always succeeds.
- `Render`, `DrawTime` and the IL hook on `SpeedrunTimerDisplay.Update` are not modelled; they are drawing code. `IsShowTimer` is the value the IL hook injects.
- RoomTimer.ComparePb: it does not model 64-bit overflow of `time - pbTime` or of `Math.Abs`, nor the `int` cast of `TotalSeconds` overflowing. Differences are unbounded integers. `TotalSeconds` is a `double`, so for differences near 10^16 ticks the source's `(int)` of it can round to the next second. The model truncates exactly.
- EntitySelection.StartsWith: the source calls the one-argument `String.StartsWith`, which compares by the current culture. The model compares characters exactly. The two agree for the ASCII prefixes `Celeste.Mod.CelesteNet.` and `TAS.` except under culture rules that ignore or fold characters, which the model does not capture.
- Entities are values: two distinct objects whose fields all agree are one entity here. The `id` field tells objects apart that would otherwise be equal.
- `RoomTimerManager` is static in the source and a class instance here. `SpeedrunToolModule.Enabled` is the settings' `enabled` field.
- `StateManager` methods split a source method into helper methods (`BeginLoad`, `RestoreSnapshot`, `ReplaceLevelEntities`, `ReAddEntity` and others). They keep the source's order of effects. UpdateLists, run before the unload, is not modelled.
- The list reorderings in `GetEntitiesExcludingGlobal` and `RestoreLevelEntities` (`Remove`, `Insert(0, …)`, `Add`) work on lists the method just created and owns. They are functions on sequences, not in-place updates.
