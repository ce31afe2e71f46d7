/**
 * The room timer's bookkeeping (RoomTimerManager): the personal-best
 * comparison text, the mode hotkey, the timed-rooms counter and the
 * room-change detection of each frame.
 */
module RoomTimer {
  import opened Options
  import opened Engine
  import opened SpeedrunSettings
  import opened TimeFormat

  /** `TimeSpan` ticks are 100 ns. */
  const TicksPerSecond: nat := 10_000_000
  const TicksPerMillisecond: nat := 10_000

  /** `Enum.GetNames(typeof(RoomTimerType)).Length`. */
  const RoomTimerTypeCount: nat := 3

  const MaxNumberOfRooms: int := 99
  const MinNumberOfRooms: int := 1

  function Abs(x: int): nat {
    if x < 0 then -x else x
  }

  /**
   * The text shown beside a finished room time: empty when there is no
   * personal best, `+0.0` on a tie, otherwise the sign of `time - pbTime`,
   * its whole seconds, a point and its milliseconds in three digits, both
   * truncated.
   */
  function ComparePb(time: int, pbTime: int): (r: string)
    ensures pbTime == 0 ==> r == ""
    ensures pbTime != 0 && time == pbTime ==> r == "+0.0"
    ensures pbTime != 0 ==> |r| >= 4 && (r[0] == '+' <==> time - pbTime >= 0) && (r[0] == '-' <==> time - pbTime < 0)
    ensures pbTime != 0 && time != pbTime ==>
      var ticks := Abs(time - pbTime);
      && |r| >= 6
      && r[|r| - 4] == '.'
      && AllDigits(r[1..|r| - 4]) && AllDigits(r[|r| - 3..])
      && (|r| - 4 > 2 ==> r[1] != '0')
      && ParseDigits(r[1..|r| - 4]) == ticks / TicksPerSecond
      && ParseDigits(r[|r| - 3..]) == ticks / TicksPerMillisecond % 1000
  {
    if pbTime == 0 then ""
    else
      var difference := time - pbTime;
      if difference == 0 then "+0.0"
      else
        var ticks := Abs(difference);
        var seconds := NatToString(ticks / TicksPerSecond);
        var millis := Pad3(ticks / TicksPerMillisecond % 1000);
        var fraction := "." + millis;
        var r := (if difference >= 0 then "+" else "-") + seconds + fraction;
        assert r[1..] == seconds + fraction;
        assert r[1..|r| - 4] == (seconds + fraction)[..|seconds|] == seconds;
        assert r[|r| - 3..] == fraction[1..] == millis;
        ParseNatToString(ticks / TicksPerSecond);
        r
  }

  /** Whole seconds of a tick count are its whole milliseconds divided by 1000. */
  lemma SecondsOfMilliseconds(ticks: nat)
    ensures ticks / TicksPerSecond == ticks / TicksPerMillisecond / 1000
  {
    var ms := ticks / TicksPerMillisecond;
    assert TicksPerMillisecond * ms <= ticks < TicksPerMillisecond * ms + TicksPerMillisecond;
    assert 1000 * (ms / 1000) <= ms < 1000 * (ms / 1000) + 1000;
    assert TicksPerSecond * (ms / 1000) <= ticks < TicksPerSecond * (ms / 1000) + TicksPerSecond;
  }

  /** The whole-second and millisecond parts together are the difference's truncated milliseconds. */
  lemma ComparePbMilliseconds(time: int, pbTime: int)
    requires pbTime != 0 && time != pbTime
    ensures var r := ComparePb(time, pbTime);
      1000 * ParseDigits(r[1..|r| - 4]) + ParseDigits(r[|r| - 3..]) == Abs(time - pbTime) / TicksPerMillisecond
  {
    SecondsOfMilliseconds(Abs(time - pbTime));
  }

  /**
   * Two comparisons against the same best read the same exactly when the
   * differences agree in sign and in truncated milliseconds.
   */
  lemma ComparePbDistinguishes(time1: int, time2: int, pbTime: int)
    requires pbTime != 0 && time1 != pbTime && time2 != pbTime
    ensures ComparePb(time1, pbTime) == ComparePb(time2, pbTime) <==>
      && (time1 >= pbTime <==> time2 >= pbTime)
      && Abs(time1 - pbTime) / TicksPerMillisecond == Abs(time2 - pbTime) / TicksPerMillisecond
  {
    var r1, r2 := ComparePb(time1, pbTime), ComparePb(time2, pbTime);
    ComparePbMilliseconds(time1, pbTime);
    ComparePbMilliseconds(time2, pbTime);
    if r1 == r2 {
      assert r1[0] == '+' <==> time2 - pbTime >= 0;
      assert 1000 * ParseDigits(r1[1..|r1| - 4]) + ParseDigits(r1[|r1| - 3..]) == Abs(time2 - pbTime) / TicksPerMillisecond;
    }
    if (time1 >= pbTime <==> time2 >= pbTime)
       && Abs(time1 - pbTime) / TicksPerMillisecond == Abs(time2 - pbTime) / TicksPerMillisecond
    {
      SecondsOfMilliseconds(Abs(time1 - pbTime));
      SecondsOfMilliseconds(Abs(time2 - pbTime));
      assert Abs(time1 - pbTime) / TicksPerSecond == Abs(time2 - pbTime) / TicksPerSecond;
    }
  }

  /** Negating the difference flips the sign character and nothing else. */
  lemma ComparePbNegated(pbTime: int, difference: int)
    requires pbTime != 0 && difference != 0
    ensures var plus, minus := ComparePb(pbTime + difference, pbTime), ComparePb(pbTime - difference, pbTime);
      && |plus| == |minus|
      && plus[1..] == minus[1..]
      && plus[0] != minus[0]
  {
    var plus, minus := ComparePb(pbTime + difference, pbTime), ComparePb(pbTime - difference, pbTime);
    assert Abs(pbTime + difference - pbTime) == Abs(pbTime - difference - pbTime);
    assert plus[1..] == NatToString(Abs(difference) / TicksPerSecond) + "." + Pad3(Abs(difference) / TicksPerMillisecond % 1000);
    assert minus[1..] == NatToString(Abs(difference) / TicksPerSecond) + "." + Pad3(Abs(difference) / TicksPerMillisecond % 1000);
  }

  /** The timer display shows when the game would show it, and also whenever a room timer mode is on. */
  function IsShowTimer(settings: Settings, showTimer: bool): (r: bool)
    reads settings
    ensures showTimer ==> r
    ensures !showTimer ==> (r <==> settings.roomTimerType in {NextRoom, CurrentRoom})
  {
    showTimer || settings.roomTimerType != Off
  }

  function TypeIndex(t: RoomTimerType): (i: nat)
    ensures i < RoomTimerTypeCount
  {
    match t
    case Off => 0
    case NextRoom => 1
    case CurrentRoom => 2
  }

  function TypeOfIndex(i: nat): (t: RoomTimerType)
    requires i < RoomTimerTypeCount
    ensures TypeIndex(t) == i
  {
    if i == 0 then Off else if i == 1 then NextRoom else CurrentRoom
  }

  /** The mode the switch hotkey selects: the enum's next value, wrapping around. */
  function NextRoomTimerType(t: RoomTimerType): (r: RoomTimerType)
    ensures TypeIndex(r) == (TypeIndex(t) + 1) % RoomTimerTypeCount
  {
    TypeOfIndex((TypeIndex(t) + 1) % RoomTimerTypeCount)
  }

  /** The hotkey cycles Off, NextRoom, CurrentRoom and back; three presses return to the start. */
  lemma NextRoomTimerTypeCycles(t: RoomTimerType)
    ensures NextRoomTimerType(Off) == NextRoom
    ensures NextRoomTimerType(NextRoom) == CurrentRoom
    ensures NextRoomTimerType(CurrentRoom) == Off
    ensures NextRoomTimerType(NextRoomTimerType(NextRoomTimerType(t))) == t
    ensures NextRoomTimerType(t) != t
  {
  }

  /** Whether a frame's room differs from the one remembered from the frame before. */
  function EnteringNextRoom(previousRoom: Option<string>, currentRoom: string): (r: bool)
    ensures previousRoom.Null? ==> !r
    ensures previousRoom == Some(currentRoom) ==> !r
    ensures previousRoom.Some? && previousRoom.value != currentRoom ==> r
  {
    previousRoom.Some? && previousRoom.value != currentRoom
  }

  /** Whether a hotkey sees an unpaused level (`scene is Level {Paused: false}`). */
  function IsUnpausedLevel(scene: Scene): bool
    reads LevelOf(scene)
  {
    scene.InLevel? && !scene.level.paused
  }

  /**
   * The static state of RoomTimerManager: the room seen on the previous
   * frame and the end points (kept abstract).
   */
  class RoomTimerManager {
    var previousRoom: Option<string>
    var endPoints: set<nat>

    constructor ()
      ensures previousRoom.Null? && endPoints == {}
    {
      previousRoom := Null;
      endPoints := {};
    }

    method SwitchRoomTimer(settings: Settings, roomTimerType: RoomTimerType)
      modifies settings`roomTimerType
      ensures settings.roomTimerType == roomTimerType
    {
      settings.roomTimerType := roomTimerType;
    }

    /** The switch-timer hotkey: in an unpaused level, selects the next mode. */
    method SwitchRoomTimerPressed(settings: Settings, scene: Scene)
      modifies settings`roomTimerType
      ensures settings.roomTimerType ==
        if IsUnpausedLevel(scene) then NextRoomTimerType(old(settings.roomTimerType)) else old(settings.roomTimerType)
    {
      if IsUnpausedLevel(scene) {
        SwitchRoomTimer(settings, NextRoomTimerType(settings.roomTimerType));
      }
    }

    /** The increase hotkey: one more timed room, but never above 99. */
    method IncreaseTimedRoomsPressed(settings: Settings, scene: Scene)
      modifies settings`numberOfRooms
      ensures settings.numberOfRooms ==
        if IsUnpausedLevel(scene) && old(settings.numberOfRooms) < MaxNumberOfRooms
        then old(settings.numberOfRooms) + 1 else old(settings.numberOfRooms)
      ensures MinNumberOfRooms <= old(settings.numberOfRooms) <= MaxNumberOfRooms ==>
        MinNumberOfRooms <= settings.numberOfRooms <= MaxNumberOfRooms
    {
      if IsUnpausedLevel(scene) {
        if settings.numberOfRooms < MaxNumberOfRooms {
          settings.numberOfRooms := settings.numberOfRooms + 1;
        }
      }
    }

    /** The decrease hotkey: one fewer timed room, but never below 1. */
    method DecreaseTimedRoomsPressed(settings: Settings, scene: Scene)
      modifies settings`numberOfRooms
      ensures settings.numberOfRooms ==
        if IsUnpausedLevel(scene) && old(settings.numberOfRooms) > MinNumberOfRooms
        then old(settings.numberOfRooms) - 1 else old(settings.numberOfRooms)
      ensures MinNumberOfRooms <= old(settings.numberOfRooms) <= MaxNumberOfRooms ==>
        MinNumberOfRooms <= settings.numberOfRooms <= MaxNumberOfRooms
    {
      if IsUnpausedLevel(scene) {
        if settings.numberOfRooms > MinNumberOfRooms {
          settings.numberOfRooms := settings.numberOfRooms - 1;
        }
      }
    }

    /** Forgets the previous room and, when asked, the end points. */
    method ClearPbTimes(clearEndPoint: bool)
      modifies this
      ensures previousRoom.Null?
      ensures endPoints == if clearEndPoint then {} else old(endPoints)
    {
      previousRoom := Null;
      if clearEndPoint {
        endPoints := {};
      }
    }

    /** The reset-PB hotkey: in an unpaused level or the map editor, forgets the previous room and clears the end points. */
    method ResetRoomTimerPbPressed(scene: Scene)
      modifies this
      ensures IsUnpausedLevel(scene) || scene.MapEditor? ==> previousRoom.Null? && endPoints == {}
      ensures !(IsUnpausedLevel(scene) || scene.MapEditor?) ==> unchanged(this)
    {
      if IsUnpausedLevel(scene) || scene.MapEditor? {
        ClearPbTimes(true);
      }
    }

    /** Forgets the previous room, so the next frame does not count as entering one. */
    method ResetTime()
      modifies this`previousRoom
      ensures previousRoom.Null?
    {
      previousRoom := Null;
    }

    /**
     * The per-frame hook: reports whether this frame entered another room and
     * whether the timers' state must advance (level completed, new room, or
     * an end point reached), and remembers the current room.
     */
    method Timing(level: Level, reachedEndPoint: bool) returns (enteringNextRoom: bool, updateTimerState: bool)
      modifies this`previousRoom
      ensures previousRoom == Some(level.session.room)
      ensures enteringNextRoom == EnteringNextRoom(old(previousRoom), level.session.room)
      ensures updateTimerState == (level.completed || enteringNextRoom || reachedEndPoint)
    {
      var currentRoom := level.session.room;
      enteringNextRoom := previousRoom.Some? && previousRoom.value != currentRoom;
      previousRoom := Some(currentRoom);
      updateTimerState := level.completed || enteringNextRoom || reachedEndPoint;
    }
  }

  /** After a reset, the next frame never counts as entering a room, whatever room it is in. */
  method ResetThenTiming(timer: RoomTimerManager, level: Level, clearPbTimes: bool, clearEndPoint: bool)
    returns (enteringNextRoom: bool)
    modifies timer
    ensures !enteringNextRoom
    ensures timer.previousRoom == Some(level.session.room)
  {
    if clearPbTimes {
      timer.ClearPbTimes(clearEndPoint);
    } else {
      timer.ResetTime();
    }
    var updateTimerState;
    enteringNextRoom, updateTimerState := timer.Timing(level, false);
  }
}
