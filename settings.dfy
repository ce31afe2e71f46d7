/** The mod's settings object (`SpeedrunToolSettings`), limited to the fields the core reads or writes. */
module SpeedrunSettings {

  /** The room timer's modes, in the order of their enum values 0, 1, 2. */
  datatype RoomTimerType = Off | NextRoom | CurrentRoom

  class Settings {
    var enabled: bool
    var autoLoadAfterDeath: bool
    var freezeAfterLoadState: bool
    var roomTimerType: RoomTimerType
    var numberOfRooms: int

    constructor ()
      ensures enabled && !autoLoadAfterDeath && !freezeAfterLoadState
      ensures roomTimerType == Off && numberOfRooms == 1
    {
      enabled, autoLoadAfterDeath, freezeAfterLoadState := true, false, false;
      roomTimerType, numberOfRooms := Off, 1;
    }
  }
}
