/** The `events` enum shared by both state machines of the panel. */
module Events {

  datatype Event = ChangeLightMode | NextRoom | PreviousRoom | ResetRooms
}
