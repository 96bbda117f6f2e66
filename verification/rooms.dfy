/**
 * The room-selection machine `rooms`: seven states, a forward and a backward
 * cycle through them, and a reset edge from every state but "all rooms".
 * Entering a state sets the selection cursor `currentRoom` to the state's
 * `Rooms` enum value, which is also its index in the brightness table.
 *
 * The enum order (ALL_ROOMS, LIVING_ROOM, HALL, ...) is not the cycle order
 * (all rooms, hall, living room, ...): table indices come from the former,
 * movement from the latter.
 */
module Rooms {
  import opened Fsm
  import opened Events
  import Cycles

  /** The `Rooms` enum, in declared order. */
  datatype Room = AllRooms | LivingRoom | Hall | Kitchen | Bedroom | Bathroom | Attic

  /** `LastROOM`: the number of rooms, and the size of the brightness table. */
  const LastRoom: nat := 7

  /** The integer value of a room in the enum, used as its table index. */
  function RoomValue(r: Room): (v: nat)
    ensures v < LastRoom
  {
    match r
    case AllRooms => 0
    case LivingRoom => 1
    case Hall => 2
    case Kitchen => 3
    case Bedroom => 4
    case Bathroom => 5
    case Attic => 6
  }

  /** The states of the `rooms` machine, one per room. */
  datatype RoomState =
    | AllRoomsState | HallState | LivingRoomState | KitchenState
    | BedroomState | BathroomState | AtticState

  /** `Fsm rooms(&state_all_rooms)`. */
  const InitialRoomState: RoomState := AllRoomsState

  /** The room each state's entry handler assigns to `currentRoom`. */
  function EnteredRoom(s: RoomState): Room {
    match s
    case AllRoomsState => AllRooms
    case HallState => Hall
    case LivingRoomState => LivingRoom
    case KitchenState => Kitchen
    case BedroomState => Bedroom
    case BathroomState => Bathroom
    case AtticState => Attic
  }

  /** The state that selects a given room; the inverse of `EnteredRoom`. */
  function StateFor(r: Room): RoomState {
    match r
    case AllRooms => AllRoomsState
    case LivingRoom => LivingRoomState
    case Hall => HallState
    case Kitchen => KitchenState
    case Bedroom => BedroomState
    case Bathroom => BathroomState
    case Attic => AtticState
  }

  /** The value `currentRoom` holds after the entry handler of `s` ran. */
  function EntryValue(s: RoomState): (v: nat)
    ensures v < LastRoom
  {
    RoomValue(EnteredRoom(s))
  }

  /** The twenty `rooms.add_transition` calls, in registration order. */
  const RoomTable: seq<Transition<RoomState, Event>> := [
    // forward
    Transition(AllRoomsState, HallState, NextRoom),
    Transition(HallState, LivingRoomState, NextRoom),
    Transition(LivingRoomState, KitchenState, NextRoom),
    Transition(KitchenState, BedroomState, NextRoom),
    Transition(BedroomState, BathroomState, NextRoom),
    Transition(BathroomState, AtticState, NextRoom),
    Transition(AtticState, AllRoomsState, NextRoom),
    // backward
    Transition(AllRoomsState, AtticState, PreviousRoom),
    Transition(AtticState, BathroomState, PreviousRoom),
    Transition(BathroomState, BedroomState, PreviousRoom),
    Transition(BedroomState, KitchenState, PreviousRoom),
    Transition(KitchenState, LivingRoomState, PreviousRoom),
    Transition(LivingRoomState, HallState, PreviousRoom),
    Transition(HallState, AllRoomsState, PreviousRoom),
    // reset to all rooms
    Transition(HallState, AllRoomsState, ResetRooms),
    Transition(LivingRoomState, AllRoomsState, ResetRooms),
    Transition(KitchenState, AllRoomsState, ResetRooms),
    Transition(BedroomState, AllRoomsState, ResetRooms),
    Transition(BathroomState, AllRoomsState, ResetRooms),
    Transition(AtticState, AllRoomsState, ResetRooms)
  ]

  /** Position of a state on the forward cycle, counted from all rooms. */
  function CyclePos(s: RoomState): (k: nat)
    ensures k < LastRoom
  {
    match s
    case AllRoomsState => 0
    case HallState => 1
    case LivingRoomState => 2
    case KitchenState => 3
    case BedroomState => 4
    case BathroomState => 5
    case AtticState => 6
  }

  /** The state at position `k` of the forward cycle; the inverse of `CyclePos`. */
  function StateAt(k: nat): (s: RoomState)
    requires k < LastRoom
    ensures CyclePos(s) == k
  {
    if k == 0 then AllRoomsState
    else if k == 1 then HallState
    else if k == 2 then LivingRoomState
    else if k == 3 then KitchenState
    else if k == 4 then BedroomState
    else if k == 5 then BathroomState
    else AtticState
  }

  /** Reference cycle: one position forward, wrapping after the attic. */
  function CycleNext(s: RoomState): RoomState {
    var k := CyclePos(s);
    StateAt(if k == LastRoom - 1 then 0 else k + 1)
  }

  /** Reference cycle: one position backward, wrapping before all rooms. */
  function CyclePrevious(s: RoomState): RoomState {
    var k := CyclePos(s);
    StateAt(if k == 0 then LastRoom - 1 else k - 1)
  }

  /** The machine's state after `e` is triggered on it. */
  function Step(s: RoomState, e: Event): RoomState {
    Fire(RoomTable, s, e)
  }

  lemma CyclePosInjective(a: RoomState, b: RoomState)
    ensures CyclePos(a) == CyclePos(b) <==> a == b
  {
  }

  /** The entry handlers give the seven states seven different cursor values, and each value is some state's. */
  lemma EntryValueBijective(a: RoomState, b: RoomState, r: Room)
    ensures EntryValue(a) == EntryValue(b) <==> a == b
    ensures EnteredRoom(StateFor(r)) == r
    ensures StateFor(EnteredRoom(a)) == a
  {
  }

  /** Where each event should lead from each state, by the reference cycle. */
  function ReferenceTarget(s: RoomState, e: Event): RoomState {
    match e
    case NextRoom => CycleNext(s)
    case PreviousRoom => CyclePrevious(s)
    case ResetRooms => AllRoomsState
    case ChangeLightMode => s
  }

  /** Every registered edge leads where the reference cycle says. */
  lemma RoomTableAgreesWithCycle()
    ensures AgreesWith(RoomTable, ReferenceTarget)
  {
  }

  /** No (state, event) pair is registered with two targets, so registration order does not matter. */
  lemma RoomTableDeterministic()
    ensures Deterministic(RoomTable)
  {
    RoomTableAgreesWithCycle();
    AgreementGivesDeterminism(RoomTable, ReferenceTarget);
  }

  /** The reference cycle's two directions undo each other. */
  lemma CycleNextPreviousInverse(s: RoomState)
    ensures CyclePrevious(CycleNext(s)) == s
    ensures CycleNext(CyclePrevious(s)) == s
  {
  }

  /** Moving one step forward on the cycle adds one to the position, modulo seven. */
  lemma CycleNextPos(s: RoomState)
    ensures CyclePos(CycleNext(s)) == (CyclePos(s) + 1) % 7
    ensures CyclePos(CyclePrevious(s)) == (CyclePos(s) + 6) % 7
  {
    Cycles.WrapIsMod(CyclePos(s), 7);
  }

  /** The forward edge out of every state is registered, and it leads to the cycle successor. */
  lemma NextEdgeRegistered(s: RoomState)
    ensures Transition(s, CycleNext(s), NextRoom) in RoomTable
  {
  }

  /** The backward edge out of every state is registered, and it leads to the cycle predecessor. */
  lemma PreviousEdgeRegistered(s: RoomState)
    ensures Transition(s, CyclePrevious(s), PreviousRoom) in RoomTable
  {
  }

  /** Every state but all rooms has a reset edge into all rooms; all rooms has none. */
  lemma ResetEdgesRegistered(s: RoomState)
    ensures s != AllRoomsState ==> Transition(s, AllRoomsState, ResetRooms) in RoomTable
    ensures !Registered(RoomTable, AllRoomsState, ResetRooms)
  {
  }

  /** No edge of the room machine is labelled with the mode event. */
  lemma NoModeEdges(s: RoomState)
    ensures !Registered(RoomTable, s, ChangeLightMode)
  {
  }

  /** `NEXT_ROOM` is registered in every state and moves one position forward on the cycle. */
  lemma NextRoomFollowsCycle(s: RoomState)
    ensures Trigger(RoomTable, s, NextRoom) == Moved(CycleNext(s))
  {
    RoomTableDeterministic();
    NextEdgeRegistered(s);
    TriggerFiresRegisteredEdge(RoomTable, s, CycleNext(s), NextRoom);
  }

  /** `PREVIOUS_ROOM` is registered in every state and moves one position backward on the cycle. */
  lemma PreviousRoomFollowsCycle(s: RoomState)
    ensures Trigger(RoomTable, s, PreviousRoom) == Moved(CyclePrevious(s))
  {
    RoomTableDeterministic();
    PreviousEdgeRegistered(s);
    TriggerFiresRegisteredEdge(RoomTable, s, CyclePrevious(s), PreviousRoom);
  }

  /**
   * `RESET_ROOMS` moves every state other than all rooms straight to all
   * rooms; in all rooms no edge is registered and the event is ignored.
   */
  lemma ResetRoomsGoesHome(s: RoomState)
    ensures s != AllRoomsState ==> Trigger(RoomTable, s, ResetRooms) == Moved(AllRoomsState)
    ensures s == AllRoomsState <==> Trigger(RoomTable, s, ResetRooms) == Ignored
    ensures Step(s, ResetRooms) == AllRoomsState
  {
    ResetEdgesRegistered(s);
    TriggerSpec(RoomTable, s, ResetRooms);
    if s != AllRoomsState {
      RoomTableDeterministic();
      TriggerFiresRegisteredEdge(RoomTable, s, AllRoomsState, ResetRooms);
    }
  }

  /** Resetting twice is resetting once. */
  lemma ResetIdempotent(s: RoomState)
    ensures Step(Step(s, ResetRooms), ResetRooms) == Step(s, ResetRooms)
  {
    ResetRoomsGoesHome(s);
    ResetRoomsGoesHome(AllRoomsState);
  }

  /** The mode event has no edge in the room machine, so triggering it there changes nothing. */
  lemma ChangeLightModeIgnored(s: RoomState)
    ensures Trigger(RoomTable, s, ChangeLightMode) == Ignored
  {
    NoModeEdges(s);
    TriggerSpec(RoomTable, s, ChangeLightMode);
  }

  /** `NEXT_ROOM` and `PREVIOUS_ROOM` undo each other from every state. */
  lemma NextPreviousInverse(s: RoomState)
    ensures Step(Step(s, NextRoom), PreviousRoom) == s
    ensures Step(Step(s, PreviousRoom), NextRoom) == s
  {
    NextRoomFollowsCycle(s);
    PreviousRoomFollowsCycle(CycleNext(s));
    PreviousRoomFollowsCycle(s);
    NextRoomFollowsCycle(CyclePrevious(s));
    CycleNextPreviousInverse(s);
  }

  /** Walking the reference cycle `n` positions forward adds `n` to the position, modulo seven. */
  lemma {:induction false} WalkForwardPos(s: RoomState, n: nat)
    ensures CyclePos(Iterate(CycleNext, s, n)) == (CyclePos(s) + n) % 7
    decreases n
  {
    if n > 0 {
      WalkForwardPos(CycleNext(s), n - 1);
      CycleNextPos(s);
      Cycles.ModAddShift(CyclePos(s) + 1, n - 1, 7);
    }
  }

  /** Walking the reference cycle `n` positions backward adds `6 * n` to the position, modulo seven. */
  lemma {:induction false} WalkBackwardPos(s: RoomState, n: nat)
    ensures CyclePos(Iterate(CyclePrevious, s, n)) == (CyclePos(s) + 6 * n) % 7
    decreases n
  {
    if n > 0 {
      WalkBackwardPos(CyclePrevious(s), n - 1);
      CycleNextPos(s);
      Cycles.ModAddShift(CyclePos(s) + 6, 6 * (n - 1), 7);
    }
  }

  /** `n` `NEXT_ROOM` events walk the reference cycle `n` positions forward, and `n` `PREVIOUS_ROOM` events walk it backward. */
  lemma RoomEventsRepeatedly(s: RoomState, n: nat)
    ensures Repeat(RoomTable, s, NextRoom, n) == Iterate(CycleNext, s, n)
    ensures Repeat(RoomTable, s, PreviousRoom, n) == Iterate(CyclePrevious, s, n)
  {
    forall x: RoomState
      ensures Fire(RoomTable, x, NextRoom) == CycleNext(x)
      ensures Fire(RoomTable, x, PreviousRoom) == CyclePrevious(x)
    {
      NextRoomFollowsCycle(x);
      PreviousRoomFollowsCycle(x);
    }
    RepeatFollowsReference(RoomTable, NextRoom, CycleNext, s, n);
    RepeatFollowsReference(RoomTable, PreviousRoom, CyclePrevious, s, n);
  }

  /** Seven positions in either direction around the reference cycle lead back to the start. */
  lemma WalkFullTurn(s: RoomState)
    ensures Iterate(CycleNext, s, LastRoom) == s
    ensures Iterate(CyclePrevious, s, LastRoom) == s
  {
    WalkForwardPos(s, LastRoom);
    WalkBackwardPos(s, LastRoom);
    CyclePosInjective(Iterate(CycleNext, s, LastRoom), s);
    CyclePosInjective(Iterate(CyclePrevious, s, LastRoom), s);
  }

  /** Seven forward moves, or seven backward moves, make one full turn. */
  lemma RoomFullCycle(s: RoomState)
    ensures Repeat(RoomTable, s, NextRoom, LastRoom) == s
    ensures Repeat(RoomTable, s, PreviousRoom, LastRoom) == s
  {
    RoomEventsRepeatedly(s, LastRoom);
    WalkFullTurn(s);
  }

  /** Any multiple of seven moves in one direction returns to the starting state. */
  lemma SevenMovesReturn(s: RoomState, k: nat)
    ensures Repeat(RoomTable, s, NextRoom, LastRoom * k) == s
    ensures Repeat(RoomTable, s, PreviousRoom, LastRoom * k) == s
  {
    RoomFullCycle(s);
    RepeatPeriodic(RoomTable, s, NextRoom, LastRoom, k);
    RepeatPeriodic(RoomTable, s, PreviousRoom, LastRoom, k);
  }

  /** Fewer than seven positions forward around the reference cycle never lead back to the start. */
  lemma WalkNeverReturnsEarly(s: RoomState, n: nat)
    requires 0 < n < LastRoom
    ensures Iterate(CycleNext, s, n) != s
  {
    WalkForwardPos(s, n);
    CyclePosInjective(Iterate(CycleNext, s, n), s);
  }

  /** Fewer than seven forward moves never come back: the cycle visits all seven states. */
  lemma NextRoomVisitsEveryState(s: RoomState, n: nat)
    requires 0 < n < LastRoom
    ensures Repeat(RoomTable, s, NextRoom, n) != s
  {
    RoomEventsRepeatedly(s, n);
    WalkNeverReturnsEarly(s, n);
  }

  /**
   * The cycle order is not the enum order: the first move forward from all
   * rooms selects the hall, whose cursor value is 2, and the second selects
   * the living room, whose cursor value is 1.
   */
  lemma CycleOrderIsNotEnumOrder()
    ensures Step(InitialRoomState, NextRoom) == HallState && EntryValue(HallState) == 2
    ensures Step(HallState, NextRoom) == LivingRoomState && EntryValue(LivingRoomState) == 1
  {
    NextRoomFollowsCycle(AllRoomsState);
    NextRoomFollowsCycle(HallState);
  }
}
