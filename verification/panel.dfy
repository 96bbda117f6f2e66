/**
 * The controller's whole state and the five button handlers. Each button
 * press is one atomic step from one state to the next; its hardware
 * side effects are returned alongside as a list of outputs.
 */
module Panel {
  import opened Fsm
  import opened Events
  import opened LightingModes
  import opened Rooms
  import opened Brightness

  /** The five buttons, one per interrupt handler `handleButtonOne` .. `handleButtonFive`. */
  datatype Button = One | Two | Three | Four | Five

  /** Everything the handlers read and write. */
  datatype PanelState = PanelState(
    mode: Mode,                  // state of the `modes` machine
    roomState: RoomState,        // state of the `rooms` machine
    currentRoom: int,            // selection cursor, a `Rooms` enum value
    brightness: int,             // global brightness
    roomBrightness: seq<int>     // per-room stored brightness, indexed by enum value
  )

  /** A hardware output: the panel LED colour, or one PWM channel's level. */
  datatype Output = Indicator(color: Rgb) | Pwm(channel: int, level: int)

  /** The state after one handler, and the outputs it wrote in order. */
  datatype Reaction = Reaction(panel: PanelState, outputs: seq<Output>)

  /** Shape the handlers rely on: the table has one entry per room and the cursor indexes it. */
  predicate WellFormed(p: PanelState) {
    |p.roomBrightness| == LastRoom && 0 <= p.currentRoom < LastRoom
  }

  /**
   * What every reachable state satisfies: the cursor is the value the current
   * room state's entry handler assigned, the brightness is a level and every
   * table entry is a scaled level.
   */
  predicate Inv(p: PanelState) {
    && WellFormed(p)
    && p.currentRoom == EntryValue(p.roomState)
    && IsLevel(p.brightness)
    && forall i :: 0 <= i < |p.roomBrightness| ==> IsStoredLevel(p.roomBrightness[i])
  }

  /** The state right after `setup()`: both machines in their initial states, every room at 90 * 180. */
  function Initial(): (p: PanelState)
    ensures Inv(p)
    ensures p.mode == Off && p.roomState == AllRoomsState && p.currentRoom == RoomValue(AllRooms)
    ensures p.brightness == DefaultBrightness
    ensures forall i :: 0 <= i < |p.roomBrightness| ==> p.roomBrightness[i] == DefaultBrightness * Scale
  {
    PanelState(InitialMode, InitialRoomState, RoomValue(AllRooms), DefaultBrightness,
          seq(LastRoom, _ => DefaultBrightness * Scale))
  }

  /** `setup()` as code: the globals' initial values, then the table loop. */
  method Setup() returns (p: PanelState)
    ensures p == Initial()
  {
    var table := InitRoomBrightness(LastRoom, DefaultBrightness);
    p := PanelState(InitialMode, InitialRoomState, RoomValue(AllRooms), DefaultBrightness, table);
  }

  /**
   * `rooms.trigger(e)`: when an edge fires, the machine moves and the target
   * state's entry handler sets the cursor; otherwise nothing happens.
   */
  function TriggerRooms(p: PanelState, e: Event): (r: PanelState)
    ensures r.mode == p.mode && r.brightness == p.brightness && r.roomBrightness == p.roomBrightness
    ensures r.roomState == Rooms.Step(p.roomState, e)
    ensures Registered(RoomTable, p.roomState, e) ==> r.currentRoom == EntryValue(r.roomState)
    ensures !Registered(RoomTable, p.roomState, e) ==> r == p
  {
    TriggerSpec(RoomTable, p.roomState, e);
    match Trigger(RoomTable, p.roomState, e)
    case Moved(t) => p.(roomState := t, currentRoom := RoomValue(EnteredRoom(t)))
    case Ignored => p
  }

  /**
   * `modes.trigger(e)`: only the mode changes, since the mode entry handlers
   * only print a label. The mode event advances it one step round the cycle;
   * any other event is ignored.
   */
  function TriggerModes(p: PanelState, e: Event): (r: PanelState)
    ensures r.roomState == p.roomState && r.currentRoom == p.currentRoom
    ensures r.brightness == p.brightness && r.roomBrightness == p.roomBrightness
    ensures e == ChangeLightMode ==> r.mode == LightingModes.CycleNext(p.mode)
    ensures e != ChangeLightMode ==> r == p
  {
    AdvanceIsCycleNext(p.mode);
    TriggerSpec(ModeTable, p.mode, e);
    p.(mode := Fire(ModeTable, p.mode, e))
  }

  /**
   * Buttons two and four: set the brightness to `b`, show it on the panel
   * LED, store `b * 180` for the current room and push it to the room's channel.
   */
  function Adjust(p: PanelState, b: int): (r: Reaction)
    requires WellFormed(p)
    ensures r.panel.mode == p.mode && r.panel.roomState == p.roomState && r.panel.currentRoom == p.currentRoom
    ensures r.panel.brightness == b
    ensures |r.panel.roomBrightness| == |p.roomBrightness|
    ensures r.panel.roomBrightness[p.currentRoom] == b * Scale
    ensures forall i :: 0 <= i < |p.roomBrightness| && i != p.currentRoom ==> r.panel.roomBrightness[i] == p.roomBrightness[i]
    ensures r.outputs == [Indicator(SetRGBColor(0, 0, b)), Pwm(PwmChannel(p.currentRoom), r.panel.roomBrightness[p.currentRoom])]
  {
    var table := SetRoomBrightness(p.roomBrightness, p.currentRoom, b * Scale);
    Reaction(p.(brightness := b, roomBrightness := table),
             [Indicator(SetRGBColor(0, 0, b)), Pwm(PwmChannel(p.currentRoom), table[p.currentRoom])])
  }

  /** Button one: `RESET_ROOMS` on the room machine, then `CHANGE_LIGHT_MODE` on the mode machine. */
  function ResetAndAdvance(p: PanelState): (r: PanelState)
    requires WellFormed(p)
    ensures WellFormed(r)
    ensures r.brightness == p.brightness && r.roomBrightness == p.roomBrightness
    ensures r.roomState == AllRoomsState
    ensures p.roomState != AllRoomsState ==> r.currentRoom == RoomValue(AllRooms)
    ensures p.roomState == AllRoomsState ==> r.currentRoom == p.currentRoom
    ensures r.mode == LightingModes.CycleNext(p.mode)
  {
    ResetRoomsGoesHome(p.roomState);
    ResetEdgesRegistered(p.roomState);
    TriggerModes(TriggerRooms(p, ResetRooms), ChangeLightMode)
  }

  /** Buttons three and five: one room event, and nothing else. */
  function MoveRoom(p: PanelState, e: Event): (r: PanelState)
    requires WellFormed(p) && e in {NextRoom, PreviousRoom}
    ensures WellFormed(r)
    ensures r.mode == p.mode && r.brightness == p.brightness && r.roomBrightness == p.roomBrightness
    ensures r.currentRoom == EntryValue(r.roomState)
    ensures e == NextRoom ==> r.roomState == Rooms.CycleNext(p.roomState)
    ensures e == PreviousRoom ==> r.roomState == CyclePrevious(p.roomState)
  {
    NextRoomFollowsCycle(p.roomState);
    PreviousRoomFollowsCycle(p.roomState);
    TriggerRooms(p, e)
  }

  /** One button press. */
  function Press(p: PanelState, button: Button): (r: Reaction)
    requires WellFormed(p)
    ensures WellFormed(r.panel)
    // the room buttons and the reset button touch neither the brightness nor the table
    ensures button == One || button == Three || button == Five ==>
              r.outputs == [] && r.panel.brightness == p.brightness && r.panel.roomBrightness == p.roomBrightness
    // only button one touches the mode, and it advances it one step round the cycle
    ensures button == One ==> r.panel.mode == LightingModes.CycleNext(p.mode)
    ensures button != One ==> r.panel.mode == p.mode
    ensures button == One ==> r.panel.roomState == AllRoomsState
    // the reset runs the all-rooms entry handler only when it fires
    ensures button == One && p.roomState != AllRoomsState ==> r.panel.currentRoom == RoomValue(AllRooms)
    ensures button == One && p.roomState == AllRoomsState ==> r.panel.currentRoom == p.currentRoom
    ensures button == Three ==> r.panel.roomState == CyclePrevious(p.roomState)
    ensures button == Five ==> r.panel.roomState == Rooms.CycleNext(p.roomState)
    ensures button == Three || button == Five ==> r.panel.currentRoom == EntryValue(r.panel.roomState)
    // the brightness buttons keep the room selection and adjust with saturation
    ensures button == Two || button == Four ==> r.panel.roomState == p.roomState && r.panel.currentRoom == p.currentRoom
    ensures button == Two ==> r.panel.brightness == Increase(p.brightness)
    ensures button == Four ==> r.panel.brightness == Decrease(p.brightness)
    ensures button == Two || button == Four ==> r.panel.roomBrightness[p.currentRoom] == r.panel.brightness * Scale
    ensures button == Two || button == Four ==>
              forall i :: 0 <= i < LastRoom && i != p.currentRoom ==> r.panel.roomBrightness[i] == p.roomBrightness[i]
  {
    match button
    case One => Reaction(ResetAndAdvance(p), [])
    case Two => Adjust(p, Increase(p.brightness))
    case Three => Reaction(MoveRoom(p, PreviousRoom), [])
    case Four => Adjust(p, Decrease(p.brightness))
    case Five => Reaction(MoveRoom(p, NextRoom), [])
  }

  /** What `loop()` writes to the panel LED. */
  function LoopIndicator(p: PanelState): Rgb {
    SetRGBColor(0, 0, p.brightness)
  }

  /** The state after a sequence of presses from `p`. */
  function Run(p: PanelState, presses: seq<Button>): PanelState
    requires WellFormed(p)
    decreases |presses|
  {
    if |presses| == 0 then p else Run(Press(p, presses[0]).panel, presses[1..])
  }

  /** The `n`-fold repetition of one button. */
  function Presses(button: Button, n: nat): (r: seq<Button>)
    ensures |r| == n && forall i :: 0 <= i < n ==> r[i] == button
  {
    seq(n, _ => button)
  }

  /** The room selection `s`, with the cursor its entry handler sets. */
  function Select(p: PanelState, s: RoomState): PanelState {
    p.(roomState := s, currentRoom := EntryValue(s))
  }

  /** Every button keeps the invariant. */
  lemma PressPreservesInv(p: PanelState, button: Button)
    requires Inv(p)
    ensures Inv(Press(p, button).panel)
  {
    var q := Press(p, button).panel;
    match button
    case One =>
      ResetRoomsGoesHome(p.roomState);
    case Two =>
      AdjustPreservesLevel(p.brightness);
      ScaledLevelIsStored(q.brightness);
    case Three =>
      PreviousRoomFollowsCycle(p.roomState);
    case Four =>
      AdjustPreservesLevel(p.brightness);
      ScaledLevelIsStored(q.brightness);
    case Five =>
      NextRoomFollowsCycle(p.roomState);
  }

  /** Every state reachable from `setup()` by button presses satisfies the invariant. */
  lemma {:induction false} RunPreservesInv(p: PanelState, presses: seq<Button>)
    requires Inv(p)
    ensures Inv(Run(p, presses))
    decreases |presses|
  {
    if |presses| > 0 {
      PressPreservesInv(p, presses[0]);
      RunPreservesInv(Press(p, presses[0]).panel, presses[1..]);
    }
  }

  /**
   * In every reachable state the brightness, its adjusted values, its scaled
   * value and every table entry fit in a 16-bit `int`, and the table only
   * holds multiples of 5400 between 0 and 32400.
   */
  lemma ReachableValuesFitInt16(presses: seq<Button>)
    ensures var p := Run(Initial(), presses);
      && FitsInt16(p.brightness + BrightnessStep) && FitsInt16(p.brightness - BrightnessStep)
      && FitsInt16(p.brightness * Scale)
      && forall i :: 0 <= i < |p.roomBrightness| ==> IsStoredLevel(p.roomBrightness[i]) && FitsInt16(p.roomBrightness[i])
  {
    var p := Run(Initial(), presses);
    RunPreservesInv(Initial(), presses);
    ScaledLevelIsStored(p.brightness);
    forall i | 0 <= i < |p.roomBrightness|
      ensures FitsInt16(p.roomBrightness[i])
    {
      StoredLevelIsScaledLevel(p.roomBrightness[i]);
    }
  }

  /** With the invariant, button one always lands on all rooms with the cursor at `ALL_ROOMS`, whatever the room was. */
  lemma ButtonOneResetsAndAdvances(p: PanelState)
    requires Inv(p)
    ensures Press(p, One).panel == Select(p, AllRoomsState).(mode := LightingModes.CycleNext(p.mode))
    ensures Press(p, One).panel.currentRoom == RoomValue(AllRooms)
  {
    ResetRoomsGoesHome(p.roomState);
    AdvanceIsCycleNext(p.mode);
  }

  /** Button one twice in a row: the room stays at all rooms and the mode moves two steps. */
  lemma ButtonOneTwice(p: PanelState)
    requires Inv(p)
    ensures var q := Press(Press(p, One).panel, One).panel;
      q.roomState == AllRoomsState && q.mode == LightingModes.CycleNext(LightingModes.CycleNext(p.mode))
  {
    PressPreservesInv(p, One);
    ButtonOneResetsAndAdvances(p);
    ButtonOneResetsAndAdvances(Press(p, One).panel);
  }

  /** With the invariant, buttons five and three select the next and previous room on the cycle. */
  lemma RoomButtonsSelect(p: PanelState)
    requires Inv(p)
    ensures Press(p, Five).panel == Select(p, Rooms.CycleNext(p.roomState))
    ensures Press(p, Three).panel == Select(p, CyclePrevious(p.roomState))
  {
    NextRoomFollowsCycle(p.roomState);
    PreviousRoomFollowsCycle(p.roomState);
  }

  /** Button three undoes button five and button five undoes button three, cursor included. */
  lemma RoomButtonsInverse(p: PanelState)
    requires Inv(p)
    ensures Press(Press(p, Five).panel, Three).panel == p
    ensures Press(Press(p, Three).panel, Five).panel == p
  {
    RoomButtonsSelect(p);
    PressPreservesInv(p, Five);
    PressPreservesInv(p, Three);
    RoomButtonsSelect(Press(p, Five).panel);
    RoomButtonsSelect(Press(p, Three).panel);
    CycleNextPreviousInverse(p.roomState);
  }

  /** `n` presses of button five walk the room selection `n` steps forward and change nothing else. */
  lemma {:induction false} NextRoomPresses(p: PanelState, n: nat)
    requires Inv(p)
    ensures Run(p, Presses(Five, n)) == Select(p, Iterate(Rooms.CycleNext, p.roomState, n))
    decreases n
  {
    if n > 0 {
      RoomButtonsSelect(p);
      var q := Press(p, Five).panel;
      PressPreservesInv(p, Five);
      assert Presses(Five, n)[1..] == Presses(Five, n - 1);
      NextRoomPresses(q, n - 1);
    }
  }

  /** Seven presses of button five bring the panel back to exactly where it was. */
  lemma SevenNextRoomPressesReturn(p: PanelState)
    requires Inv(p)
    ensures Run(p, Presses(Five, LastRoom)) == p
  {
    NextRoomPresses(p, LastRoom);
    Rooms.WalkFullTurn(p.roomState);
  }

  /** A run of presses is its first press followed by the rest of the run. */
  lemma RunFirst(p: PanelState, button: Button, rest: seq<Button>)
    requires WellFormed(p)
    ensures Run(p, [button] + rest) == Run(Press(p, button).panel, rest)
  {
    assert ([button] + rest)[1..] == rest;
  }

  /**
   * From all rooms, two presses of button five select the living room (enum
   * value 1), and button two then raises only its entry, to the increased
   * brightness times 180; every other entry keeps its value.
   */
  lemma NextNextIncrease(p: PanelState)
    requires Inv(p) && p.roomState == AllRoomsState
    ensures var q := Run(p, [Five, Five, Two]);
      && q.currentRoom == RoomValue(LivingRoom)
      && q.brightness == Increase(p.brightness)
      && q.roomBrightness[RoomValue(LivingRoom)] == Increase(p.brightness) * Scale
      && q.roomBrightness[RoomValue(Hall)] == p.roomBrightness[RoomValue(Hall)]
      && q.roomBrightness[RoomValue(AllRooms)] == p.roomBrightness[RoomValue(AllRooms)]
      && forall i :: 0 <= i < LastRoom && i != RoomValue(LivingRoom) ==> q.roomBrightness[i] == p.roomBrightness[i]
  {
    var p1 := Press(p, Five).panel;
    var p2 := Press(p1, Five).panel;
    assert p2.roomState == LivingRoomState && p2.currentRoom == RoomValue(LivingRoom) by {
      RoomButtonsSelect(p);
      PressPreservesInv(p, Five);
      RoomButtonsSelect(p1);
    }
    assert Run(p, [Five, Five, Two]) == Press(p2, Two).panel by {
      RunFirst(p, Five, [Five, Two]);
      RunFirst(p1, Five, [Two]);
      RunFirst(p2, Two, []);
    }
  }

  /** From power-up, next, next, increase raises the living room's entry by 30 * 180 and leaves every other entry at 90 * 180. */
  lemma NextNextIncreaseScenario()
    ensures var q := Run(Initial(), [Five, Five, Two]);
      && q.roomBrightness[RoomValue(LivingRoom)] == DefaultBrightness * Scale + BrightnessStep * Scale
      && q.roomBrightness[RoomValue(Hall)] == DefaultBrightness * Scale
      && q.roomBrightness[RoomValue(AllRooms)] == DefaultBrightness * Scale
      && forall i :: 0 <= i < LastRoom && i != RoomValue(LivingRoom) ==> q.roomBrightness[i] == DefaultBrightness * Scale
  {
    NextNextIncrease(Initial());
  }

  /**
   * The increase writes the shared global brightness, not the room's own value
   * plus a step: from power-up, next, decrease, decrease, next leaves the
   * living room selected with its entry at 90 * 180 but the global brightness
   * at 30, and button two then stores 60 * 180, lowering that entry.
   */
  lemma IncreaseCanLowerEntry()
    ensures var p := Run(Initial(), [Five, Four, Four, Five]);
      var q := Press(p, Two).panel;
      && p.currentRoom == RoomValue(LivingRoom) && p.brightness == 30
      && p.roomBrightness[RoomValue(LivingRoom)] == DefaultBrightness * Scale
      && q.roomBrightness[RoomValue(LivingRoom)] == 60 * Scale
      && q.roomBrightness[RoomValue(LivingRoom)] < p.roomBrightness[RoomValue(LivingRoom)]
  {
    var p0 := Initial();
    var p1 := Press(p0, Five).panel;
    assert p1.roomState == HallState && p1.currentRoom == RoomValue(Hall) by {
      RoomButtonsSelect(p0);
    }
    var p2 := Press(p1, Four).panel;
    var p3 := Press(p2, Four).panel;
    assert p3.roomState == HallState && p3.brightness == 30 by {
      assert p2.brightness == 60;
    }
    assert p3.roomBrightness[RoomValue(LivingRoom)] == DefaultBrightness * Scale by {
      assert p2.roomBrightness[RoomValue(LivingRoom)] == DefaultBrightness * Scale;
    }
    var p4 := Press(p3, Five).panel;
    assert p4.roomState == LivingRoomState && p4.currentRoom == RoomValue(LivingRoom) by {
      PressPreservesInv(p0, Five);
      PressPreservesInv(p1, Four);
      PressPreservesInv(p2, Four);
      RoomButtonsSelect(p3);
    }
    assert Run(p0, [Five, Four, Four, Five]) == p4 by {
      RunFirst(p0, Five, [Four, Four, Five]);
      RunFirst(p1, Four, [Four, Five]);
      RunFirst(p2, Four, [Five]);
      RunFirst(p3, Five, []);
    }
  }

  /** With the invariant, `loop()` shows the brightness unchanged on the blue channel and nothing else. */
  lemma LoopIndicatorIsBrightness(p: PanelState)
    requires Inv(p)
    ensures LoopIndicator(p) == Rgb(0, 0, p.brightness)
  {
    IndicatorShowsLevel(p.brightness);
  }

  /** With the invariant, the brightness buttons show the new level on the LED and push the stored value to channel `currentRoom * 3`. */
  lemma AdjustOutputs(p: PanelState, button: Button)
    requires Inv(p) && button in {Two, Four}
    ensures var r := Press(p, button);
      r.outputs == [Indicator(Rgb(0, 0, r.panel.brightness)), Pwm(p.currentRoom * ChannelsPerRoom, r.panel.brightness * Scale)]
  {
    AdjustPreservesLevel(p.brightness);
    IndicatorShowsLevel(Press(p, button).panel.brightness);
  }
}
