# Dollhouse lighting panel — Dafny model

This project models the button-driven controller of the dollhouse lighting
panel (`src/DollhousePanel.cpp`). The controller has two cooperating
table-driven state machines and the brightness state they act on:

- the **lighting-mode machine** `modes`: Off → Lighting → Party → Nitelite → Off,
  advanced by `CHANGE_LIGHT_MODE`;
- the **room-selection machine** `rooms`: seven states, a forward and a
  backward cycle (`NEXT_ROOM`, `PREVIOUS_ROOM`), and `RESET_ROOMS` back to
  "all rooms" from every other state. Entering a state sets the cursor
  `currentRoom` to that room's `Rooms` enum value;
- the **brightness store**: the global `brightness` (starts at 90, moves by
  ±30 and saturates in [0, 180]) and the table `roomBrightness`, which holds
  `brightness * 180` per room;
- the **five button handlers**. Each one is modelled as one atomic step over
  the whole state, and it returns the hardware outputs it writes.

Modules:

- `Fsm` (`fsm.dfy`): a generic transition table. `Trigger` fires the first
  registered edge for the (state, event) pair, or ignores the event.
- `Events` (`events.dfy`): the `events` enum.
- `Cycles` (`cycles.dfy`): positions on a cycle of n states, counted modulo n. Both reference cycles use it.
- `LightingModes` (`lighting_modes.dfy`): the mode table and its cycle.
- `Rooms` (`rooms.dfy`): the `Rooms` enum, the room states, the 20-edge
  table, the entry handlers and the reference cycle.
- `Brightness` (`brightness.dfy`): the level arithmetic, the table write,
  `constrain`/`setRGBColor`, and the initialisation loop in `setup()`.
- `Panel` (`panel.dfy`): the state record, the handlers, the invariant of
  reachable states, and the end-to-end lemmas.

Each machine's table is checked against an independent reference definition.
For the modes this is a position on a 4-cycle. For the rooms it is a position
on a 7-cycle. Lemmas then prove that the table implements the reference.

Facts about `src/DollhousePanel.cpp` that shape the model:

- The enum order is ALL_ROOMS=0, LIVING_ROOM=1, HALL=2, KITCHEN=3, BEDROOM=4,
  BATHROOM=5, ATTIC=6. The forward cycle is all rooms → hall → living room → ….
  So the first `NEXT_ROOM` selects table index 2 (`Rooms.CycleOrderIsNotEnumOrder`).
- The table stores `brightness * 180`, and `brightness` is one global shared
  by all rooms. An increase stores the new global brightness × 180 in the
  current room's entry, whatever that entry held before: +5400 from power-up
  (`Panel.NextNextIncreaseScenario`), but it can also lower an entry that an
  earlier, higher global brightness wrote (`Panel.IncreaseCanLowerEntry`).
- The room entry handlers only set `currentRoom` and the display. They write
  no PWM channel.
- `setRoomBrightness` writes one channel (`room * 3`) and then commits. It
  does not rewrite every channel.

## Model

| member | source | states |
|---|---|---|
| Fsm.TriggerSpec | src/DollhousePanel.cpp:107-137 | an event is ignored exactly when no edge for (state, event) is registered; otherwise the first registered edge for that pair fires, and the machine moves to its target |
| Fsm.FireSpec | src/DollhousePanel.cpp:142-143 | after `trigger`, the machine is in the target of a registered edge for the pair, or unchanged when none is registered |
| Fsm.TriggerFiresRegisteredEdge | src/DollhousePanel.cpp:107-137 | in a table with at most one target per (state, event), a registered edge is exactly what fires, whatever the registration order |
| Fsm.AgreementGivesDeterminism | src/DollhousePanel.cpp:107-137 | a table whose every edge leads where one reference function says has at most one target per (state, event) |
| Fsm.RepeatAdd | src/DollhousePanel.cpp:142-143 | repeating an event m + n times is repeating it m times and then n times |
| Fsm.RepeatPeriodic | src/DollhousePanel.cpp:142-143 | if p repetitions return a state to itself, so does every multiple of p |
| Fsm.RepeatFollowsReference | src/DollhousePanel.cpp:142-143 | if an event moves every state as a reference function does, n repetitions equal n applications of that function |
| LightingModes.ModeTableDeterministic | src/DollhousePanel.cpp:107-110 | no mode has two registered targets for one event |
| LightingModes.ChangeLightModeAlwaysMoves | src/DollhousePanel.cpp:107-110 | `CHANGE_LIGHT_MODE` is registered in every mode and always changes the mode |
| LightingModes.AdvanceIsCycleNext | src/DollhousePanel.cpp:107-110 | the mode table moves every mode one position forward on the 4-cycle Off, Lighting, Party, Nitelite |
| LightingModes.RoomEventsIgnored | src/DollhousePanel.cpp:107-110 | the room events have no edge in the mode machine |
| LightingModes.CycleNextPos | src/DollhousePanel.cpp:107-110 | one step of the reference mode cycle adds one to the position, modulo 4 |
| LightingModes.WalkPos | src/DollhousePanel.cpp:107-110 | n steps of the reference mode cycle add n to the position, modulo 4 |
| LightingModes.AdvanceRepeatedly | src/DollhousePanel.cpp:107-110 | n `CHANGE_LIGHT_MODE` events through the table equal n steps of the reference cycle |
| LightingModes.WalkFullTurn | src/DollhousePanel.cpp:107-110 | for n up to 4, n steps of the reference cycle return to the start exactly when n is 0 or 4 |
| LightingModes.FullCycle | src/DollhousePanel.cpp:107-110 | for n from 1 to 4, n advances return a mode to itself exactly when n is 4 |
| LightingModes.FourAdvancesReturn | src/DollhousePanel.cpp:107-110 | every multiple of four advances returns to the starting mode |
| LightingModes.AdvanceFromOff | src/DollhousePanel.cpp:107-110 | from the initial mode Off, successive advances go to Lighting, Party, Nitelite, then back to Off |
| Rooms.RoomValue | src/DollhousePanel.cpp:45-54 | every room's enum value is a valid index of the seven-entry table |
| Rooms.EntryValueBijective | src/DollhousePanel.cpp:241-305 | the entry handlers give the seven states seven distinct cursor values, and each room is entered by exactly one state |
| Rooms.RoomTableAgreesWithCycle | src/DollhousePanel.cpp:114-137 | each of the 20 edges leads to the forward successor (`NEXT_ROOM`), the backward predecessor (`PREVIOUS_ROOM`) or all rooms (`RESET_ROOMS`) of its source on the reference cycle |
| Rooms.RoomTableDeterministic | src/DollhousePanel.cpp:114-137 | no (room state, event) pair is registered twice |
| Rooms.CycleNextPreviousInverse | src/DollhousePanel.cpp:114-129 | in the reference cycle, one step forward and one step back cancel out |
| Rooms.NextEdgeRegistered | src/DollhousePanel.cpp:114-120 | every state has a registered `NEXT_ROOM` edge, into its successor on the reference cycle |
| Rooms.PreviousEdgeRegistered | src/DollhousePanel.cpp:123-129 | every state has a registered `PREVIOUS_ROOM` edge, into its predecessor on the reference cycle |
| Rooms.ResetEdgesRegistered | src/DollhousePanel.cpp:132-137 | every state except all rooms has a `RESET_ROOMS` edge into all rooms; all rooms has none |
| Rooms.NoModeEdges | src/DollhousePanel.cpp:114-137 | no room edge is labelled `CHANGE_LIGHT_MODE` |
| Rooms.NextRoomFollowsCycle | src/DollhousePanel.cpp:114-120 | `NEXT_ROOM` fires in every state and moves one position forward on the cycle |
| Rooms.PreviousRoomFollowsCycle | src/DollhousePanel.cpp:123-129 | `PREVIOUS_ROOM` fires in every state and moves one position backward |
| Rooms.ResetRoomsGoesHome | src/DollhousePanel.cpp:132-137 | `RESET_ROOMS` moves every other state to all rooms, and it is ignored (no entry handler runs) exactly at all rooms |
| Rooms.ResetIdempotent | src/DollhousePanel.cpp:132-137 | resetting twice gives the same state as resetting once |
| Rooms.ChangeLightModeIgnored | src/DollhousePanel.cpp:114-137 | the mode event never moves the room machine |
| Rooms.NextPreviousInverse | src/DollhousePanel.cpp:114-129 | `NEXT_ROOM` then `PREVIOUS_ROOM`, or the reverse, returns every state to itself |
| Rooms.WalkForwardPos | src/DollhousePanel.cpp:114-120 | n steps forward on the reference cycle add n to the position, modulo 7 |
| Rooms.WalkBackwardPos | src/DollhousePanel.cpp:123-129 | n steps backward on the reference cycle subtract n from the position, modulo 7 |
| Rooms.RoomEventsRepeatedly | src/DollhousePanel.cpp:114-129 | n `NEXT_ROOM` (or `PREVIOUS_ROOM`) events walk the reference cycle n steps forward (or backward) |
| Rooms.WalkFullTurn | src/DollhousePanel.cpp:114-129 | seven steps in either direction return to the start |
| Rooms.RoomFullCycle | src/DollhousePanel.cpp:114-129 | seven `NEXT_ROOM` events, or seven `PREVIOUS_ROOM` events, return every state to itself |
| Rooms.SevenMovesReturn | src/DollhousePanel.cpp:114-129 | every multiple of seven moves in one direction returns to the start |
| Rooms.WalkNeverReturnsEarly | src/DollhousePanel.cpp:114-120 | fewer than seven forward steps never return to the start |
| Rooms.NextRoomVisitsEveryState | src/DollhousePanel.cpp:114-120 | fewer than seven `NEXT_ROOM` events never return to the start, so the cycle visits all seven states |
| Rooms.CycleOrderIsNotEnumOrder | src/DollhousePanel.cpp:114-116 | the first `NEXT_ROOM` from the initial state enters the hall, whose cursor value is 2, and the second enters the living room, whose cursor value is 1 |
| Brightness.Increase | src/DollhousePanel.cpp:150 | the increase adds 30 while that stays at or below 180, and otherwise gives 180 |
| Brightness.Decrease | src/DollhousePanel.cpp:166 | the decrease subtracts 30 while that stays at or above 0, and otherwise gives 0 |
| Brightness.AdjustPreservesLevel | src/DollhousePanel.cpp:150-166 | both adjustments keep the brightness a multiple of 30 in [0, 180]; an increase never lowers it and a decrease never raises it |
| Brightness.AdjustInverse | src/DollhousePanel.cpp:150-166 | away from the bounds, a decrease undoes an increase, and an increase undoes a decrease |
| Brightness.AdjustSaturates | src/DollhousePanel.cpp:150-166 | 180 stays 180 under an increase, and 0 stays 0 under a decrease |
| Brightness.IncreaseTimesSaturates | src/DollhousePanel.cpp:150 | n increases from at most 180 give b + 30n, capped at 180 |
| Brightness.DecreaseTimesSaturates | src/DollhousePanel.cpp:166 | n decreases from at least 0 give b − 30n, floored at 0 |
| Brightness.DefaultAdjustments | src/DollhousePanel.cpp:70 | from 90, increases go 120, 150, 180, 180, … and decreases go 60, 30, 0, 0, … |
| Brightness.ScaledLevelIsStored | src/DollhousePanel.cpp:153 | a level times 180 is one of 0, 5400, …, 32400; that value and the level ± 30 fit in a 16-bit int |
| Brightness.StoredLevelIsScaledLevel | src/DollhousePanel.cpp:71 | every storable table value is a level times 180, and fits in a 16-bit int |
| Brightness.SetRoomBrightness | src/DollhousePanel.cpp:188-189 | after the write, the room's entry reads back the level exactly, and every other entry is unchanged |
| Brightness.SetRoomBrightnessOverwrites | src/DollhousePanel.cpp:188-189 | of two writes to one room only the second stays; writing back the stored value changes nothing |
| Brightness.PwmChannel | src/DollhousePanel.cpp:190 | a room's channel is a multiple of 3, and dividing it by 3 gives back the room, so each room owns its own block of three channels |
| Brightness.PwmChannelInjective | src/DollhousePanel.cpp:190 | two of the seven rooms share a channel only if they are the same room, and every room's channel lies in [0, 18] |
| Brightness.Constrain | src/DollhousePanel.cpp:179-181 | the result lies in [low, high], keeps an in-range input, raises a too-small input to low, and lowers a too-large input to high |
| Brightness.SetRGBColor | src/DollhousePanel.cpp:178-186 | every channel written lies in [0, 255], an in-range channel passes unchanged, a negative channel becomes 0 and a channel above 255 becomes 255 |
| Brightness.SetRGBColorIdempotent | src/DollhousePanel.cpp:178-186 | clamping an already written colour again changes nothing |
| Brightness.IndicatorShowsLevel | src/DollhousePanel.cpp:312-314 | the panel LED for a brightness level is pure blue at exactly that level |
| Brightness.InitRoomBrightness | src/DollhousePanel.cpp:94-96 | the initialisation loop gives every one of the table's entries the value `brightness * 180` |
| Panel.Initial | src/DollhousePanel.cpp:31 | the power-up state is Off, all rooms, cursor 0, brightness 90, every entry 16200, and it satisfies the invariant |
| Panel.Setup | src/DollhousePanel.cpp:70-96 | running the table loop on the globals' initial values yields the power-up state |
| Panel.TriggerRooms | src/DollhousePanel.cpp:241-305 | a room event changes only the room state and the cursor; when an edge fires the cursor becomes the entered state's enum value, and otherwise nothing changes |
| Panel.TriggerModes | src/DollhousePanel.cpp:143 | `CHANGE_LIGHT_MODE` moves the mode one step on the reference cycle and changes nothing else; a room event changes nothing |
| Panel.Adjust | src/DollhousePanel.cpp:150-153 | a brightness change stores `b * 180` for the current room, keeps every other entry, the cursor, the room state and the mode, and writes the LED, then that room's channel |
| Panel.ResetAndAdvance | src/DollhousePanel.cpp:140-144 | button one leaves the room state at all rooms and moves the mode one step on the reference cycle. When the reset fires, the all-rooms entry handler sets the cursor to `ALL_ROOMS`. When the machine is already at all rooms, the reset is ignored and the cursor keeps its value. The brightness and the table are kept |
| Panel.MoveRoom | src/DollhousePanel.cpp:157-176 | `NEXT_ROOM` or `PREVIOUS_ROOM` moves the room state one step forward or back on the reference cycle, sets the cursor to the entered room's value and keeps the mode, brightness and table |
| Panel.Press | src/DollhousePanel.cpp:140-176 | button one resets the rooms and advances the mode. It sets the cursor to `ALL_ROOMS` when the reset fires and leaves the cursor alone when it is ignored. Buttons three and five move one step back or forward on the room cycle. Buttons two and four adjust the brightness with saturation, only in the current room's entry. Each button leaves every other part of the state alone |
| Panel.PressPreservesInv | src/DollhousePanel.cpp:140-176 | every button keeps the invariant: the cursor matches the room state, the brightness is a level, and every entry is a scaled level |
| Panel.RunPreservesInv | src/DollhousePanel.cpp:140-176 | every sequence of presses keeps the invariant |
| Panel.ReachableValuesFitInt16 | src/DollhousePanel.cpp:150-169 | in every reachable state, the brightness, the brightness ± 30, the brightness × 180 and every table entry fit in a 16-bit int; entries are multiples of 5400 in [0, 32400] |
| Panel.ButtonOneResetsAndAdvances | src/DollhousePanel.cpp:140-144 | button one selects all rooms with cursor 0 from any reachable state, advances the mode one step, and changes nothing else |
| Panel.ButtonOneTwice | src/DollhousePanel.cpp:140-144 | pressing button one twice stays at all rooms and advances the mode two steps |
| Panel.RoomButtonsSelect | src/DollhousePanel.cpp:157-176 | buttons five and three select the next and previous room state, with the matching cursor, and change nothing else |
| Panel.RoomButtonsInverse | src/DollhousePanel.cpp:157-176 | button three undoes button five and vice versa, cursor included |
| Panel.NextRoomPresses | src/DollhousePanel.cpp:173-176 | n presses of button five walk the room selection n steps forward and change nothing else |
| Panel.SevenNextRoomPressesReturn | src/DollhousePanel.cpp:173-176 | seven presses of button five restore the whole panel state |
| Panel.NextNextIncrease | src/DollhousePanel.cpp:146-176 | from all rooms in any reachable state, next, next, increase selects the living room (index 1), raises the brightness with saturation, stores it times 180 for the living room, and keeps every other room's entry |
| Panel.IncreaseCanLowerEntry | src/DollhousePanel.cpp:146-153 | an increase stores the shared global brightness × 180 in the current room's entry: after next, decrease, decrease, next from power-up, button two lowers the living room's entry from 16200 to 10800 |
| Panel.NextNextIncreaseScenario | src/DollhousePanel.cpp:146-155 | from power-up, next, next, increase selects the living room (index 1) and raises only its entry, by 30 × 180; every other entry stays at 90 × 180 |
| Panel.LoopIndicatorIsBrightness | src/DollhousePanel.cpp:312-314 | in every reachable state, the main loop shows the brightness unchanged on blue, with red and green at 0 |
| Panel.AdjustOutputs | src/DollhousePanel.cpp:152-153 | the brightness buttons write the new level to the LED, then write the stored value to channel `currentRoom * 3` |

## Left out

- The character display (`lcd.begin/clear/print/setCursor`) is left out: it only renders labels through a display library, and that library is not part of this model.
- The hardware drivers are left out: `tlc.begin/setPWM/write`, the NeoPixel `strip`, `analogWrite`, `pinMode` and `enableInterrupt` are foreign calls. A PWM write and the LED colour become `Output` values. The model does not check that channel `room * 3` exists on the chip.
- The `delay(200)` debounce and interrupt timing and reentrancy are left out. Each button press is one atomic step, and handlers never interleave. `setup()` is also one atomic step. In the source, the button interrupts are enabled (lines 100-104) before any transition is registered (lines 107-137). A press in that window acts on a partly filled table and may be ignored. The model has no such window, because its tables are constants.
- The internals of the `Fsm` library are not part of this model. The model assumes only that a registered edge moves the machine and runs the target's entry handler, and that an unregistered (state, event) pair does nothing. The time at which the library first runs the initial state's entry handler is not modelled. The power-up cursor comes from the global initialiser `currentRoom = ALL_ROOMS`.
- The lighting-mode entry handlers only print a label, so a mode is just its `Mode` value.
- The empty `lightRooms` loop and the empty `on_*_exit` handlers have no behaviour, so they are not modelled.
- The pin and size constants of the hardware setup (`TLC_DATA`, `PIXEL_PIN`, `RED_PIN`, …) are left out. `LastROOM`, 90, 30, 180 and the factor 3 between a room and its channel are modelled.
