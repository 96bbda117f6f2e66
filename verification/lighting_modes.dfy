/**
 * The lighting-mode machine `modes`: four states advanced only by
 * `CHANGE_LIGHT_MODE`. Entering a mode only changes the display label, so
 * the machine's observable state is the mode itself.
 */
module LightingModes {
  import opened Fsm
  import opened Events
  import Cycles

  datatype Mode = Off | Lighting | Party | Nitelite

  /** `Fsm modes(&state_off_mode)`. */
  const InitialMode: Mode := Off

  /** The four `modes.add_transition` calls, in registration order. */
  const ModeTable: seq<Transition<Mode, Event>> := [
    Transition(Off, Lighting, ChangeLightMode),
    Transition(Lighting, Party, ChangeLightMode),
    Transition(Party, Nitelite, ChangeLightMode),
    Transition(Nitelite, Off, ChangeLightMode)
  ]

  /** Position of a mode on the cycle, counted from `Off`. */
  function CyclePos(m: Mode): (k: nat)
    ensures k < 4
  {
    match m
    case Off => 0
    case Lighting => 1
    case Party => 2
    case Nitelite => 3
  }

  /** The mode at position `k` of the cycle; the inverse of `CyclePos`. */
  function ModeAt(k: nat): (m: Mode)
    requires k < 4
    ensures CyclePos(m) == k
  {
    if k == 0 then Off else if k == 1 then Lighting else if k == 2 then Party else Nitelite
  }

  /** The reference cycle: one step forward, wrapping after the fourth mode. */
  function CycleNext(m: Mode): Mode {
    var k := CyclePos(m);
    ModeAt(if k == 3 then 0 else k + 1)
  }

  /** The machine's state after `CHANGE_LIGHT_MODE` is triggered on it. */
  function Advance(m: Mode): Mode {
    Fire(ModeTable, m, ChangeLightMode)
  }

  lemma CyclePosInjective(a: Mode, b: Mode)
    ensures CyclePos(a) == CyclePos(b) <==> a == b
  {
  }

  /** Each mode has exactly one registered edge, so the table is deterministic. */
  lemma ModeTableDeterministic()
    ensures Deterministic(ModeTable)
  {
  }

  /** `CHANGE_LIGHT_MODE` is registered for every mode: the mode machine never ignores it. */
  lemma ChangeLightModeAlwaysMoves(m: Mode)
    ensures Trigger(ModeTable, m, ChangeLightMode).Moved?
    ensures Advance(m) != m
  {
    ModeTableDeterministic();
    TriggerFiresRegisteredEdge(ModeTable, m, CycleNext(m), ChangeLightMode);
  }

  /** The table implements the reference cycle Off, Lighting, Party, Nitelite, Off. */
  lemma AdvanceIsCycleNext(m: Mode)
    ensures Advance(m) == CycleNext(m)
  {
    ModeTableDeterministic();
    TriggerFiresRegisteredEdge(ModeTable, m, CycleNext(m), ChangeLightMode);
  }

  /** Room events have no edge in the mode machine: triggering one leaves the mode unchanged. */
  lemma RoomEventsIgnored(m: Mode, e: Event)
    requires e != ChangeLightMode
    ensures Trigger(ModeTable, m, e) == Ignored
  {
    TriggerSpec(ModeTable, m, e);
  }

  /** One step forward on the cycle adds one to the position, modulo four. */
  lemma CycleNextPos(m: Mode)
    ensures CyclePos(CycleNext(m)) == (CyclePos(m) + 1) % 4
  {
    Cycles.WrapIsMod(CyclePos(m), 4);
  }

  /** Walking the reference cycle `n` steps adds `n` to the position, modulo four. */
  lemma {:induction false} WalkPos(m: Mode, n: nat)
    ensures CyclePos(Iterate(CycleNext, m, n)) == (CyclePos(m) + n) % 4
    decreases n
  {
    if n > 0 {
      WalkPos(CycleNext(m), n - 1);
      CycleNextPos(m);
      Cycles.ModAddShift(CyclePos(m) + 1, n - 1, 4);
    }
  }

  /** `n` advances walk the reference cycle `n` steps. */
  lemma AdvanceRepeatedly(m: Mode, n: nat)
    ensures Repeat(ModeTable, m, ChangeLightMode, n) == Iterate(CycleNext, m, n)
  {
    forall x: Mode
      ensures Fire(ModeTable, x, ChangeLightMode) == CycleNext(x)
    {
      AdvanceIsCycleNext(x);
    }
    RepeatFollowsReference(ModeTable, ChangeLightMode, CycleNext, m, n);
  }

  /** Four steps of the reference cycle return to the start; fewer never do. */
  lemma WalkFullTurn(m: Mode, n: nat)
    requires n <= 4
    ensures Iterate(CycleNext, m, n) == m <==> n == 0 || n == 4
  {
    WalkPos(m, n);
    CyclePosInjective(Iterate(CycleNext, m, n), m);
  }

  /** Four advances return every mode to itself, and one to three advances never do. */
  lemma FullCycle(m: Mode, n: nat)
    requires 0 < n <= 4
    ensures Repeat(ModeTable, m, ChangeLightMode, n) == m <==> n == 4
  {
    AdvanceRepeatedly(m, n);
    WalkFullTurn(m, n);
  }

  /** Any multiple of four advances returns to the starting mode. */
  lemma FourAdvancesReturn(m: Mode, k: nat)
    ensures Repeat(ModeTable, m, ChangeLightMode, 4 * k) == m
  {
    FullCycle(m, 4);
    RepeatPeriodic(ModeTable, m, ChangeLightMode, 4, k);
  }

  /** From the initial mode Off, the advances go to Lighting, Party, Nitelite and back to Off. */
  lemma AdvanceFromOff()
    ensures Advance(InitialMode) == Lighting
    ensures Advance(Lighting) == Party
    ensures Advance(Party) == Nitelite
    ensures Advance(Nitelite) == Off
  {
    AdvanceIsCycleNext(Off);
    AdvanceIsCycleNext(Lighting);
    AdvanceIsCycleNext(Party);
    AdvanceIsCycleNext(Nitelite);
  }
}
