/**
 * A table-driven finite-state machine in the style of the Arduino `Fsm`
 * library: a machine is a current state plus a list of registered edges
 * `add_transition(from, to, event, NULL)`. Triggering an event fires the
 * first registered edge leaving the current state on that event; when no
 * edge is registered the machine stays where it is and runs no handler.
 */
module Fsm {

  /** One registered edge. */
  datatype Transition<S, E> = Transition(from: S, to: S, event: E)

  /** What `trigger` does: fire an edge into `to`, or ignore the event. */
  datatype Step<S> = Moved(to: S) | Ignored

  /** The edge leaves state `s` on event `e`. */
  predicate Matches<S(==), E(==)>(t: Transition<S, E>, s: S, e: E) {
    t.from == s && t.event == e
  }

  /** Some edge is registered for the pair (`s`, `e`). */
  predicate Registered<S(==), E(==)>(table: seq<Transition<S, E>>, s: S, e: E) {
    exists i :: 0 <= i < |table| && Matches(table[i], s, e)
  }

  /** No pair (state, event) is registered with two different targets. */
  predicate Deterministic<S(==), E(==)>(table: seq<Transition<S, E>>) {
    forall i, j :: 0 <= i < |table| && 0 <= j < |table| && Matches(table[j], table[i].from, table[i].event)
      ==> table[i].to == table[j].to
  }

  /**
   * Looks the pair (`s`, `e`) up in the table: the first matching edge fires;
   * an unregistered pair is ignored.
   */
  function Trigger<S(==), E(==)>(table: seq<Transition<S, E>>, s: S, e: E): Step<S>
    decreases |table|
  {
    if |table| == 0 then Ignored
    else if Matches(table[0], s, e) then Moved(table[0].to)
    else Trigger(table[1..], s, e)
  }

  /**
   * An event is ignored exactly when no edge is registered for it; otherwise
   * the first registered edge for the pair is the one that fires.
   */
  lemma {:induction false} TriggerSpec<S, E>(table: seq<Transition<S, E>>, s: S, e: E)
    ensures Trigger(table, s, e).Ignored? <==> !Registered(table, s, e)
    ensures Trigger(table, s, e).Moved? ==>
              exists i :: 0 <= i < |table| && Matches(table[i], s, e) && table[i].to == Trigger(table, s, e).to
                       && forall j :: 0 <= j < i ==> !Matches(table[j], s, e)
    decreases |table|
  {
    if |table| > 0 && !Matches(table[0], s, e) {
      TriggerSpec(table[1..], s, e);
      assert forall i :: 0 < i < |table| ==> table[i] == table[1..][i - 1];
      if Trigger(table, s, e).Moved? {
        var i :| 0 <= i < |table[1..]| && Matches(table[1..][i], s, e) && table[1..][i].to == Trigger(table, s, e).to
                 && forall j :: 0 <= j < i ==> !Matches(table[1..][j], s, e);
        assert Matches(table[i + 1], s, e);
      } else {
        forall i | 0 <= i < |table|
          ensures !Matches(table[i], s, e)
        {
          if i > 0 {
            assert table[i] == table[1..][i - 1];
          }
        }
      }
    }
  }

  /** The state the machine is in after the event. */
  function Fire<S(==), E(==)>(table: seq<Transition<S, E>>, s: S, e: E): S {
    match Trigger(table, s, e)
    case Moved(t) => t
    case Ignored => s
  }

  /** After the event the machine is in the target of a registered edge, or unchanged when there is none. */
  lemma FireSpec<S, E>(table: seq<Transition<S, E>>, s: S, e: E)
    ensures Registered(table, s, e) ==> Transition(s, Fire(table, s, e), e) in table
    ensures !Registered(table, s, e) ==> Fire(table, s, e) == s
  {
    TriggerSpec(table, s, e);
    if Registered(table, s, e) {
      var i :| 0 <= i < |table| && Matches(table[i], s, e) && table[i].to == Trigger(table, s, e).to;
      assert table[i] == Transition(s, Fire(table, s, e), e);
    }
  }

  /** The state after the same event is triggered `n` times in a row. */
  function Repeat<S(==), E(==)>(table: seq<Transition<S, E>>, s: S, e: E, n: nat): S
    decreases n
  {
    if n == 0 then s else Repeat(table, Fire(table, s, e), e, n - 1)
  }

  /** In a deterministic table, a registered edge is exactly what fires. */
  lemma TriggerFiresRegisteredEdge<S, E>(table: seq<Transition<S, E>>, s: S, t: S, e: E)
    requires Deterministic(table)
    requires Transition(s, t, e) in table
    ensures Trigger(table, s, e) == Moved(t)
  {
    var j :| 0 <= j < |table| && table[j] == Transition(s, t, e);
    assert Matches(table[j], s, e);
    TriggerSpec(table, s, e);
    var i :| 0 <= i < |table| && Matches(table[i], s, e) && table[i].to == Trigger(table, s, e).to;
    assert Matches(table[j], table[i].from, table[i].event);
  }

  /** Every edge leads where the reference function `target` says it should. */
  ghost predicate AgreesWith<S, E>(table: seq<Transition<S, E>>, target: (S, E) -> S) {
    forall i :: 0 <= i < |table| ==> table[i].to == target(table[i].from, table[i].event)
  }

  /** A table whose every edge agrees with one target function is deterministic. */
  lemma AgreementGivesDeterminism<S, E>(table: seq<Transition<S, E>>, target: (S, E) -> S)
    requires AgreesWith(table, target)
    ensures Deterministic(table)
  {
    forall i, j | 0 <= i < |table| && 0 <= j < |table| && Matches(table[j], table[i].from, table[i].event)
      ensures table[i].to == table[j].to
    {
      assert table[i].to == target(table[i].from, table[i].event);
      assert table[j].to == target(table[j].from, table[j].event);
    }
  }

  /** Repeating `m + n` times is repeating `m` times, then `n` more. */
  lemma {:induction false} RepeatAdd<S, E>(table: seq<Transition<S, E>>, s: S, e: E, m: nat, n: nat)
    ensures Repeat(table, s, e, m + n) == Repeat(table, Repeat(table, s, e, m), e, n)
    decreases m
  {
    if m > 0 {
      RepeatAdd(table, Fire(table, s, e), e, m - 1, n);
    }
  }

  /** A state that `p` repetitions bring back to itself is also reached again after any multiple of `p`. */
  lemma {:induction false} RepeatPeriodic<S, E>(table: seq<Transition<S, E>>, s: S, e: E, p: nat, k: nat)
    requires Repeat(table, s, e, p) == s
    ensures Repeat(table, s, e, p * k) == s
    decreases k
  {
    if k > 0 {
      var rest: nat := p * (k - 1);
      assert p * k == p + rest;
      RepeatAdd(table, s, e, p, rest);
      RepeatPeriodic(table, s, e, p, k - 1);
    }
  }

  /** `f` applied `n` times. */
  function Iterate<S>(f: S -> S, s: S, n: nat): S
    decreases n
  {
    if n == 0 then s else Iterate(f, f(s), n - 1)
  }

  /**
   * When an event moves every state as the reference function `f` does,
   * repeating the event `n` times is applying `f` `n` times.
   */
  lemma {:induction false} RepeatFollowsReference<S, E>(table: seq<Transition<S, E>>, e: E, f: S -> S, s: S, n: nat)
    requires forall x :: Fire(table, x, e) == f(x)
    ensures Repeat(table, s, e, n) == Iterate(f, s, n)
    decreases n
  {
    if n > 0 {
      RepeatFollowsReference(table, e, f, f(s), n - 1);
    }
  }
}
