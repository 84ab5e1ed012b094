/** Waiting for a quiet pipeline: lag drained and no rebalance for long enough, or an error at the deadline. */
module Quiesce {
  import opened Wrappers

  const RECOVERED_LAG := 500
  const POLL_INTERVAL := 2.0

  /**
   One turn of the loop: the clock when the deadline is checked, what is read, and the clock when the
   reading is judged.
   */
  datatype Poll = Poll(check: real, lag: int, rebalances: int, clock: real)

  type Polls = nat -> Poll

  /** The clock never runs backwards, and every turn sleeps before the next. */
  ghost predicate Timed(polls: Polls) {
    forall i, j :: 0 <= i && j == i + 1 ==>
                     polls(i).check <= polls(i).clock && polls(i).clock + POLL_INTERVAL <= polls(j).check
  }

  predicate Moved(polls: Polls, i: nat) {
    i > 0 && polls(i).rebalances != polls(i - 1).rebalances
  }

  predicate Quiet(polls: Polls, i: nat) {
    polls(i).lag <= RECOVERED_LAG && !Moved(polls, i)
  }

  /** Consecutive polls a to b are all quiet and span at least the required time. */
  ghost predicate QuietSpan(polls: Polls, stable: real, a: nat, b: nat) {
    && a < b
    && (forall i :: a <= i <= b ==> Quiet(polls, i))
    && polls(b).clock - polls(a).clock >= stable
  }

  /** All polls from a to b are caught up, and none sees another rebalance. */
  ghost predicate Steady(polls: Polls, a: nat, b: nat) {
    forall i :: a <= i <= b ==> polls(i).lag <= RECOVERED_LAG && polls(i).rebalances == polls(a).rebalances
  }

  /** No quiet span ends among the first n polls. */
  ghost predicate NoSpanBefore(polls: Polls, stable: real, n: nat) {
    forall a, b :: 0 <= a && 0 <= b < n ==> !QuietSpan(polls, stable, a, b)
  }

  datatype Outcome =
    | Quiesced(last: nat)
    | TimedOut(polled: nat)

  ghost predicate WithinDeadline(polls: Polls, deadline: real, n: nat) {
    forall i :: 0 <= i < n ==> polls(i).check < deadline
  }

  lemma NextPoll(polls: Polls, i: nat)
    requires Timed(polls)
    ensures polls(i).check <= polls(i).clock && polls(i).clock + POLL_INTERVAL <= polls(i + 1).check
  {
    var j := i + 1;
    assert polls(i).check <= polls(i).clock && polls(i).clock + POLL_INTERVAL <= polls(j).check;
  }

  lemma {:induction false} ClocksClimb(polls: Polls, i: nat, j: nat)
    requires Timed(polls) && i <= j
    ensures polls(i).clock <= polls(j).clock
    decreases j - i
  {
    if i < j {
      ClocksClimb(polls, i, j - 1);
      NextPoll(polls, j - 1);
      NextPoll(polls, j);
    }
  }

  /** A quiet span that ends at b starts no earlier than the quiet run that is under way. */
  lemma SpanStartsInRun(polls: Polls, stable: real, run: nat, a: nat, b: nat)
    requires Timed(polls) && QuietSpan(polls, stable, a, b)
    requires run <= b && (run > 0 ==> !Quiet(polls, run - 1))
    ensures run <= a && polls(b).clock - polls(run).clock >= stable
  {
    var k: nat := if run > 0 then run - 1 else 0;
    assert a <= k <= b ==> Quiet(polls, k);
    ClocksClimb(polls, run, a);
  }

  /**
   Returns normally at the very first poll where a quiet span ends, and fails only when the deadline
   has passed without one.
   */
  method WaitUntilQuiesced(polls: Polls, start: real, stable: real, timeout: real) returns (outcome: Outcome)
    requires Timed(polls) && start <= polls(0).check
    ensures outcome.Quiesced? ==>
              && (exists since :: QuietSpan(polls, stable, since, outcome.last)
                                  && Steady(polls, since, outcome.last))
              && NoSpanBefore(polls, stable, outcome.last)
              && WithinDeadline(polls, start + timeout, outcome.last + 1)
    ensures outcome.TimedOut? ==>
              && NoSpanBefore(polls, stable, outcome.polled)
              && WithinDeadline(polls, start + timeout, outcome.polled)
              && polls(outcome.polled).check >= start + timeout
  {
    hide QuietSpan, NoSpanBefore, Steady, Moved, Timed;
    var deadline := start + timeout;
    NoSpanYet(polls, stable);
    var stableSince: Option<real> := None;
    var lastRebalances: Option<int> := None;
    var i: nat := 0;
    ghost var run: nat := 0;
    while polls(i).check < deadline
      invariant run <= i && (run > 0 ==> !Quiet(polls, run - 1))
      invariant forall k :: run <= k < i ==> Quiet(polls, k)
      invariant stableSince == if run == i then None else Some(polls(run).clock)
      invariant lastRebalances == if i == 0 then None else Some(polls(i - 1).rebalances)
      invariant NoSpanBefore(polls, stable, i) && WithinDeadline(polls, deadline, i)
      decreases (deadline - polls(i).check).Floor + 1
    {
      var poll := polls(i);
      var moved := lastRebalances.Some? && poll.rebalances != lastRebalances.value;
      lastRebalances := Some(poll.rebalances);
      MovedAgain(polls, i);
      if poll.lag > RECOVERED_LAG || moved {
        stableSince := None;
        run := i + 1;
        NotQuietNoSpan(polls, stable, i);
      } else if stableSince.None? {
        stableSince := Some(poll.clock);
        SpanNeedsTwo(polls, stable, run, i);
      } else if poll.clock - stableSince.value >= stable {
        RunIsSteady(polls, run, i);
        SpanFound(polls, stable, run, i);
        return Quiesced(i);
      } else {
        TooShort(polls, stable, run, i);
      }
      NextPoll(polls, i);
      i := i + 1;
    }
    return TimedOut(i);
  }

  lemma NoSpanYet(polls: Polls, stable: real)
    ensures NoSpanBefore(polls, stable, 0)
  {
  }

  lemma MovedAgain(polls: Polls, i: nat)
    ensures Moved(polls, i) <==> i > 0 && polls(i).rebalances != polls(i - 1).rebalances
  {
  }

  lemma SpanFound(polls: Polls, stable: real, run: nat, i: nat)
    requires run < i && forall k :: run <= k <= i ==> Quiet(polls, k)
    requires polls(i).clock - polls(run).clock >= stable && Steady(polls, run, i)
    ensures exists since :: QuietSpan(polls, stable, since, i) && Steady(polls, since, i)
  {
    assert QuietSpan(polls, stable, run, i);
  }

  lemma NotQuietNoSpan(polls: Polls, stable: real, i: nat)
    requires NoSpanBefore(polls, stable, i) && !Quiet(polls, i)
    ensures NoSpanBefore(polls, stable, i + 1)
  {
    forall a | 0 <= a
      ensures !QuietSpan(polls, stable, a, i)
    {
      assert QuietSpan(polls, stable, a, i) ==> Quiet(polls, i);
    }
  }

  lemma SpanNeedsTwo(polls: Polls, stable: real, run: nat, i: nat)
    requires NoSpanBefore(polls, stable, i) && run == i && (run > 0 ==> !Quiet(polls, run - 1))
    ensures NoSpanBefore(polls, stable, i + 1)
  {
    var k: nat := if run > 0 then run - 1 else 0;
    forall a | 0 <= a
      ensures !QuietSpan(polls, stable, a, i)
    {
      assert QuietSpan(polls, stable, a, i) && a <= k ==> Quiet(polls, k);
    }
  }

  lemma TooShort(polls: Polls, stable: real, run: nat, i: nat)
    requires Timed(polls) && NoSpanBefore(polls, stable, i)
    requires run < i && (run > 0 ==> !Quiet(polls, run - 1)) && polls(i).clock - polls(run).clock < stable
    ensures NoSpanBefore(polls, stable, i + 1)
  {
    forall a | 0 <= a && QuietSpan(polls, stable, a, i)
      ensures false
    {
      SpanStartsInRun(polls, stable, run, a, i);
    }
  }

  /** With no movement between them, all polls of a run saw the same number of rebalances. */
  lemma {:induction false} RunIsSteady(polls: Polls, run: nat, i: nat)
    requires run <= i && forall k :: run <= k <= i ==> Quiet(polls, k)
    ensures Steady(polls, run, i)
    decreases i - run
  {
    assert Quiet(polls, i);
    if run < i {
      RunIsSteady(polls, run, i - 1);
    }
  }
}
