/** Pacing: a token bucket with fractional credit, and the worker loop that spends what it grants. */
module Pacing {
  import opened RealArithmetic

  /** Python's `int()` of a float: truncation toward zero. */
  function Trunc(x: real): int {
    if x >= 0.0 then x.Floor else -((-x).Floor)
  }

  /** The limiter's fields. */
  datatype Bucket = Bucket(last: real, credit: real)

  /** One call: the clock it reads and the rate it is given. */
  datatype Call = Call(now: real, rate: real)

  /** What a call earns, before the cap. */
  function Earning(b: Bucket, c: Call): real {
    MaxReal(0.0, c.now - b.last) * c.rate
  }

  function Available(b: Bucket, cap: real, c: Call): real {
    MinReal(cap, b.credit + Earning(b, c))
  }

  function Granted(b: Bucket, cap: real, c: Call): int {
    Trunc(Available(b, cap, c))
  }

  function Next(b: Bucket, cap: real, c: Call): Bucket {
    Bucket(c.now, Available(b, cap, c) - Granted(b, cap, c) as real)
  }

  class RateLimiter {
    const maxBurstCredit: real
    var last: real
    var credit: real

    constructor (cap: real, now: real)
      ensures maxBurstCredit == cap && State() == Bucket(now, 0.0)
    {
      maxBurstCredit, last, credit := cap, now, 0.0;
    }

    function State(): Bucket
      reads this
    {
      Bucket(last, credit)
    }

    /** How many items may be emitted now. */
    method Acquire(now: real, rate: real) returns (whole: int)
      modifies this`last, this`credit
      ensures whole == Granted(old(State()), maxBurstCredit, Call(now, rate))
      ensures State() == Next(old(State()), maxBurstCredit, Call(now, rate))
      ensures rate >= 0.0 && maxBurstCredit >= 0.0 && old(credit) >= 0.0 ==>
                var earned := old(credit) + (if now >= old(last) then now - old(last) else 0.0) * rate;
                && last == now && 0.0 <= credit < 1.0
                && whole as real + credit == if earned >= maxBurstCredit then maxBurstCredit else earned
    {
      hide Trunc, MinReal, MaxReal;
      if rate >= 0.0 && maxBurstCredit >= 0.0 && credit >= 0.0 {
        CallExactly(State(), maxBurstCredit, Call(now, rate));
      }
      var elapsed := MaxReal(0.0, now - last);
      assert elapsed * rate == Earning(State(), Call(now, rate));
      last := now;
      credit := MinReal(maxBurstCredit, credit + elapsed * rate);
      whole := Trunc(credit);
      credit := credit - whole as real;
    }
  }

  // ---- Any window of calls

  function After(b: Bucket, cap: real, calls: seq<Call>): Bucket
    decreases calls
  {
    if calls == [] then b else After(Next(b, cap, calls[0]), cap, calls[1..])
  }

  function TotalGranted(b: Bucket, cap: real, calls: seq<Call>): int
    decreases calls
  {
    if calls == [] then 0 else Granted(b, cap, calls[0]) + TotalGranted(Next(b, cap, calls[0]), cap, calls[1..])
  }

  /** The sum of elapsed time times rate. */
  function TotalEarned(b: Bucket, calls: seq<Call>): real
    decreases calls
  {
    if calls == [] then 0.0
    else Earning(b, calls[0]) + TotalEarned(Bucket(calls[0].now, 0.0), calls[1..])
  }

  predicate CapNeverBinds(b: Bucket, cap: real, calls: seq<Call>)
    decreases calls
  {
    calls == [] || (
      && b.credit + Earning(b, calls[0]) <= cap
      && CapNeverBinds(Next(b, cap, calls[0]), cap, calls[1..]))
  }

  lemma EarningIsNonNegative(b: Bucket, c: Call)
    requires c.rate >= 0.0
    ensures Earning(b, c) >= 0.0
  {
    assert MaxReal(0.0, c.now - b.last) >= 0.0;
  }

  lemma TruncBounds(x: real)
    requires x >= 0.0
    ensures Trunc(x) >= 0 && Trunc(x) as real <= x < Trunc(x) as real + 1.0
  {
  }

  /** A turn is taken if and only if neither it nor any before it began at or after the run's end. */
  lemma {:induction false} TurnsUntilTheEnd(turns: seq<Turn>, duration: real)
    ensures var taken := Taken(turns, duration);
            && taken <= turns
            && (forall i :: 0 <= i < |taken| ==> turns[i].elapsed < duration)
            && (|taken| < |turns| ==> turns[|taken|].elapsed >= duration)
  {
    if turns != [] && turns[0].elapsed < duration {
      TurnsUntilTheEnd(turns[1..], duration);
      assert turns == [turns[0]] + turns[1..];
    }
  }

  /** One call: what is left is a fraction, and the grant is neither negative nor above the cap. */
  lemma CallBounds(b: Bucket, cap: real, c: Call)
    requires c.rate >= 0.0 && cap >= 0.0 && 0.0 <= b.credit
    ensures 0.0 <= Next(b, cap, c).credit < 1.0
    ensures 0 <= Granted(b, cap, c) && Granted(b, cap, c) as real <= cap
    ensures Granted(b, cap, c) as real + Next(b, cap, c).credit == Available(b, cap, c)
  {
    hide Earning, Trunc;
    EarningIsNonNegative(b, c);
    TruncBounds(Available(b, cap, c));
  }

  /** The time since the last call; a clock that went back counts as one that stood still. */
  function Elapsed(b: Bucket, c: Call): real {
    if c.now >= b.last then c.now - b.last else 0.0
  }

  /**
   One call, spelled out: credit and earnings are split into a whole number granted and a fraction
   kept, unless together they reach the cap; then the whole of the cap is granted and its fraction kept.
   */
  lemma CallExactly(b: Bucket, cap: real, c: Call)
    requires c.rate >= 0.0 && cap >= 0.0 && 0.0 <= b.credit
    ensures var earned := b.credit + Elapsed(b, c) * c.rate;
            var whole, next := Granted(b, cap, c), Next(b, cap, c);
            && next.last == c.now && 0.0 <= next.credit < 1.0
            && (earned >= cap ==> whole == cap.Floor && whole as real + next.credit == cap)
            && (earned < cap ==> whole == earned.Floor && whole as real + next.credit == earned)
  {
    CallBounds(b, cap, c);
    assert MaxReal(0.0, c.now - b.last) == Elapsed(b, c);
  }

  /** What the calls earn, each at most one less than the cap. */
  function CappedEarnings(last: real, cap: real, calls: seq<Call>): real
    decreases calls
  {
    if calls == [] then 0.0
    else
      var earned := Elapsed(Bucket(last, 0.0), calls[0]) * calls[0].rate;
      (if earned > cap - 1.0 then cap - 1.0 else earned) + CappedEarnings(calls[0].now, cap, calls[1..])
  }

  /**
   A stall costs no more than what it earned beyond the cap: over any calls, whether or not the cap
   binds, grants and remaining credit are at least the starting credit and what the calls earned,
   each counted up to one less than the cap.
   */
  lemma {:induction false} StallsCostTheExcess(b: Bucket, cap: real, calls: seq<Call>)
    requires cap >= 0.0 && 0.0 <= b.credit < 1.0
    requires forall c :: c in calls ==> c.rate >= 0.0
    ensures TotalGranted(b, cap, calls) as real + After(b, cap, calls).credit
            >= b.credit + CappedEarnings(b.last, cap, calls)
    decreases |calls|
  {
    hide Granted, Next, Elapsed;
    if calls != [] {
      var c := calls[0];
      CallExactly(b, cap, c);
      SameElapsed(b, c);
      StallsCostTheExcess(Next(b, cap, c), cap, calls[1..]);
    }
  }

  lemma SameElapsed(b: Bucket, c: Call)
    ensures Elapsed(Bucket(b.last, 0.0), c) == Elapsed(b, c)
  {
  }

  lemma EarnedIgnoresCredit(a: Bucket, b: Bucket, calls: seq<Call>)
    requires a.last == b.last
    ensures TotalEarned(a, calls) == TotalEarned(b, calls)
  {
    if calls != [] {
      assert Earning(a, calls[0]) == Earning(b, calls[0]);
    }
  }

  /**
   The ledger. Over any calls, grants plus the credit left never exceed the credit at the start plus
   what was earned, and equal it when the cap never binds.
   */
  lemma {:induction false} Ledger(b: Bucket, cap: real, calls: seq<Call>)
    requires cap >= 0.0 && 0.0 <= b.credit
    requires forall c :: c in calls ==> c.rate >= 0.0
    ensures After(b, cap, calls).credit >= 0.0
    ensures calls != [] ==> After(b, cap, calls).credit < 1.0
    ensures TotalGranted(b, cap, calls) >= 0
    ensures TotalGranted(b, cap, calls) as real + After(b, cap, calls).credit <= b.credit + TotalEarned(b, calls)
    ensures CapNeverBinds(b, cap, calls) ==>
              TotalGranted(b, cap, calls) as real + After(b, cap, calls).credit == b.credit + TotalEarned(b, calls)
    decreases |calls|
  {
    hide Earning, Granted;
    if calls != [] {
      var next := Next(b, cap, calls[0]);
      CallBounds(b, cap, calls[0]);
      Ledger(next, cap, calls[1..]);
      EarnedIgnoresCredit(next, Bucket(calls[0].now, 0.0), calls[1..]);
    }
  }

  /**
   Pacing is accurate over every window of calls of a limiter that has been called before: the
   grants are below one more than what was earned, and above one less unless the cap bound.
   */
  lemma GrantsTrackEarnings(b: Bucket, cap: real, calls: seq<Call>)
    requires cap >= 0.0 && 0.0 <= b.credit < 1.0
    requires forall c :: c in calls ==> c.rate >= 0.0
    ensures TotalGranted(b, cap, calls) as real < 1.0 + TotalEarned(b, calls)
    ensures CapNeverBinds(b, cap, calls) ==> TotalEarned(b, calls) - 1.0 < TotalGranted(b, cap, calls) as real
  {
    hide TotalGranted, TotalEarned, After, CapNeverBinds;
    Ledger(b, cap, calls);
    if calls == [] {
      NoCalls(b, cap);
    }
  }

  lemma NoCalls(b: Bucket, cap: real)
    ensures TotalGranted(b, cap, []) == 0 && TotalEarned(b, []) == 0.0 && After(b, cap, []) == b
  {
  }

  // ---- The worker loop

  /** The two clock readings of one turn: time since the start, and the limiter's clock. */
  datatype Turn = Turn(elapsed: real, clock: real)

  /** The turns the worker takes: until the run's duration is over. */
  function Taken(turns: seq<Turn>, duration: real): seq<Turn> {
    if turns == [] || turns[0].elapsed >= duration then [] else [turns[0]] + Taken(turns[1..], duration)
  }

  function CallsOf(turns: seq<Turn>, rate: real -> real): (calls: seq<Call>)
    ensures |calls| == |turns|
  {
    seq(|turns|, i requires 0 <= i < |turns| => Call(turns[i].clock, rate(turns[i].elapsed)))
  }

  /** How many calls grant anything. */
  function GrantingCalls(b: Bucket, cap: real, calls: seq<Call>): nat
    decreases calls
  {
    if calls == [] then 0
    else (if Granted(b, cap, calls[0]) > 0 then 1 else 0) + GrantingCalls(Next(b, cap, calls[0]), cap, calls[1..])
  }

  /** A call that grants anything grants at least one. */
  lemma {:induction false} GrantsAtLeastOne(b: Bucket, cap: real, calls: seq<Call>)
    requires cap >= 0.0 && 0.0 <= b.credit
    requires forall c :: c in calls ==> c.rate >= 0.0
    ensures GrantingCalls(b, cap, calls) <= TotalGranted(b, cap, calls)
    decreases |calls|
  {
    hide Granted, Next;
    if calls != [] {
      CallBounds(b, cap, calls[0]);
      GrantsAtLeastOne(Next(b, cap, calls[0]), cap, calls[1..]);
    }
  }

  /** The sizes of the first n traces, summed. */
  function SpansIn(sizes: nat -> nat, n: nat): nat {
    if n == 0 then 0 else SpansIn(sizes, n - 1) + sizes(n - 1)
  }

  const MIN_SPANS := 2
  const MAX_SPANS := 8

  /** Emit whole traces until the allowance is spent; only the last one can overshoot. */
  method EmitAllowance(allowance: int, traces: nat, sizes: nat -> nat) returns (emitted: nat, now: nat)
    requires allowance > 0 && forall i :: MIN_SPANS <= sizes(i) <= MAX_SPANS
    ensures now >= traces && SpansIn(sizes, now) == SpansIn(sizes, traces) + emitted
    ensures allowance <= emitted <= allowance + MAX_SPANS - 1
  {
    emitted, now := 0, traces;
    while emitted < allowance
      invariant now >= traces && SpansIn(sizes, now) == SpansIn(sizes, traces) + emitted
      invariant emitted <= allowance + MAX_SPANS - 1
      decreases allowance - emitted
    {
      emitted := emitted + sizes(now);
      now := now + 1;
    }
  }

  /** The limiter's default cap. */
  const MAX_BURST_CREDIT := 5000.0

  /**
   The worker: a fresh limiter, and a loop over the clock readings of its turns. It emits at least
   what it was granted and at most seven spans more for each turn that granted anything; so what it
   emits tracks what its rate earned, within one span below unless the cap bound, and within one
   span and seven per granting turn above.
   */
  method RunWorker(begin: real, turns: seq<Turn>, duration: real, rate: real -> real, sizes: nat -> nat)
    returns (spans: nat, traces: nat)
    requires forall i :: MIN_SPANS <= sizes(i) <= MAX_SPANS
    requires forall t :: t in turns ==> rate(t.elapsed) >= 0.0
    ensures spans == SpansIn(sizes, traces)
    ensures var b, cap, calls := Bucket(begin, 0.0), MAX_BURST_CREDIT, CallsOf(Taken(turns, duration), rate);
            && TotalGranted(b, cap, calls) <= spans
            && spans <= TotalGranted(b, cap, calls) + (MAX_SPANS - 1) * GrantingCalls(b, cap, calls)
            && spans <= MAX_SPANS * TotalGranted(b, cap, calls)
            && spans as real < 1.0 + TotalEarned(b, calls) + 7.0 * GrantingCalls(b, cap, calls) as real
            && CappedEarnings(begin, cap, calls) - 1.0 < spans as real
            && (CapNeverBinds(b, cap, calls) ==> TotalEarned(b, calls) - 1.0 < spans as real)
  {
    hide After, TotalGranted, TotalEarned, GrantingCalls, CapNeverBinds, Granted, Next, Taken, SpansIn, CallsOf;
    var limiter := new RateLimiter(MAX_BURST_CREDIT, begin);
    spans, traces := 0, 0;
    ghost var b, cap := limiter.State(), limiter.maxBurstCredit;
    var i := 0;
    ghost var done: seq<Turn> := [];
    NoTurns(b, cap, turns, duration, rate, sizes);
    while i < |turns| && turns[i].elapsed < duration
      invariant 0 <= i <= |turns| && done == turns[..i]
      invariant Taken(turns, duration) == done + Taken(turns[i..], duration)
      invariant limiter.State() == After(b, cap, CallsOf(done, rate)) && limiter.credit >= 0.0
      invariant spans == SpansIn(sizes, traces)
      invariant TotalGranted(b, cap, CallsOf(done, rate)) <= spans
      invariant spans <= TotalGranted(b, cap, CallsOf(done, rate))
                         + (MAX_SPANS - 1) * GrantingCalls(b, cap, CallsOf(done, rate))
      decreases |turns| - i
    {
      var turn := turns[i];
      ghost var c := Call(turn.clock, rate(turn.elapsed));
      ghost var calls := CallsOf(done, rate);
      OneMoreTurn(turns, i, duration, done, rate);
      OneMoreCall(b, cap, calls, c);
      CallBounds(limiter.State(), cap, c);
      var allowance := limiter.Acquire(turn.clock, rate(turn.elapsed));
      if allowance > 0 {
        var emitted, now := EmitAllowance(allowance, traces, sizes);
        spans, traces := spans + emitted, now;
      }
      done := done + [turn];
      i := i + 1;
    }
    LastTurn(turns, i, duration);
    assert done + [] == done;
    RatesAreNonNegative(done, rate);
    GrantsAtLeastOne(b, cap, CallsOf(done, rate));
    EmissionTracksEarnings(b, cap, CallsOf(done, rate), spans);
  }

  lemma RatesAreNonNegative(turns: seq<Turn>, rate: real -> real)
    requires forall t :: t in turns ==> rate(t.elapsed) >= 0.0
    ensures forall c :: c in CallsOf(turns, rate) ==> c.rate >= 0.0
  {
  }

  lemma NoTurns(b: Bucket, cap: real, turns: seq<Turn>, duration: real, rate: real -> real, sizes: nat -> nat)
    ensures CallsOf([], rate) == [] && After(b, cap, []) == b
    ensures TotalGranted(b, cap, []) == 0 && GrantingCalls(b, cap, []) == 0 && SpansIn(sizes, 0) == 0
    ensures turns[..0] == [] && turns[0..] == turns && [] + Taken(turns, duration) == Taken(turns, duration)
  {
  }

  lemma OneMoreTurn(turns: seq<Turn>, i: nat, duration: real, done: seq<Turn>, rate: real -> real)
    requires i < |turns| && turns[i].elapsed < duration && done == turns[..i]
    ensures CallsOf(done + [turns[i]], rate) == CallsOf(done, rate) + [Call(turns[i].clock, rate(turns[i].elapsed))]
    ensures done + Taken(turns[i..], duration) == (done + [turns[i]]) + Taken(turns[i + 1..], duration)
    ensures done + [turns[i]] == turns[..i + 1]
  {
    assert turns[i..][1..] == turns[i + 1..];
  }

  lemma LastTurn(turns: seq<Turn>, i: nat, duration: real)
    requires i == |turns| || (i < |turns| && turns[i].elapsed >= duration)
    ensures Taken(turns[i..], duration) == []
  {
  }

  lemma {:induction false} OneMoreCall(b: Bucket, cap: real, calls: seq<Call>, c: Call)
    ensures var end := After(b, cap, calls);
            && After(b, cap, calls + [c]) == Next(end, cap, c)
            && TotalGranted(b, cap, calls + [c]) == TotalGranted(b, cap, calls) + Granted(end, cap, c)
            && GrantingCalls(b, cap, calls + [c])
               == GrantingCalls(b, cap, calls) + (if Granted(end, cap, c) > 0 then 1 else 0)
    decreases |calls|
  {
    hide Granted;
    if calls == [] {
      assert calls + [c] == [c];
      assert [c][1..] == [];
    } else {
      assert (calls + [c])[1..] == calls[1..] + [c];
      OneMoreCall(Next(b, cap, calls[0]), cap, calls[1..], c);
    }
  }

  /** Emission that tracks the grants tracks the earnings. */
  lemma EmissionTracksEarnings(b: Bucket, cap: real, calls: seq<Call>, spans: nat)
    requires cap >= 0.0 && 0.0 <= b.credit < 1.0
    requires forall c :: c in calls ==> c.rate >= 0.0
    requires TotalGranted(b, cap, calls) <= spans
    requires spans <= TotalGranted(b, cap, calls) + (MAX_SPANS - 1) * GrantingCalls(b, cap, calls)
    ensures spans as real < 1.0 + TotalEarned(b, calls) + 7.0 * GrantingCalls(b, cap, calls) as real
    ensures b.credit + CappedEarnings(b.last, cap, calls) - 1.0 < spans as real
    ensures CapNeverBinds(b, cap, calls) ==> TotalEarned(b, calls) - 1.0 < spans as real
  {
    hide TotalGranted, TotalEarned, GrantingCalls, CapNeverBinds, CappedEarnings, After;
    GrantsTrackEarnings(b, cap, calls);
    StallsCostTheExcess(b, cap, calls);
    Ledger(b, cap, calls);
    if calls == [] {
      NoCalls(b, cap);
    }
  }
}
