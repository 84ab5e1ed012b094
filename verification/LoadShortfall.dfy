/** What a worker emits against the target it reports: the paced loop is a Riemann sum of the target rate. */
module LoadShortfall {
  import opened Pacing
  import opened RateIntegral
  import opened RealArithmetic
  import opened TargetIntegral

  // ---- The clock readings of a worker

  /**
   The clock is monotonic: a turn reads the time since the start after the limiter's last reading
   and before its next one.
   */
  predicate Clocks(from: real, started: real, turns: seq<Turn>)
    decreases turns
  {
    turns == [] || (
      && from <= turns[0].clock && 0.0 <= turns[0].elapsed
      && from - started <= turns[0].elapsed <= turns[0].clock - started
      && Clocks(turns[0].clock, started, turns[1..]))
  }

  function LastClock(from: real, turns: seq<Turn>): real
    decreases turns
  {
    if turns == [] then from else LastClock(turns[0].clock, turns[1..])
  }

  function LongestStep(from: real, turns: seq<Turn>): (r: real)
    ensures r >= 0.0
    decreases turns
  {
    if turns == [] then 0.0
    else MaxReal(turns[0].clock - from, LongestStep(turns[0].clock, turns[1..]))
  }

  lemma TurnsTaken(from: real, started: real, turns: seq<Turn>, duration: real)
    requires Clocks(from, started, turns)
    ensures Clocks(from, started, Taken(turns, duration))
    ensures forall t :: t in Taken(turns, duration) ==> t in turns
    decreases turns
  {
    if turns != [] && turns[0].elapsed < duration {
      TurnsTaken(turns[0].clock, started, turns[1..], duration);
      assert ([turns[0]] + Taken(turns[1..], duration))[1..] == Taken(turns[1..], duration);
    }
  }

  lemma RestOfCalls(turns: seq<Turn>, rate: real -> real)
    requires turns != []
    ensures var calls := CallsOf(turns, rate);
            calls[0] == Call(turns[0].clock, rate(turns[0].elapsed)) && calls[1..] == CallsOf(turns[1..], rate)
  {
  }

  lemma ElapsedIsNonNegative(from: real, started: real, turns: seq<Turn>)
    requires Clocks(from, started, turns)
    ensures forall t :: t in turns ==> t.elapsed >= 0.0
    decreases turns
  {
    if turns != [] {
      ElapsedIsNonNegative(turns[0].clock, started, turns[1..]);
    }
  }

  // ---- How much a rate changes

  /** v grows at least as much as f changes. */
  ghost predicate Varies(f: real -> real, v: real -> real) {
    forall x, y :: 0.0 <= x <= y ==> -(v(y) - v(x)) <= f(y) - f(x) <= v(y) - v(x)
  }

  function Abs(x: real): real {
    if x >= 0.0 then x else -x
  }

  /** How often a burst profile has switched by x. */
  function Switches(p: LoadProfile, x: real): int
    requires p.burstPeriod > 0.0
  {
    2 * (x / p.burstPeriod).Floor + if Mod(x, p.burstPeriod) < p.burstDuration then 0 else 1
  }

  /** Nothing for steady load, the height of every switch for bursts, the height climbed for a ramp. */
  function Variation(p: LoadProfile): real -> real
    requires Proper(p)
  {
    match p.profile
    case Steady => (x: real) => 0.0
    case Burst => (x: real) => Abs(p.burst as real - p.sustained as real) * Switches(p, x) as real
    case Ramp => (x: real) => Abs(Climb(p)) * MinReal(1.0, x / p.rampDuration)
  }

  /** How much the target rate has gone up and down by x. */
  function Swing(p: LoadProfile, x: real): real
    requires Proper(p)
  {
    Variation(p)(x) - Variation(p)(0.0)
  }

  lemma TimesAtLeast(d: real, n: int, x: real)
    requires -d <= x <= d && n >= 1
    ensures -(d * n as real) <= x <= d * n as real
  {
    MulLeq(1.0, n as real, d);
    assert n as real * d == d * n as real;
  }

  lemma FloorsGrow(x: real, y: real, p: real)
    requires p > 0.0 && x <= y
    ensures x / p <= y / p && (x / p).Floor <= (y / p).Floor
  {
    DivMul(x, p);
    DivMul(y, p);
    MulLess(x / p, y / p, p);
    FloorBounds(x / p);
    FloorBounds(y / p);
    assert ((x / p).Floor as real) < (y / p).Floor as real + 1.0;
  }

  lemma SwitchesGrow(p: LoadProfile, x: real, y: real)
    requires p.burstPeriod > 0.0 && x <= y
    ensures Switches(p, x) <= Switches(p, y)
    ensures Switches(p, x) == Switches(p, y) ==>
              (Mod(x, p.burstPeriod) < p.burstDuration <==> Mod(y, p.burstPeriod) < p.burstDuration)
  {
    var period := p.burstPeriod;
    QuotientBounds(x, period, (x / period).Floor as real + 1.0);
    QuotientBounds(y, period, (y / period).Floor as real + 1.0);
    FloorsGrow(x, y, period);
  }

  lemma BurstVaries(p: LoadProfile)
    requires Proper(p) && p.profile.Burst?
    ensures Varies(Rate(p), Variation(p))
  {
    hide Mod, Switches;
    var d := Abs(p.burst as real - p.sustained as real);
    forall x, y | 0.0 <= x <= y
      ensures -(Variation(p)(y) - Variation(p)(x)) <= Rate(p)(y) - Rate(p)(x) <= Variation(p)(y) - Variation(p)(x)
    {
      SwitchesGrow(p, x, y);
      var n := Switches(p, y) - Switches(p, x);
      assert Variation(p)(y) - Variation(p)(x) == d * n as real;
      if n > 0 {
        TimesAtLeast(d, n, Rate(p)(y) - Rate(p)(x));
      }
    }
  }

  lemma ScaledDifference(c: real, u: real, w: real)
    requires u <= w
    ensures -(Abs(c) * w - Abs(c) * u) <= c * w - c * u <= Abs(c) * w - Abs(c) * u
  {
    var d := w - u;
    assert c * w - c * u == c * d && Abs(c) * w - Abs(c) * u == Abs(c) * d;
    MulLeq(c, Abs(c), d);
    MulLeq(-Abs(c), c, d);
    assert -Abs(c) * d == -(Abs(c) * d);
  }

  lemma RampVaries(p: LoadProfile)
    requires Proper(p) && p.profile.Ramp?
    ensures Varies(Rate(p), Variation(p))
  {
    var r := p.rampDuration;
    forall x, y | 0.0 <= x <= y
      ensures -(Variation(p)(y) - Variation(p)(x)) <= Rate(p)(y) - Rate(p)(x) <= Variation(p)(y) - Variation(p)(x)
    {
      FloorsGrow(x, y, r);
      ScaledDifference(Climb(p), MinReal(1.0, x / r), MinReal(1.0, y / r));
    }
  }

  lemma RateVaries(p: LoadProfile)
    requires Proper(p)
    ensures Varies(Rate(p), Variation(p))
  {
    match p.profile
    case Steady =>
    case Burst => BurstVaries(p);
    case Ramp => RampVaries(p);
  }

  // ---- What the limiter earns is a Riemann sum

  /** What the values of a rate that swings from u to w add up to, at most, over the longest step. */
  function Tolerance(gap: real, u: real, w: real): real {
    gap * (w - u)
  }

  function Gained(length: real, rate: real): real {
    length * rate
  }

  /** One step: the rate at some moment of it, times its length, against the integral's gain. */
  lemma StepError(
    f: real -> real, F: real -> real, v: real -> real, a: real, b: real, at: real, length: real, gap: real)
    requires IsIntegral(F, f) && Varies(f, v) && 0.0 <= a <= at <= b && b - a == length <= gap
    ensures -Tolerance(gap, v(a), v(b)) <= Gained(length, f(at)) - (F(b) - F(a)) <= Tolerance(gap, v(a), v(b))
  {
    hide Varies;
    var w := v(b) - v(a);
    StaysAround(f, v, a, b, at);
    assert (f(at) - w) * (b - a) <= F(b) - F(a) <= (f(at) + w) * (b - a);
    LengthTimes(length, f(at), w, gap);
  }

  lemma StaysAround(f: real -> real, v: real -> real, a: real, b: real, at: real)
    requires Varies(f, v) && 0.0 <= a <= at <= b
    ensures v(a) <= v(b) && Between(f, a, b, f(at) - (v(b) - v(a)), f(at) + (v(b) - v(a)))
  {
    assert v(a) <= v(at) <= v(b);
    forall x | a <= x < b
      ensures f(at) - (v(b) - v(a)) <= f(x) <= f(at) + (v(b) - v(a))
    {
      assert v(a) <= v(x) <= v(b);
      assert x <= at || at <= x;
    }
  }

  lemma LengthTimes(length: real, rate: real, w: real, gap: real)
    requires w >= 0.0 && length <= gap
    ensures (rate - w) * length >= length * rate - gap * w && (rate + w) * length <= length * rate + gap * w
  {
    MulLeq(length, gap, w);
    assert (rate - w) * length == length * rate - length * w && (rate + w) * length == length * rate + length * w;
  }

  lemma TolerancesAdd(gap: real, u: real, w: real, x: real)
    ensures Tolerance(gap, u, w) + Tolerance(gap, w, x) == Tolerance(gap, u, x)
  {
    assert gap * (w - u) + gap * (x - w) == gap * (x - u);
  }

  lemma NoTolerance(gap: real, u: real)
    ensures Tolerance(gap, u, u) == 0.0
  {
  }

  lemma EarnedStep(from: real, turns: seq<Turn>, f: real -> real)
    requires turns != [] && from <= turns[0].clock
    ensures TotalEarned(Bucket(from, 0.0), CallsOf(turns, f))
            == Gained(turns[0].clock - from, f(turns[0].elapsed))
               + TotalEarned(Bucket(turns[0].clock, 0.0), CallsOf(turns[1..], f))
  {
    RestOfCalls(turns, f);
  }

  lemma {:induction false} RiemannSum(
    from: real, started: real, turns: seq<Turn>, f: real -> real, F: real -> real, v: real -> real, gap: real)
    requires IsIntegral(F, f) && Varies(f, v) && started <= from && Clocks(from, started, turns)
    requires LongestStep(from, turns) <= gap
    ensures var a, b := from - started, LastClock(from, turns) - started;
            var off := TotalEarned(Bucket(from, 0.0), CallsOf(turns, f)) - (F(b) - F(a));
            -Tolerance(gap, v(a), v(b)) <= off <= Tolerance(gap, v(a), v(b))
    decreases turns
  {
    hide IsIntegral, Varies, TotalEarned, CallsOf, Tolerance, Gained;
    if turns == [] {
      NothingEarned(Bucket(from, 0.0), f);
      NoTolerance(gap, v(from - started));
    } else {
      var clock := turns[0].clock;
      var a, m, b := from - started, clock - started, LastClock(from, turns) - started;
      EarnedStep(from, turns, f);
      StepError(f, F, v, a, m, turns[0].elapsed, clock - from, gap);
      RiemannSum(clock, started, turns[1..], f, F, v, gap);
      TolerancesAdd(gap, v(a), v(m), v(b));
    }
  }

  lemma NothingEarned(b: Bucket, f: real -> real)
    ensures TotalEarned(b, CallsOf([], f)) == 0.0
  {
  }

  /** The rate of a worker that gets a share of the target. */
  function Shared(p: LoadProfile, share: real): real -> real
    requires p.Divides()
  {
    (x: real) => p.TargetRate(x) * share
  }

  lemma {:induction false} ShareOfEarnings(b: Bucket, turns: seq<Turn>, p: LoadProfile, share: real)
    requires p.Divides()
    ensures TotalEarned(b, CallsOf(turns, Shared(p, share))) == share * TotalEarned(b, CallsOf(turns, Rate(p)))
    decreases turns
  {
    hide LoadProfile.TargetRate;
    if turns != [] {
      RestOfCalls(turns, Shared(p, share));
      RestOfCalls(turns, Rate(p));
      ShareOfEarnings(Bucket(turns[0].clock, 0.0), turns[1..], p, share);
      var time, rate := MaxReal(0.0, turns[0].clock - b.last), p.TargetRate(turns[0].elapsed);
      assert time * (rate * share) == share * (time * rate);
    }
  }

  /** The limiter is made a little before the worker takes the time, and its first turn earns for that too. */
  function HeadStart(begin: real, started: real, turns: seq<Turn>, p: LoadProfile): real
    requires p.Divides()
  {
    if turns == [] then 0.0 else (started - begin) * p.TargetRate(turns[0].elapsed)
  }

  lemma FirstTurn(begin: real, started: real, turns: seq<Turn>, p: LoadProfile)
    requires p.Divides() && begin <= started && Clocks(begin, started, turns)
    ensures Clocks(started, started, turns) && LongestStep(started, turns) <= LongestStep(begin, turns)
    ensures TotalEarned(Bucket(begin, 0.0), CallsOf(turns, Rate(p)))
            == TotalEarned(Bucket(started, 0.0), CallsOf(turns, Rate(p))) + HeadStart(begin, started, turns, p)
  {
    hide LoadProfile.TargetRate, TotalEarned, CallsOf;
    if turns == [] {
      NothingEarned(Bucket(begin, 0.0), Rate(p));
      NothingEarned(Bucket(started, 0.0), Rate(p));
    } else {
      EarnedStep(begin, turns, Rate(p));
      EarnedStep(started, turns, Rate(p));
      var rate, clock := p.TargetRate(turns[0].elapsed), turns[0].clock;
      assert (clock - begin) * rate == (clock - started) * rate + (started - begin) * rate;
    }
  }

  /** What the target rate adds up to until the limiter's last reading. */
  function Due(p: LoadProfile, share: real, started: real, turns: seq<Turn>): real
    requires Proper(p)
  {
    share * Integral(p)(LastClock(started, turns) - started)
  }

  /** What is earned is off by at most the rate's swing for as long as the longest step takes. */
  function Slack(p: LoadProfile, share: real, begin: real, started: real, turns: seq<Turn>): real
    requires Proper(p)
  {
    share * (LongestStep(begin, turns) * Swing(p, LastClock(started, turns) - started))
  }

  lemma EarningsFollowTheRate(begin: real, started: real, turns: seq<Turn>, p: LoadProfile, share: real)
    requires Proper(p) && share >= 0.0 && begin <= started && Clocks(begin, started, turns)
    ensures var off := TotalEarned(Bucket(begin, 0.0), CallsOf(turns, Shared(p, share)))
                       - Due(p, share, started, turns) - share * HeadStart(begin, started, turns, p);
            -Slack(p, share, begin, started, turns) <= off <= Slack(p, share, begin, started, turns)
  {
    hide LoadProfile.TargetRate, Integral, Variation, Rate, IsIntegral, Varies, LongestStep, Clocks, LastClock;
    hide TotalEarned, HeadStart, CallsOf;
    IntegralIsIntegral(p);
    RateVaries(p);
    FirstTurn(begin, started, turns, p);
    ShareOfEarnings(Bucket(begin, 0.0), turns, p, share);
    var gap, last := LongestStep(begin, turns), LastClock(started, turns) - started;
    RiemannSum(started, started, turns, Rate(p), Integral(p), Variation(p), gap);
    StartsAtNothing(p);
    var earned := TotalEarned(Bucket(started, 0.0), CallsOf(turns, Rate(p)));
    var off, slack := earned - Integral(p)(last), Tolerance(gap, Variation(p)(0.0), Variation(p)(last));
    assert -slack <= off <= slack;
    MulLeq(off, slack, share);
    MulLeq(-slack, off, share);
    ShareDistributes(share, earned, Integral(p)(last), HeadStart(begin, started, turns, p), slack);
  }

  lemma ShareDistributes(share: real, earned: real, due: real, head: real, slack: real)
    ensures share * (earned + head) - share * due - share * head == (earned - due) * share
    ensures slack * share == share * slack && -slack * share == -(share * slack)
  {
  }

  // ---- The cap

  lemma EarningBelow(b: Bucket, c: Call, step: real, peak: real)
    requires 0.0 <= c.rate <= peak && MaxReal(0.0, c.now - b.last) <= step
    ensures Earning(b, c) <= step * peak
  {
    var time := MaxReal(0.0, c.now - b.last);
    MulLeq(c.rate, peak, time);
    MulLeq(time, step, peak);
    assert Earning(b, c) == c.rate * time && peak * time == time * peak;
  }

  /** A step that earns at most one less than the cap never meets it. */
  lemma {:induction false} CapStaysClear(
    b: Bucket, cap: real, turns: seq<Turn>, rate: real -> real, peak: real, step: real)
    requires 0.0 <= b.credit < 1.0 && LongestStep(b.last, turns) <= step && step * peak + 1.0 <= cap && cap >= 0.0
    requires forall t :: t in turns ==> 0.0 <= rate(t.elapsed) <= peak
    ensures CapNeverBinds(b, cap, CallsOf(turns, rate))
    decreases turns
  {
    hide Granted, Earning, CallsOf, Available;
    if turns != [] {
      var c := Call(turns[0].clock, rate(turns[0].elapsed));
      RestOfCalls(turns, rate);
      assert turns[0] in turns;
      EarningBelow(b, c, step, peak);
      CallBounds(b, cap, c);
      CapStaysClear(Next(b, cap, c), cap, turns[1..], rate, peak, step);
    }
  }

  // ---- The worker's report

  lemma {:induction false} TargetIsNonNegative(p: LoadProfile, elapsed: real, share: real, n: nat)
    requires p.Divides() && share >= 0.0 && forall x :: x >= 0.0 ==> p.TargetRate(x) >= 0.0
    ensures SumFrom(p, elapsed, share, n) >= 0.0
    decreases if n as real < elapsed then (elapsed - n as real).Floor + 1 else 0
  {
    hide LoadProfile.TargetRate;
    if n as real < elapsed {
      TargetIsNonNegative(p, elapsed, share, n + 1);
      MulLeq(0.0, p.TargetRate(n as real), share);
      MulLeq(0.0, p.TargetRate(n as real) * share, MinReal(1.0, elapsed - n as real));
    }
  }

  /** How far the generator fell short of its own target, in percent. */
  function ShortfallPct(spans: nat, target: int): real {
    if target <= 0 then 0.0 else MaxReal(0.0, (1.0 - spans as real / target as real) * 100.0)
  }

  /** The percentage is that of the spans missing, and nothing when none are. */
  lemma ShortfallInSpans(spans: nat, target: nat)
    ensures ShortfallPct(spans, target) * target as real
            == if spans < target then 100.0 * (target as real - spans as real) else 0.0
  {
    if target > 0 {
      var t, n := target as real, spans as real;
      DivMul(n, t);
      assert (1.0 - n / t) * 100.0 * t == 100.0 * (t - (n / t) * t);
      MulLess(n / t, 1.0, t);
    }
  }

  /**
   Steady load: the rate never swings and the reported target is exact, so a worker whose longest
   step earns no more than the cap less one falls short by less than one span and what the rate was
   due after the limiter's last reading.
   */
  lemma SteadyShortfall(
    begin: real, started: real, turns: seq<Turn>, p: LoadProfile, share: real, generation: real,
    spans: nat, target: nat)
    requires p.profile.Steady? && p.sustained as real >= 0.0 && share >= 0.0
    requires begin <= started && Clocks(begin, started, turns) && LastClock(started, turns) - started <= generation
    requires var b, calls := Bucket(begin, 0.0), CallsOf(turns, Shared(p, share));
             CapNeverBinds(b, MAX_BURST_CREDIT, calls) ==>
               target as real - spans as real
               < 1.0 + Slack(p, share, begin, started, turns)
                 + (SumFrom(p, generation, share, 0) - Due(p, share, started, turns))
    requires LongestStep(begin, turns) * (p.sustained as real * share) + 1.0 <= MAX_BURST_CREDIT
    ensures var rate, late := p.sustained as real * share, generation - (LastClock(started, turns) - started);
            && target as real - spans as real < 1.0 + rate * late
            && ShortfallPct(spans, target) * target as real <= 100.0 * (1.0 + rate * late)
  {
    hide SumFrom, LongestStep, CallsOf, CapNeverBinds, Clocks, ShortfallPct, LastClock;
    var rate, last := p.sustained as real, LastClock(started, turns) - started;
    var late := generation - last;
    MulLeq(0.0, rate, share);
    CapStaysClear(
      Bucket(begin, 0.0), MAX_BURST_CREDIT, turns, Shared(p, share), rate * share, LongestStep(begin, turns));
    LastIsLater(begin, started, turns);
    SumIsTheIntegral(p, generation, share);
    NoSwing(p, share, begin, started, turns);
    DueLater(share, rate, last, generation);
    assert SumFrom(p, generation, share, 0) - Due(p, share, started, turns) == rate * share * late;
    ShortfallInSpans(spans, target);
  }

  lemma DueLater(share: real, rate: real, last: real, generation: real)
    requires rate * share >= 0.0 && last <= generation
    ensures share * (rate * generation) - share * (rate * last) == rate * share * (generation - last)
    ensures rate * share * (generation - last) >= 0.0
  {
    MulLeq(last, generation, rate * share);
    assert share * (rate * generation) == generation * (rate * share);
    assert share * (rate * last) == last * (rate * share);
  }

  lemma LastIsLater(begin: real, started: real, turns: seq<Turn>)
    requires begin <= started && Clocks(begin, started, turns)
    ensures LastClock(started, turns) >= started
  {
    if turns != [] {
      ClockMovesOn(turns[0].clock, started, turns[1..]);
    }
  }

  lemma {:induction false} ClockMovesOn(from: real, started: real, turns: seq<Turn>)
    requires Clocks(from, started, turns)
    ensures LastClock(from, turns) >= from
    decreases turns
  {
    if turns != [] {
      ClockMovesOn(turns[0].clock, started, turns[1..]);
    }
  }

  lemma SteadyIsNonNegative(p: LoadProfile)
    requires p.profile.Steady? && forall x :: x >= 0.0 ==> p.TargetRate(x) >= 0.0
    ensures p.sustained as real >= 0.0
  {
    assert p.TargetRate(0.0) >= 0.0;
  }

  lemma NoSwing(p: LoadProfile, share: real, begin: real, started: real, turns: seq<Turn>)
    requires p.profile.Steady?
    ensures Slack(p, share, begin, started, turns) == 0.0
  {
    hide LongestStep, LastClock;
    assert Swing(p, LastClock(started, turns) - started) == 0.0;
  }

  /**
   The worker and its report: the paced loop, and then one integration of the target over the time it
   took. For every profile the spans emitted follow the integral of the target rate up to the
   limiter's last reading: above it by less than one span, seven for each granting turn, the head
   start and the slack; below it by less than one span and the slack, unless the cap bound. And they
   fall short of the reported target by no more than that and what the target gained after the last
   reading.
   */
  method RunAndReport(
    begin: real, started: real, turns: seq<Turn>, duration: real, p: LoadProfile, share: real,
    generation: real, sizes: nat -> nat)
    returns (spans: nat, traces: nat, target: int)
    requires forall i :: MIN_SPANS <= sizes(i) <= MAX_SPANS
    requires Proper(p) && share >= 0.0 && forall x :: x >= 0.0 ==> p.TargetRate(x) >= 0.0
    requires begin <= started && Clocks(begin, started, turns)
    requires LastClock(started, Taken(turns, duration)) - started <= generation
    ensures spans == SpansIn(sizes, traces)
    ensures target == Trunc(SumFrom(p, generation, share, 0))
    ensures var b, cap, taken := Bucket(begin, 0.0), MAX_BURST_CREDIT, Taken(turns, duration);
            var calls := CallsOf(taken, Shared(p, share));
            var due, slack := Due(p, share, started, taken), Slack(p, share, begin, started, taken);
            && spans as real < 1.0 + 7.0 * GrantingCalls(b, cap, calls) as real + due + slack
                               + share * HeadStart(begin, started, taken, p)
            && (CapNeverBinds(b, cap, calls) ==>
                  && due - slack - 1.0 < spans as real
                  && target as real - spans as real < 1.0 + slack + (SumFrom(p, generation, share, 0) - due))
    ensures var taken, rate := Taken(turns, duration), p.sustained as real * share;
            var late := generation - (LastClock(started, taken) - started);
            p.profile.Steady? && LongestStep(begin, taken) * rate + 1.0 <= MAX_BURST_CREDIT ==>
              && target as real - spans as real < 1.0 + rate * late
              && ShortfallPct(spans, target) * target as real <= 100.0 * (1.0 + rate * late)
  {
    hide LoadProfile.TargetRate, Integral, Variation, LongestStep, LastClock, HeadStart, CallsOf, TotalEarned;
    hide TotalGranted, GrantingCalls, CapNeverBinds, SumFrom, Due, Slack, SpansIn, Clocks, Trunc;
    SharedIsNonNegative(begin, started, turns, p, share);
    spans, traces := RunWorker(begin, turns, duration, Shared(p, share), sizes);
    var total := IntegrateTarget(p, generation, share);
    target := Trunc(total);
    ghost var taken := Taken(turns, duration);
    TurnsTaken(begin, started, turns, duration);
    EarningsFollowTheRate(begin, started, taken, p, share);
    HeadStartIsNonNegative(begin, started, taken, p, share);
    TargetIsNonNegative(p, generation, share, 0);
    TruncBounds(total);
    if p.profile.Steady? && LongestStep(begin, taken) * (p.sustained as real * share) + 1.0 <= MAX_BURST_CREDIT {
      SteadyIsNonNegative(p);
      SteadyShortfall(begin, started, taken, p, share, generation, spans, target);
    }
  }

  lemma SharedIsNonNegative(begin: real, started: real, turns: seq<Turn>, p: LoadProfile, share: real)
    requires p.Divides() && share >= 0.0 && forall x :: x >= 0.0 ==> p.TargetRate(x) >= 0.0
    requires Clocks(begin, started, turns)
    ensures forall t :: t in turns ==> Shared(p, share)(t.elapsed) >= 0.0
  {
    hide LoadProfile.TargetRate;
    ElapsedIsNonNegative(begin, started, turns);
    forall t | t in turns
      ensures Shared(p, share)(t.elapsed) >= 0.0
    {
      MulLeq(0.0, p.TargetRate(t.elapsed), share);
    }
  }

  lemma HeadStartIsNonNegative(begin: real, started: real, turns: seq<Turn>, p: LoadProfile, share: real)
    requires p.Divides() && share >= 0.0 && forall x :: x >= 0.0 ==> p.TargetRate(x) >= 0.0
    requires begin <= started && Clocks(begin, started, turns)
    ensures share * HeadStart(begin, started, turns, p) >= 0.0
  {
    hide LoadProfile.TargetRate;
    if turns != [] {
      MulLeq(0.0, p.TargetRate(turns[0].elapsed), started - begin);
      MulLeq(0.0, HeadStart(begin, started, turns, p), share);
    }
  }
}
