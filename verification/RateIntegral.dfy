/** The integral of the target rate in closed form, and the error of the one-second sum against it. */
module RateIntegral {
  import opened RealArithmetic
  import opened TargetIntegral

  /** The profiles whose rate is defined by a period or a duration that is one. */
  predicate Proper(p: LoadProfile) {
    (p.profile.Burst? ==> p.burstPeriod > 0.0) && (p.profile.Ramp? ==> p.rampDuration > 0.0)
  }

  function Rate(p: LoadProfile): real -> real
    requires p.Divides()
  {
    (x: real) => p.TargetRate(x)
  }

  /** How much of each period is burst. */
  function BurstPart(p: LoadProfile): (d: real)
    requires p.burstPeriod > 0.0
    ensures 0.0 <= d <= p.burstPeriod
  {
    MinReal(MaxReal(p.burstDuration, 0.0), p.burstPeriod)
  }

  /** What the first y seconds of a period add. */
  function WithinPeriod(p: LoadProfile, y: real): real
    requires p.burstPeriod > 0.0
  {
    var d := BurstPart(p);
    if y <= d then p.burst as real * y else p.burst as real * d + p.sustained as real * (y - d)
  }

  function RampUpTo(p: LoadProfile, x: real): real
    requires p.rampDuration > 0.0
  {
    var r := p.rampDuration;
    if x <= r then Trapezoid(p.Low(), Slope(p), x)
    else Trapezoid(p.Low(), Slope(p), r) + p.burst as real * (x - r)
  }

  /** The integral of the rate from 0: a line, whole periods and a part of one, or a parabola and a line. */
  function Integral(p: LoadProfile): real -> real
    requires Proper(p)
  {
    match p.profile
    case Steady => (x: real) => p.sustained as real * x
    case Burst => (x: real) =>
      (x / p.burstPeriod).Floor as real * WithinPeriod(p, p.burstPeriod) + WithinPeriod(p, Mod(x, p.burstPeriod))
    case Ramp => (x: real) => RampUpTo(p, x)
  }

  // ---- Piece by piece

  /** Every lower and upper bound of f on [a, b) bounds the increment of F. */
  ghost predicate Respects(F: real -> real, f: real -> real, a: real, b: real) {
    forall lo, hi :: Between(f, a, b, lo, hi) ==> lo * (b - a) <= F(b) - F(a) <= hi * (b - a)
  }

  lemma Joined(F: real -> real, f: real -> real, a: real, m: real, b: real)
    requires a <= m <= b && Respects(F, f, a, m) && Respects(F, f, m, b)
    ensures Respects(F, f, a, b)
  {
    forall lo, hi | Between(f, a, b, lo, hi)
      ensures lo * (b - a) <= F(b) - F(a) <= hi * (b - a)
    {
      assert Between(f, a, m, lo, hi) && Between(f, m, b, lo, hi);
      assert lo * (b - a) == lo * (m - a) + lo * (b - m);
      assert hi * (b - a) == hi * (m - a) + hi * (b - m);
    }
  }

  /** The increment is the length times a value the rate takes. */
  lemma MeanValue(F: real -> real, f: real -> real, a: real, b: real, x: real)
    requires a <= b && (a < b ==> a <= x < b) && F(b) - F(a) == f(x) * (b - a)
    ensures Respects(F, f, a, b)
  {
    forall lo, hi | Between(f, a, b, lo, hi)
      ensures lo * (b - a) <= F(b) - F(a) <= hi * (b - a)
    {
      if a < b {
        MulLeq(lo, f(x), b - a);
        MulLeq(f(x), hi, b - a);
      }
    }
  }

  lemma Integrates(F: real -> real, f: real -> real)
    requires F(0.0) == 0.0 && forall a, b :: 0.0 <= a <= b ==> Respects(F, f, a, b)
    ensures IsIntegral(F, f)
  {
    forall a, b, lo, hi | 0.0 <= a <= b && Between(f, a, b, lo, hi)
      ensures lo * (b - a) <= F(b) - F(a) <= hi * (b - a)
    {
      assert Respects(F, f, a, b);
    }
  }

  // ---- Ramp

  lemma RampRespects(p: LoadProfile, a: real, b: real)
    requires p.profile.Ramp? && p.rampDuration > 0.0 && 0.0 <= a <= b
    ensures Respects(Integral(p), Rate(p), a, b)
  {
    var r := p.rampDuration;
    if b <= r {
      RampClimbs(p, a, b);
    } else if r <= a {
      RampStays(p, a, b);
    } else {
      RampClimbs(p, a, r);
      RampStays(p, r, b);
      Joined(Integral(p), Rate(p), a, r, b);
    }
  }

  lemma RampClimbs(p: LoadProfile, a: real, b: real)
    requires p.profile.Ramp? && p.rampDuration > 0.0 && 0.0 <= a <= b <= p.rampDuration
    ensures Respects(Integral(p), Rate(p), a, b)
  {
    var mid := (a + b) / 2.0;
    QuotientAtMostOne(mid, p.rampDuration);
    QuotientTimes(Climb(p), mid, p.rampDuration);
    assert Rate(p)(mid) == p.Low() + Slope(p) * mid;
    TrapezoidIncrement(p.Low(), Slope(p), a, b, mid);
    MeanValue(Integral(p), Rate(p), a, b, mid);
  }

  lemma TrapezoidIncrement(low: real, slope: real, a: real, b: real, mid: real)
    requires mid == (a + b) / 2.0
    ensures Trapezoid(low, slope, b) - Trapezoid(low, slope, a) == (low + slope * mid) * (b - a)
  {
    assert mid * (b - a) == (b * b - a * a) / 2.0;
    assert slope * mid * (b - a) == slope * (mid * (b - a));
    assert slope * (b * b - a * a) == slope * (b * b) - slope * (a * a);
  }

  lemma RampStays(p: LoadProfile, a: real, b: real)
    requires p.profile.Ramp? && p.rampDuration > 0.0 && p.rampDuration <= a <= b
    ensures Respects(Integral(p), Rate(p), a, b)
  {
    QuotientAtMostOne(a, p.rampDuration);
    if a > p.rampDuration {
      assert a / p.rampDuration > 1.0;
    } else {
      DivMul(a, p.rampDuration);
    }
    assert Rate(p)(a) == p.burst as real;
    var c := p.burst as real;
    assert c * (b - p.rampDuration) - c * (a - p.rampDuration) == c * (b - a);
    MeanValue(Integral(p), Rate(p), a, b, a);
  }

  // ---- Burst

  /** From one period's beginning to the next, both included. */
  lemma AtPhase(p: LoadProfile, k: nat, begin: real, x: real)
    requires p.profile.Burst? && p.burstPeriod > 0.0
    requires begin == k as real * p.burstPeriod && begin <= x <= begin + p.burstPeriod
    ensures Integral(p)(x) == k as real * WithinPeriod(p, p.burstPeriod) + WithinPeriod(p, x - begin)
    ensures x < begin + p.burstPeriod ==>
              Rate(p)(x) == if x - begin < BurstPart(p) then p.burst as real else p.sustained as real
  {
    hide WithinPeriod, Mod;
    var period, total := p.burstPeriod, WithinPeriod(p, p.burstPeriod);
    if x < begin + period {
      InPeriod(period, k, begin, x);
    } else {
      var next := begin + period;
      assert next == (k as real + 1.0) * period;
      InPeriod(period, k + 1, next, x);
      NothingAtPhaseZero(p);
      assert (k + 1) as real * total == k as real * total + total;
    }
  }

  lemma InPeriod(period: real, k: nat, begin: real, x: real)
    requires period > 0.0 && begin == k as real * period && begin <= x < begin + period
    ensures (x / period).Floor == k && Mod(x, period) == x - begin
  {
    assert (k as real + 1.0) * period == begin + period;
    QuotientFloor(x, period, k);
    PhaseInPeriod(period, k, begin, x);
  }

  lemma NothingAtPhaseZero(p: LoadProfile)
    requires p.burstPeriod > 0.0
    ensures WithinPeriod(p, 0.0) == 0.0
  {
  }

  /** Within one period: the burst, then the rest. */
  lemma PeriodRespects(p: LoadProfile, k: nat, begin: real, a: real, b: real)
    requires p.profile.Burst? && p.burstPeriod > 0.0
    requires begin == k as real * p.burstPeriod && begin <= a <= b <= begin + p.burstPeriod
    ensures Respects(Integral(p), Rate(p), a, b)
  {
    hide Respects;
    var turn := begin + BurstPart(p);
    if b <= turn || a >= turn {
      PieceRespects(p, k, begin, a, b);
    } else {
      PieceRespects(p, k, begin, a, turn);
      PieceRespects(p, k, begin, turn, b);
      Joined(Integral(p), Rate(p), a, turn, b);
    }
  }

  lemma PieceRespects(p: LoadProfile, k: nat, begin: real, a: real, b: real)
    requires p.profile.Burst? && p.burstPeriod > 0.0
    requires begin == k as real * p.burstPeriod && begin <= a <= b <= begin + p.burstPeriod
    requires b <= begin + BurstPart(p) || a >= begin + BurstPart(p)
    ensures Respects(Integral(p), Rate(p), a, b)
  {
    hide Integral, Rate, Respects;
    AtPhase(p, k, begin, a);
    AtPhase(p, k, begin, b);
    if a < b {
      PieceIncrement(p, a - begin, b - begin);
      MeanValue(Integral(p), Rate(p), a, b, a);
    } else {
      MeanValue(Integral(p), Rate(p), a, b, a);
    }
  }

  lemma PieceIncrement(p: LoadProfile, y: real, z: real)
    requires p.burstPeriod > 0.0 && 0.0 <= y < z && (z <= BurstPart(p) || y >= BurstPart(p))
    ensures WithinPeriod(p, z) - WithinPeriod(p, y)
            == (if y < BurstPart(p) then p.burst as real else p.sustained as real) * (z - y)
  {
    var d, high, low := BurstPart(p), p.burst as real, p.sustained as real;
    assert high * z - high * y == high * (z - y);
    assert low * (z - d) - low * (y - d) == low * (z - y);
  }

  lemma {:induction false} BurstRespects(p: LoadProfile, k: nat, begin: real, a: real, b: real, n: nat)
    requires p.profile.Burst? && p.burstPeriod > 0.0
    requires begin == k as real * p.burstPeriod && begin <= a < begin + p.burstPeriod && a <= b
    requires b <= begin + (n as real + 1.0) * p.burstPeriod
    ensures Respects(Integral(p), Rate(p), a, b)
    decreases n
  {
    hide Integral, Rate, Respects;
    var next := begin + p.burstPeriod;
    if b <= next {
      PeriodRespects(p, k, begin, a, b);
    } else if n == 0 {
      assert false;
    } else {
      assert (n as real + 1.0) * p.burstPeriod == p.burstPeriod + n as real * p.burstPeriod;
      assert next == (k + 1) as real * p.burstPeriod;
      PeriodRespects(p, k, begin, a, next);
      BurstRespects(p, k + 1, next, next, b, n - 1);
      Joined(Integral(p), Rate(p), a, next, b);
    }
  }

  lemma BurstRespectsAll(p: LoadProfile, a: real, b: real)
    requires p.profile.Burst? && p.burstPeriod > 0.0 && 0.0 <= a <= b
    ensures Respects(Integral(p), Rate(p), a, b)
  {
    hide Integral, Rate, Respects;
    var period := p.burstPeriod;
    var k, m := (a / period).Floor, (b / period).Floor;
    QuotientAtMostOne(a, period);
    QuotientAtMostOne(b, period);
    QuotientBounds(a, period, k as real + 1.0);
    QuotientBounds(b, period, m as real + 1.0);
    var begin := k as real * period;
    MulLeq(0.0, k as real, period);
    assert (k as real + 1.0) * period == begin + period;
    assert (m as real + 1.0) * period <= begin + (m as real + 1.0) * period;
    BurstRespects(p, k, begin, a, b, m);
  }

  // ---- The integral

  lemma SteadyRespects(p: LoadProfile, a: real, b: real)
    requires p.profile.Steady? && 0.0 <= a <= b
    ensures Respects(Integral(p), Rate(p), a, b)
  {
    var c := p.sustained as real;
    assert c * b - c * a == c * (b - a);
    MeanValue(Integral(p), Rate(p), a, b, a);
  }

  lemma StartsAtNothing(p: LoadProfile)
    requires Proper(p)
    ensures Integral(p)(0.0) == 0.0
  {
    if p.profile.Burst? {
      assert 0.0 == 0 as real * p.burstPeriod;
      AtPhase(p, 0, 0.0, 0.0);
    }
  }

  /** The closed form is the integral of the target rate, for every proper profile. */
  lemma IntegralIsIntegral(p: LoadProfile)
    requires Proper(p)
    ensures p.Divides() && IsRateOf(Rate(p), p) && IsIntegral(Integral(p), Rate(p))
  {
    hide Integral, Respects, LoadProfile.TargetRate;
    StartsAtNothing(p);
    forall a, b | 0.0 <= a <= b
      ensures Respects(Integral(p), Rate(p), a, b)
    {
      match p.profile
      case Steady => SteadyRespects(p, a, b);
      case Burst => BurstRespectsAll(p, a, b);
      case Ramp => RampRespects(p, a, b);
    }
    Integrates(Integral(p), Rate(p));
  }

  // ---- The one-second sum against the closed form

  /** Exact for steady load, and for bursts of whole seconds. */
  lemma SumIsTheIntegral(p: LoadProfile, elapsed: real, share: real)
    requires elapsed >= 0.0
    requires p.profile.Steady?
             || (p.profile.Burst? && p.burstPeriod > 0.0 && Whole(p.burstPeriod) && Whole(p.burstDuration))
    ensures SumFrom(p, elapsed, share, 0) == share * Integral(p)(elapsed)
  {
    hide SumFrom, Integral, Rate, IsIntegral, IsRateOf;
    IntegralIsIntegral(p);
    SumIsExact(p, Rate(p), Integral(p), elapsed, share);
  }

  /** What the sum of a ramp misses. */
  function RampError(p: LoadProfile, elapsed: real, share: real): real
    requires Climbs(p)
  {
    share * Integral(p)(elapsed) - SumFrom(p, elapsed, share, 0)
  }

  /**
   For a climbing ramp the sum never exceeds the integral and misses at most the whole climb times
   the share; it misses at most half of that for every run length if and only if the ramp lasts
   whole seconds, or does not climb.
   */
  lemma RampErrorExactly(p: LoadProfile, share: real)
    requires Climbs(p) && share > 0.0
    ensures forall elapsed :: elapsed >= 0.0 ==> 0.0 <= RampError(p, elapsed, share) <= share * Climb(p)
    ensures (forall elapsed :: elapsed >= 0.0 ==> RampError(p, elapsed, share) <= share * Climb(p) / 2.0)
            <==> Whole(p.rampDuration) || Climb(p) == 0.0
  {
    hide SumFrom, Integral, Rate, IsIntegral, IsRateOf;
    IntegralIsIntegral(p);
    forall elapsed | elapsed >= 0.0
      ensures 0.0 <= RampError(p, elapsed, share) <= share * Climb(p)
    {
      RampErrorIsBounded(p, Rate(p), Integral(p), elapsed, share);
    }
    HalfBoundIff(p, Rate(p), Integral(p), share);
    assert forall elapsed :: RampError(p, elapsed, share)
                             == share * Integral(p)(elapsed) - SumFrom(p, elapsed, share, 0);
  }

  /** A ramp from 1 to 11 spans a second in half a second: after one second the sum misses 7.5 of 8.5. */
  lemma HalfSecondRamp()
    ensures var p := LoadProfile(Ramp, 10, 11, 1.0, 1.0, 0.5);
            && Climbs(p) && Climb(p) == 10.0
            && Integral(p)(1.0) == 8.5 && SumFrom(p, 1.0, 1.0, 0) == 1.0
            && RampError(p, 1.0, 1.0) > Climb(p) / 2.0
  {
    var p := LoadProfile(Ramp, 10, 11, 1.0, 1.0, 0.5);
    assert p.Low() == 1.0 && Slope(p) == 20.0;
    assert p.TargetRate(0.0) == 1.0;
    assert SumFrom(p, 1.0, 1.0, 1) == 0.0;
  }
}
