/** The load profile's target rate, and how far its one-second sum is from its integral. */
module TargetIntegral {
  import opened RealArithmetic

  datatype Profile = Steady | Burst | Ramp

  /** Python's `%` on floats. */
  function Mod(x: real, p: real): real
    requires p != 0.0
  {
    x - p * (x / p).Floor as real
  }

  datatype LoadProfile = LoadProfile(
    profile: Profile, sustained: int, burst: int, burstPeriod: real, burstDuration: real, rampDuration: real)
  {
    /** The profile's own division does not raise. */
    predicate Divides() {
      (profile.Burst? ==> burstPeriod != 0.0) && (profile.Ramp? ==> rampDuration != 0.0)
    }

    /** Where a ramp begins: a tenth of the sustained rate. */
    function Low(): real {
      sustained as real * 0.1
    }

    function TargetRate(elapsed: real): real
      requires Divides()
    {
      match profile
      case Steady => sustained as real
      case Burst =>
        if Mod(elapsed, burstPeriod) < burstDuration then burst as real else sustained as real
      case Ramp =>
        Low() + (burst as real - Low()) * MinReal(1.0, elapsed / rampDuration)
    }
  }

  // ---- The sum

  /** The terms of the sum from second n on. */
  function SumFrom(p: LoadProfile, elapsed: real, share: real, n: nat): real
    requires p.Divides()
    decreases if n as real < elapsed then (elapsed - n as real).Floor + 1 else 0
  {
    if n as real >= elapsed then 0.0
    else
      p.TargetRate(n as real) * share * MinReal(1.0, elapsed - n as real) + SumFrom(p, elapsed, share, n + 1)
  }

  /** Approximate the spans a worker should have produced, in one-second steps. */
  method IntegrateTarget(p: LoadProfile, elapsed: real, share: real) returns (total: real)
    requires p.Divides()
    ensures total == SumFrom(p, elapsed, share, 0)
  {
    hide LoadProfile.TargetRate;
    total := 0.0;
    var t := 0.0;
    ghost var n: nat := 0;
    while t < elapsed
      invariant t == n as real
      invariant total + SumFrom(p, elapsed, share, n) == SumFrom(p, elapsed, share, 0)
      decreases if n as real < elapsed then (elapsed - n as real).Floor + 1 else 0
    {
      var span := MinReal(1.0, elapsed - t);
      total := total + p.TargetRate(t) * share * span;
      t := t + 1.0;
      n := n + 1;
    }
  }

  // ---- The integral

  /** f lies between lo and hi on [a, b). */
  ghost predicate Between(f: real -> real, a: real, b: real, lo: real, hi: real) {
    forall x :: a <= x < b ==> lo <= f(x) <= hi
  }

  /** F is the integral of f from 0: every lower and upper sum bounds its increments. */
  ghost predicate IsIntegral(F: real -> real, f: real -> real) {
    && F(0.0) == 0.0
    && forall a, b, lo, hi :: 0.0 <= a <= b && Between(f, a, b, lo, hi) ==>
         lo * (b - a) <= F(b) - F(a) <= hi * (b - a)
  }

  /** f is the profile's target rate. */
  ghost predicate IsRateOf(f: real -> real, p: LoadProfile) {
    p.Divides() && forall x :: x >= 0.0 ==> f(x) == p.TargetRate(x)
  }

  lemma ConstantIncrement(F: real -> real, f: real -> real, a: real, b: real, c: real)
    requires IsIntegral(F, f) && 0.0 <= a <= b && Between(f, a, b, c, c)
    ensures F(b) - F(a) == c * (b - a)
  {
  }

  // ---- One step of the sum against the integral

  /** What the integral has gained over the sum, from second n on. */
  ghost function Shortfall(p: LoadProfile, F: real -> real, elapsed: real, share: real, n: nat): real
    requires p.Divides()
  {
    share * (F(elapsed) - F(n as real)) - SumFrom(p, elapsed, share, n)
  }

  /** The shortfall of one cell, and the rest. */
  lemma ShortfallStep(p: LoadProfile, F: real -> real, elapsed: real, share: real, n: nat)
    requires p.Divides() && n as real < elapsed
    ensures var a := n as real;
            var b := MinReal(a + 1.0, elapsed);
            && 0.0 < b - a <= 1.0
            && Shortfall(p, F, elapsed, share, n)
               == share * (F(b) - F(a) - p.TargetRate(a) * (b - a))
                  + (if a + 1.0 <= elapsed then Shortfall(p, F, elapsed, share, n + 1) else 0.0)
  {
    hide LoadProfile.TargetRate;
    var a := n as real;
    var b := MinReal(a + 1.0, elapsed);
    var rate := p.TargetRate(a);
    assert MinReal(1.0, elapsed - a) == b - a;
    assert SumFrom(p, elapsed, share, n) == rate * share * (b - a) + SumFrom(p, elapsed, share, n + 1);
    assert rate * share * (b - a) == share * (rate * (b - a));
    assert share * (F(elapsed) - F(a)) == share * (F(elapsed) - F(b)) + share * (F(b) - F(a));
    assert share * (F(b) - F(a) - rate * (b - a)) == share * (F(b) - F(a)) - share * (rate * (b - a));
  }

  // ---- Steady load and whole-second bursts: no error

  /** The rate does not change within second n. */
  ghost predicate ConstantIn(f: real -> real, n: nat) {
    Between(f, n as real, n as real + 1.0, f(n as real), f(n as real))
  }

  lemma {:induction false} NoShortfall(
    p: LoadProfile, f: real -> real, F: real -> real, elapsed: real, share: real, n: nat)
    requires IsRateOf(f, p) && IsIntegral(F, f) && forall k :: ConstantIn(f, k)
    requires n as real <= elapsed
    ensures Shortfall(p, F, elapsed, share, n) == 0.0
    decreases (elapsed - n as real).Floor
  {
    hide LoadProfile.TargetRate;
    var a := n as real;
    if a < elapsed {
      var b := MinReal(a + 1.0, elapsed);
      ShortfallStep(p, F, elapsed, share, n);
      assert ConstantIn(f, n);
      assert Between(f, a, b, f(a), f(a));
      ConstantIncrement(F, f, a, b, f(a));
      assert F(b) - F(a) - p.TargetRate(a) * (b - a) == 0.0;
      assert share * (F(b) - F(a) - p.TargetRate(a) * (b - a)) == 0.0;
      if a + 1.0 <= elapsed {
        NoShortfall(p, f, F, elapsed, share, n + 1);
      }
    }
  }

  predicate Whole(x: real) {
    x == x.Floor as real
  }

  lemma IntProduct(a: int, b: int)
    ensures (a * b) as real == a as real * b as real
  {
  }

  /** What a quotient of whole seconds rounds to: k periods fit below n, and k + 1 reach past it. */
  lemma WholePeriods(period: real, n: nat, p: int, k: int)
    requires period > 0.0 && period == p as real && k == (n as real / period).Floor
    ensures k * p <= n && n + 1 <= (k + 1) * p
    ensures (k * p) as real == k as real * period && ((k + 1) * p) as real == (k as real + 1.0) * period
  {
    QuotientBounds(n as real, period, k as real + 1.0);
    IntProduct(k, p);
    IntProduct(k + 1, p);
  }

  /** Within a second, the phase of a whole-second period only moves by the fraction. */
  lemma PhaseWithinSecond(period: real, n: nat, x: real)
    requires period > 0.0 && Whole(period) && n as real <= x < n as real + 1.0
    ensures Whole(Mod(n as real, period)) && Mod(x, period) == Mod(n as real, period) + (x - n as real)
  {
    var p, t := period.Floor, n as real;
    var k := (t / period).Floor;
    WholePeriods(period, n, p, k);
    var low, high := k * p, (k + 1) * p;
    assert low as real <= x < high as real;
    QuotientFloor(x, period, k);
    assert Mod(t, period) == (n - low) as real;
  }

  /** With a whole-second period and duration the burst switches only on the second. */
  lemma BurstIsConstantPerSecond(p: LoadProfile, n: nat, x: real)
    requires p.profile.Burst? && p.burstPeriod > 0.0 && Whole(p.burstPeriod) && Whole(p.burstDuration)
    requires n as real <= x < n as real + 1.0
    ensures p.TargetRate(x) == p.TargetRate(n as real)
  {
    hide Mod;
    PhaseWithinSecond(p.burstPeriod, n, x);
    var phase := Mod(n as real, p.burstPeriod);
    assert phase < p.burstDuration <==> phase.Floor < p.burstDuration.Floor;
  }

  /** For steady load, and for bursts whose period and duration are whole seconds, the sum is the integral. */
  lemma SumIsExact(p: LoadProfile, f: real -> real, F: real -> real, elapsed: real, share: real)
    requires IsRateOf(f, p) && IsIntegral(F, f) && elapsed >= 0.0
    requires p.profile.Steady?
             || (p.profile.Burst? && p.burstPeriod > 0.0 && Whole(p.burstPeriod) && Whole(p.burstDuration))
    ensures SumFrom(p, elapsed, share, 0) == share * F(elapsed)
  {
    hide SumFrom, IsIntegral, Mod;
    forall n: nat
      ensures ConstantIn(f, n)
    {
      forall x | n as real <= x < n as real + 1.0
        ensures f(x) == f(n as real)
      {
        if p.profile.Burst? {
          BurstIsConstantPerSecond(p, n, x);
        }
      }
    }
    NoShortfall(p, f, F, elapsed, share, 0);
    StartsAtZero(F, f);
  }

  lemma StartsAtZero(F: real -> real, f: real -> real)
    requires IsIntegral(F, f)
    ensures F(0.0) == 0.0
  {
  }

  // ---- The integral of a straight line

  /** f rises along a straight line on [a, b). */
  ghost predicate Linear(f: real -> real, a: real, b: real, slope: real) {
    forall x :: a <= x < b ==> f(x) == f(a) + slope * (x - a)
  }

  function Trapezoid(fa: real, slope: real, length: real): real {
    length * fa + slope * (length * length) / 2.0
  }

  lemma TrapezoidHalves(fa: real, slope: real, h: real)
    ensures Trapezoid(fa, slope, h) + Trapezoid(fa + slope * h, slope, h) == Trapezoid(fa, slope, 2.0 * h)
  {
    var q := h * h;
    assert (2.0 * h) * (2.0 * h) == 4.0 * q;
    assert h * (fa + slope * h) == h * fa + slope * q;
    assert slope * (4.0 * q) == 4.0 * (slope * q);
  }

  lemma LinearHalves(f: real -> real, a: real, m: real, b: real, slope: real)
    requires a <= m < b && Linear(f, a, b, slope)
    ensures Linear(f, a, m, slope) && Linear(f, m, b, slope) && f(m) == f(a) + slope * (m - a)
  {
    assert f(m) == f(a) + slope * (m - a);
    forall x | m <= x < b
      ensures f(x) == f(m) + slope * (x - m)
    {
      assert slope * (x - a) == slope * (m - a) + slope * (x - m);
    }
  }

  /** The error a straight line of that length leaves after k halvings. */
  function ErrorBound(slope: real, length: real, k: nat): real {
    slope * (length * length) / 2.0 / Pow2(k)
  }

  lemma ErrorHalves(slope: real, h: real, k: nat)
    ensures 2.0 * ErrorBound(slope, h, k) == ErrorBound(slope, 2.0 * h, k + 1)
  {
    var p := Pow2(k);
    assert Pow2(k + 1) == 2.0 * p;
    var s := slope * (h * h);
    assert slope * ((2.0 * h) * (2.0 * h)) == 4.0 * s;
    Quarter(s, p);
  }

  lemma Quarter(s: real, p: real)
    requires p > 0.0
    ensures 2.0 * (s / 2.0 / p) == 4.0 * s / 2.0 / (2.0 * p)
  {
    var x, y := s / 2.0 / p, 4.0 * s / 2.0 / (2.0 * p);
    DivMul(s / 2.0, p);
    DivMul(4.0 * s / 2.0, 2.0 * p);
    assert y * (2.0 * p) == 2.0 * (y * p);
    assert y * p == s;
    assert (2.0 * x) * p == s;
    Sign(y - 2.0 * x, p);
    assert (y - 2.0 * x) * p == y * p - (2.0 * x) * p;
  }

  lemma OnTheLine(fa: real, slope: real, x: real, length: real)
    requires slope >= 0.0 && 0.0 <= x <= length
    ensures fa <= fa + slope * x <= fa + slope * length
  {
    MulLeq(0.0, x, slope);
    MulLeq(x, length, slope);
  }

  lemma LinearAt(f: real -> real, a: real, b: real, slope: real, x: real)
    requires Linear(f, a, b, slope) && a <= x < b
    ensures f(x) == f(a) + slope * (x - a)
  {
  }

  /** The first coarse bound: the line lies between its ends. */
  lemma LinearCoarse(F: real -> real, f: real -> real, a: real, b: real, slope: real)
    requires IsIntegral(F, f) && 0.0 <= a < b && slope >= 0.0 && Linear(f, a, b, slope)
    ensures f(a) * (b - a) <= F(b) - F(a) <= (f(a) + slope * (b - a)) * (b - a)
  {
    var hi := f(a) + slope * (b - a);
    forall x | a <= x < b
      ensures f(a) <= f(x) <= hi
    {
      LinearAt(f, a, b, slope, x);
      OnTheLine(f(a), slope, x - a, b - a);
    }
    assert Between(f, a, b, f(a), hi);
  }

  /** After k halvings the increment is known up to the error bound. */
  lemma {:induction false} LinearError(F: real -> real, f: real -> real, a: real, b: real, slope: real, k: nat)
    requires IsIntegral(F, f) && 0.0 <= a < b && slope >= 0.0 && Linear(f, a, b, slope)
    ensures var d := F(b) - F(a) - Trapezoid(f(a), slope, b - a);
            -ErrorBound(slope, b - a, k) <= d <= ErrorBound(slope, b - a, k)
    decreases k
  {
    var length := b - a;
    if k == 0 {
      LinearCoarse(F, f, a, b, slope);
      CoarseBound(f(a), slope, length);
    } else {
      hide Trapezoid, ErrorBound, IsIntegral, Linear, Pow2;
      var h := length / 2.0;
      var m := a + h;
      assert m - a == h && b - m == h && 2.0 * h == length;
      LinearHalves(f, a, m, b, slope);
      assert f(m) == f(a) + slope * h;
      LinearError(F, f, a, m, slope, k - 1);
      LinearError(F, f, m, b, slope, k - 1);
      TrapezoidHalves(f(a), slope, h);
      ErrorHalves(slope, h, k - 1);
      assert Trapezoid(f(a), slope, m - a) + Trapezoid(f(m), slope, b - m) == Trapezoid(f(a), slope, length);
      assert ErrorBound(slope, m - a, k - 1) == ErrorBound(slope, b - m, k - 1);
    }
  }

  lemma CoarseBound(fa: real, slope: real, length: real)
    ensures var e := ErrorBound(slope, length, 0);
            && fa * length == Trapezoid(fa, slope, length) - e
            && (fa + slope * length) * length == Trapezoid(fa, slope, length) + e
  {
    var q := slope * (length * length);
    assert Pow2(0) == 1.0;
    assert (fa + slope * length) * length == fa * length + q;
  }

  lemma SquareIsNonNegative(slope: real, length: real)
    requires slope >= 0.0
    ensures slope * (length * length) / 2.0 >= 0.0
  {
    assert length * length >= 0.0;
  }

  /** The integral of a straight line is its trapezoid. */
  lemma LinearIncrement(F: real -> real, f: real -> real, a: real, b: real, slope: real)
    requires IsIntegral(F, f) && 0.0 <= a <= b && slope >= 0.0 && Linear(f, a, b, slope)
    ensures F(b) - F(a) == Trapezoid(f(a), slope, b - a)
  {
    hide IsIntegral, Linear, Pow2;
    if a < b {
      hide Trapezoid;
      var d := F(b) - F(a) - Trapezoid(f(a), slope, b - a);
      var c := slope * ((b - a) * (b - a)) / 2.0;
      SquareIsNonNegative(slope, b - a);
      forall k: nat
        ensures -(c / Pow2(k)) <= d <= c / Pow2(k)
      {
        LinearError(F, f, a, b, slope, k);
      }
      ArchimedeanZero(d, c);
    }
  }

  // ---- Ramps

  /** A ramp that climbs, or at least does not fall. */
  predicate Climbs(p: LoadProfile) {
    p.profile.Ramp? && p.rampDuration > 0.0 && p.burst as real >= p.Low()
  }

  function Climb(p: LoadProfile): real {
    p.burst as real - p.Low()
  }

  function Slope(p: LoadProfile): real
    requires p.rampDuration != 0.0
  {
    Climb(p) / p.rampDuration
  }

  lemma QuotientAtMostOne(x: real, p: real)
    requires p > 0.0
    ensures x / p <= 1.0 <==> x <= p
    ensures x >= 0.0 ==> x / p >= 0.0
  {
    DivMul(x, p);
    MulLess(x / p, 1.0, p);
    MulLess(0.0, x / p, p);
  }

  lemma QuotientTimes(c: real, x: real, p: real)
    requires p > 0.0
    ensures c * (x / p) == (c / p) * x
  {
    DivMul(x, p);
    DivMul(c, p);
    var q, r := x / p, c / p;
    assert c * q == (r * p) * q;
    assert (r * p) * q == r * (q * p);
  }

  lemma SlopeIsNonNegative(p: LoadProfile)
    requires Climbs(p)
    ensures Slope(p) >= 0.0 && Slope(p) * p.rampDuration == Climb(p)
  {
    QuotientAtMostOne(Climb(p), p.rampDuration);
    DivMul(Climb(p), p.rampDuration);
  }

  /** Up to the ramp's end the rate is a straight line, and from there on the burst rate. */
  lemma RampRate(p: LoadProfile, f: real -> real, x: real)
    requires Climbs(p) && IsRateOf(f, p) && x >= 0.0
    ensures x <= p.rampDuration ==> f(x) == p.Low() + Slope(p) * x
    ensures x >= p.rampDuration ==> f(x) == p.burst as real
  {
    QuotientAtMostOne(x, p.rampDuration);
    QuotientTimes(Climb(p), x, p.rampDuration);
    if x == p.rampDuration {
      DivMul(x, p.rampDuration);
      SlopeIsNonNegative(p);
    }
    assert f(x) == p.Low() + Climb(p) * MinReal(1.0, x / p.rampDuration);
  }

  /** Both cases in one line. */
  lemma RampRateCapped(p: LoadProfile, f: real -> real, x: real)
    requires Climbs(p) && IsRateOf(f, p) && x >= 0.0
    ensures f(x) == p.Low() + Slope(p) * MinReal(x, p.rampDuration)
  {
    hide IsRateOf, LoadProfile.TargetRate, Slope;
    RampRate(p, f, x);
    SlopeIsNonNegative(p);
  }

  lemma RampIsMonotone(p: LoadProfile, f: real -> real, x: real, y: real)
    requires Climbs(p) && IsRateOf(f, p) && 0.0 <= x <= y
    ensures p.Low() <= f(x) <= f(y) <= p.burst as real
  {
    hide IsRateOf, LoadProfile.TargetRate, Slope;
    var r := p.rampDuration;
    SlopeIsNonNegative(p);
    RampRateCapped(p, f, x);
    RampRateCapped(p, f, y);
    OnTheLine(p.Low(), Slope(p), MinReal(x, r), MinReal(y, r));
    OnTheLine(p.Low(), Slope(p), MinReal(y, r), r);
  }

  lemma CellAlgebra(lo: real, hi: real, length: real, gain: real)
    requires lo <= hi && 0.0 <= length <= 1.0 && lo * length <= gain <= hi * length
    ensures 0.0 <= gain - lo * length <= hi - lo
  {
    var rise := hi - lo;
    MulLeq(length, 1.0, rise);
    assert 1.0 * rise == rise && length * rise == rise * length;
    assert hi * length - lo * length == rise * length;
  }

  /** One cell of a climbing ramp: the sum uses the lowest rate of the cell. */
  lemma RampCell(p: LoadProfile, f: real -> real, F: real -> real, a: real, b: real)
    requires Climbs(p) && IsRateOf(f, p) && IsIntegral(F, f) && 0.0 <= a < b <= a + 1.0
    ensures 0.0 <= F(b) - F(a) - f(a) * (b - a) <= f(b) - f(a)
  {
    hide IsRateOf, LoadProfile.TargetRate;
    forall x | a <= x < b
      ensures f(a) <= f(x) <= f(b)
    {
      RampIsMonotone(p, f, a, x);
      RampIsMonotone(p, f, x, b);
    }
    assert Between(f, a, b, f(a), f(b));
    RampIsMonotone(p, f, a, b);
    CellAlgebra(f(a), f(b), b - a, F(b) - F(a));
  }

  /** A cell that does not straddle the ramp's end. */
  lemma SmoothRampCell(p: LoadProfile, f: real -> real, F: real -> real, a: real, b: real)
    requires Climbs(p) && IsRateOf(f, p) && IsIntegral(F, f) && 0.0 <= a < b <= a + 1.0
    requires b <= p.rampDuration || a >= p.rampDuration
    ensures 0.0 <= F(b) - F(a) - f(a) * (b - a) <= (f(b) - f(a)) / 2.0
    ensures b <= p.rampDuration && b == a + 1.0 ==> F(b) - F(a) - f(a) * (b - a) == Slope(p) / 2.0
  {
    hide IsRateOf, LoadProfile.TargetRate, IsIntegral, Slope, Trapezoid, Linear;
    RampCell(p, f, F, a, b);
    RampRate(p, f, a);
    RampRate(p, f, b);
    if b <= p.rampDuration {
      SlopeIsNonNegative(p);
      RampIsLinear(p, f, a, b);
      LinearIncrement(F, f, a, b, Slope(p));
      TrapezoidAboveFloor(f(a), Slope(p), b - a);
      assert Slope(p) * b - Slope(p) * a == Slope(p) * (b - a);
    } else {
      FlatCell(p, f, F, a, b);
    }
  }

  /** What a line gains above its first value, over a cell of at most a second. */
  lemma TrapezoidAboveFloor(fa: real, s: real, length: real)
    requires s >= 0.0 && 0.0 <= length <= 1.0
    ensures 0.0 <= Trapezoid(fa, s, length) - fa * length <= s * length / 2.0
    ensures length == 1.0 ==> Trapezoid(fa, s, length) - fa * length == s / 2.0
  {
    SquareBelow(s, length);
    SquareIsNonNegative(s, length);
    assert length * fa == fa * length;
    assert Trapezoid(fa, s, length) - fa * length == s * (length * length) / 2.0;
  }

  lemma FlatCell(p: LoadProfile, f: real -> real, F: real -> real, a: real, b: real)
    requires Climbs(p) && IsRateOf(f, p) && IsIntegral(F, f) && 0.0 <= a < b && a >= p.rampDuration
    ensures F(b) - F(a) == f(a) * (b - a) && f(b) == f(a)
  {
    hide IsRateOf, LoadProfile.TargetRate;
    RampRate(p, f, a);
    RampRate(p, f, b);
    forall x | a <= x < b
      ensures f(a) <= f(x) <= f(a)
    {
      RampRate(p, f, x);
    }
    assert Between(f, a, b, f(a), f(a));
    ConstantIncrement(F, f, a, b, f(a));
  }

  lemma RampIsLinear(p: LoadProfile, f: real -> real, a: real, b: real)
    requires Climbs(p) && IsRateOf(f, p) && 0.0 <= a <= b <= p.rampDuration
    ensures Linear(f, a, b, Slope(p))
  {
    hide IsRateOf, LoadProfile.TargetRate;
    forall x | a <= x < b
      ensures f(x) == f(a) + Slope(p) * (x - a)
    {
      RampRate(p, f, a);
      RampRate(p, f, x);
      assert Slope(p) * x - Slope(p) * a == Slope(p) * (x - a);
    }
  }

  lemma SquareBelow(s: real, length: real)
    requires s >= 0.0 && 0.0 <= length <= 1.0
    ensures s * (length * length) <= s * length
    ensures length == 1.0 ==> s * (length * length) == s
  {
    var square := length * length;
    MulLeq(length, 1.0, length);
    assert square <= length;
    MulLeq(square, length, s);
  }

  lemma ShareScales(share: real, x: real, y: real)
    requires share >= 0.0 && 0.0 <= x <= y
    ensures 0.0 <= share * x <= share * y && share * x / 2.0 <= share * y / 2.0
  {
    MulLeq(x, y, share);
    MulLeq(0.0, x, share);
  }

  /** Adding one cell's shortfall to the rest's, each bounded by a fraction of its climb. */
  lemma AddShortfalls(share: real, gain: real, x: real, rest: real, y: real, z: real, part: real)
    requires share >= 0.0 && (part == 1.0 || part == 2.0) && z == x + y
    requires 0.0 <= gain <= x / part && 0.0 <= rest <= share * y / part
    ensures 0.0 <= share * gain + rest <= share * z / part
  {
    ShareScales(share, gain, x / part);
    ShareOfPart(share, x, part);
    Distribute(share, x, y, z);
    if part == 1.0 {
      assert share * z / 1.0 == share * x / 1.0 + share * y / 1.0;
    } else {
      assert share * z / 2.0 == share * x / 2.0 + share * y / 2.0;
    }
  }

  lemma Distribute(share: real, x: real, y: real, z: real)
    requires z == x + y
    ensures share * z == share * x + share * y
  {
  }

  lemma ShareOfPart(share: real, x: real, part: real)
    requires part > 0.0
    ensures share * (x / part) == share * x / part
  {
    DivMul(x, part);
    DivMul(share * x, part);
    var u, v := share * (x / part), share * x / part;
    assert u * part == share * ((x / part) * part);
    Sign(u - v, part);
    assert (u - v) * part == u * part - v * part;
  }

  /**
   The shortfall of a climbing ramp is never negative and never above what it has climbed; for a
   ramp of whole seconds, never above half of that.
   */
  lemma {:induction false} RampShortfall(
    p: LoadProfile, f: real -> real, F: real -> real, elapsed: real, share: real, n: nat,
    part: real, climbed: real)
    requires Climbs(p) && IsRateOf(f, p) && IsIntegral(F, f) && share >= 0.0
    requires part == 1.0 || (part == 2.0 && Whole(p.rampDuration))
    requires n as real <= elapsed && climbed == f(elapsed) - f(n as real)
    ensures 0.0 <= Shortfall(p, F, elapsed, share, n) <= share * climbed / part
    decreases (elapsed - n as real).Floor, 1
  {
    hide LoadProfile.TargetRate, IsIntegral, IsRateOf, Shortfall, Climbs, Whole, MinReal;
    RateDivides(p, f);
    if n as real < elapsed {
      var a, b := n as real, MinReal(n as real + 1.0, elapsed);
      CellShortfall(p, f, F, elapsed, share, n, part);
      RestShortfall(p, f, F, elapsed, share, n, part, b, f(elapsed) - f(b));
      var rest := if a + 1.0 <= elapsed then Shortfall(p, F, elapsed, share, n + 1) else 0.0;
      AddShortfalls(
        share, F(b) - F(a) - f(a) * (b - a), f(b) - f(a), rest, f(elapsed) - f(b), climbed, part);
    } else {
      NoSecondsLeft(p, F, elapsed, share, n);
      NothingLeft(share, climbed, part);
    }
  }

  /** What is left after second n. */
  lemma {:induction false} RestShortfall(
    p: LoadProfile, f: real -> real, F: real -> real, elapsed: real, share: real, n: nat,
    part: real, b: real, left: real)
    requires Climbs(p) && IsRateOf(f, p) && IsIntegral(F, f) && share >= 0.0
    requires part == 1.0 || (part == 2.0 && Whole(p.rampDuration))
    requires n as real < elapsed && b == MinReal(n as real + 1.0, elapsed) && left == f(elapsed) - f(b)
    ensures p.Divides()
    ensures var rest := if n as real + 1.0 <= elapsed then Shortfall(p, F, elapsed, share, n + 1) else 0.0;
            0.0 <= rest <= share * left / part
    decreases (elapsed - n as real).Floor, 0
  {
    hide LoadProfile.TargetRate, IsIntegral, IsRateOf, Shortfall, Climbs, Whole;
    RateDivides(p, f);
    if n as real + 1.0 <= elapsed {
      RampShortfall(p, f, F, elapsed, share, n + 1, part, left);
    } else {
      NothingLeft(share, left, part);
    }
  }

  lemma RateDivides(p: LoadProfile, f: real -> real)
    requires IsRateOf(f, p)
    ensures p.Divides()
  {
  }

  lemma CellShortfall(
    p: LoadProfile, f: real -> real, F: real -> real, elapsed: real, share: real, n: nat, part: real)
    requires Climbs(p) && IsRateOf(f, p) && IsIntegral(F, f)
    requires part == 1.0 || (part == 2.0 && Whole(p.rampDuration))
    requires n as real < elapsed
    ensures var a := n as real;
            var b := MinReal(a + 1.0, elapsed);
            var gain := F(b) - F(a) - f(a) * (b - a);
            && p.Divides()
            && 0.0 <= gain <= (f(b) - f(a)) / part
            && Shortfall(p, F, elapsed, share, n)
               == share * gain + (if a + 1.0 <= elapsed then Shortfall(p, F, elapsed, share, n + 1) else 0.0)
  {
    hide LoadProfile.TargetRate, IsIntegral, Shortfall;
    var a := n as real;
    ShortfallStep(p, F, elapsed, share, n);
    assert p.TargetRate(a) == f(a);
    RampCellPart(p, f, F, n, MinReal(a + 1.0, elapsed), part);
  }

  lemma NoSecondsLeft(p: LoadProfile, F: real -> real, elapsed: real, share: real, n: nat)
    requires p.Divides() && n as real == elapsed
    ensures Shortfall(p, F, elapsed, share, n) == 0.0
  {
    hide LoadProfile.TargetRate;
    NothingLeft(share, F(elapsed) - F(n as real), 1.0);
  }

  lemma NothingLeft(share: real, y: real, part: real)
    requires y == 0.0 && part > 0.0
    ensures share * y == 0.0 && share * y / part == 0.0
  {
  }

  lemma RampCellPart(p: LoadProfile, f: real -> real, F: real -> real, n: nat, b: real, part: real)
    requires Climbs(p) && IsRateOf(f, p) && IsIntegral(F, f)
    requires part == 1.0 || (part == 2.0 && Whole(p.rampDuration))
    requires n as real < b <= n as real + 1.0
    ensures 0.0 <= F(b) - F(n as real) - f(n as real) * (b - n as real) <= (f(b) - f(n as real)) / part
  {
    hide LoadProfile.TargetRate, IsIntegral, IsRateOf;
    if part == 1.0 {
      RampCell(p, f, F, n as real, b);
    } else {
      assert n + 1 <= p.rampDuration.Floor || n >= p.rampDuration.Floor;
      SmoothRampCell(p, f, F, n as real, b);
    }
  }

  /**
   A climbing ramp's sum is never above the integral, and below it by at most the whole climb times
   the share; for a ramp of whole seconds, by at most half of that, however long the run.
   */
  lemma RampErrorIsBounded(p: LoadProfile, f: real -> real, F: real -> real, elapsed: real, share: real)
    requires Climbs(p) && IsRateOf(f, p) && IsIntegral(F, f) && share >= 0.0 && elapsed >= 0.0
    ensures var error := share * F(elapsed) - SumFrom(p, elapsed, share, 0);
            && 0.0 <= error <= share * Climb(p)
            && (Whole(p.rampDuration) ==> error <= share * Climb(p) / 2.0)
  {
    hide SumFrom, IsIntegral, LoadProfile.TargetRate, Slope;
    StartsAtZero(F, f);
    assert Shortfall(p, F, elapsed, share, 0) == share * F(elapsed) - SumFrom(p, elapsed, share, 0);
    var error := Shortfall(p, F, elapsed, share, 0);
    var gained := f(elapsed) - f(0.0);
    RampIsMonotone(p, f, 0.0, elapsed);
    RampShortfall(p, f, F, elapsed, share, 0, 1.0, gained);
    PartOfClimb(error, share, gained, Climb(p), 1.0);
    if Whole(p.rampDuration) {
      RampShortfall(p, f, F, elapsed, share, 0, 2.0, gained);
      PartOfClimb(error, share, gained, Climb(p), 2.0);
    }
  }

  lemma PartOfClimb(error: real, share: real, gained: real, climb: real, part: real)
    requires share >= 0.0 && 0.0 <= gained <= climb && (part == 1.0 || part == 2.0)
    requires error <= share * gained / part
    ensures error <= share * climb / part
  {
    ShareScales(share, gained, climb);
  }

  // ---- Exactly when half the climb is enough

  /** Below the ramp's end each full second falls short by half its climb. */
  lemma {:induction false} FullSecondsFallShort(
    p: LoadProfile, f: real -> real, F: real -> real, elapsed: real, share: real, n: nat, m: nat)
    requires Climbs(p) && IsRateOf(f, p) && IsIntegral(F, f)
    requires n <= m && m as real <= p.rampDuration && m as real <= elapsed
    ensures Shortfall(p, F, elapsed, share, n)
            == (m - n) as real * (share * (Slope(p) / 2.0)) + Shortfall(p, F, elapsed, share, m)
    decreases m - n
  {
    hide LoadProfile.TargetRate, IsIntegral, Shortfall, Slope;
    if n < m {
      var a := n as real;
      FullSecondsFallShort(p, f, F, elapsed, share, n + 1, m);
      assert MinReal(a + 1.0, elapsed) == a + 1.0;
      ShortfallStep(p, F, elapsed, share, n);
      assert p.TargetRate(a) == f(a);
      SmoothRampCell(p, f, F, a, a + 1.0);
      var half := share * (Slope(p) / 2.0);
      assert (m - n) as real * half == half + (m - n - 1) as real * half;
    }
  }

  /** The second that straddles the ramp's end falls short by more than half its climb. */
  lemma StraddlingSecond(p: LoadProfile, f: real -> real, F: real -> real, a: real)
    requires Climbs(p) && IsRateOf(f, p) && IsIntegral(F, f)
    requires 0.0 <= a < p.rampDuration < a + 1.0
    ensures var d := p.rampDuration - a;
            F(a + 1.0) - F(a) - f(a) == Slope(p) * d - Slope(p) * (d * d) / 2.0
  {
    hide LoadProfile.TargetRate, IsIntegral, IsRateOf, Slope, Linear;
    var r := p.rampDuration;
    var d := r - a;
    var s := Slope(p);
    SlopeIsNonNegative(p);
    RampIsLinear(p, f, a, r);
    LinearIncrement(F, f, a, r, s);
    FlatCell(p, f, F, r, a + 1.0);
    RampRate(p, f, a);
    RampRate(p, f, r);
    assert f(r) == f(a) + s * d by {
      assert s * r - s * a == s * d;
    }
    StraddleAlgebra(f(a), s, d);
  }

  lemma StraddleAlgebra(fa: real, s: real, d: real)
    ensures Trapezoid(fa, s, d) + (fa + s * d) * (1.0 - d) - fa == s * d - s * (d * d) / 2.0
  {
    var x, q := s * d, s * (d * d);
    assert x * d == q;
    assert (fa + x) * (1.0 - d) == fa - fa * d + x - x * d;
    assert Trapezoid(fa, s, d) == d * fa + q / 2.0;
  }

  /** With a fractional second in the ramp, a run that ends just after it breaks the half bound. */
  lemma FractionalRampExceedsHalf(p: LoadProfile, f: real -> real, F: real -> real, share: real)
    returns (elapsed: real)
    requires Climbs(p) && IsRateOf(f, p) && IsIntegral(F, f) && share > 0.0
    requires !Whole(p.rampDuration) && Climb(p) > 0.0
    ensures elapsed >= 0.0 && share * F(elapsed) - SumFrom(p, elapsed, share, 0) > share * Climb(p) / 2.0
  {
    hide LoadProfile.TargetRate, IsIntegral, SumFrom, Slope;
    FloorBounds(p.rampDuration);
    var m: nat := p.rampDuration.Floor;
    var d := p.rampDuration - m as real;
    elapsed := m as real + 1.0;
    StartsAtZero(F, f);
    assert Shortfall(p, F, elapsed, share, 0) == share * F(elapsed) - SumFrom(p, elapsed, share, 0);
    FullSecondsFallShort(p, f, F, elapsed, share, 0, m);
    ShortfallStep(p, F, elapsed, share, m);
    assert p.TargetRate(m as real) == f(m as real);
    NoSecondsLeft(p, F, elapsed, share, m + 1);
    StraddlingSecond(p, f, F, m as real);
    SlopeIsNonNegative(p);
    ExceedsHalf(share, Slope(p), m as real, d, Climb(p));
  }

  lemma ExceedsHalf(share: real, s: real, m: real, d: real, climb: real)
    requires share > 0.0 && 0.0 < d < 1.0 && climb > 0.0 && s >= 0.0 && s * (m + d) == climb
    ensures m * (share * (s / 2.0)) + share * (s * d - s * (d * d) / 2.0) > share * climb / 2.0
  {
    var q := s * (d * d);
    var x := s * d;
    assert s == 0.0 ==> s * (m + d) == 0.0;
    MulLess(d, 1.0, d);
    MulLess(d * d, d, s);
    assert (d * d) * s == q && d * s == x;
    var y := s * m;
    assert climb == y + x;
    assert m * (share * (s / 2.0)) == share * y / 2.0;
    assert share * (x - q / 2.0) == share * x - share * q / 2.0;
    assert share * climb == share * y + share * x;
    MulLess(q, x, share);
    assert q * share == share * q && x * share == share * x;
  }

  /**
   The half bound exactly. The sum is within half the climb of the integral for every run length if
   and only if the ramp lasts a whole number of seconds, or does not climb at all.
   */
  lemma HalfBoundIff(p: LoadProfile, f: real -> real, F: real -> real, share: real)
    requires Climbs(p) && IsRateOf(f, p) && IsIntegral(F, f) && share > 0.0
    ensures (forall elapsed :: elapsed >= 0.0 ==>
               share * F(elapsed) - SumFrom(p, elapsed, share, 0) <= share * Climb(p) / 2.0)
            <==> Whole(p.rampDuration) || Climb(p) == 0.0
  {
    hide LoadProfile.TargetRate, IsIntegral, SumFrom;
    if Whole(p.rampDuration) || Climb(p) == 0.0 {
      forall elapsed | elapsed >= 0.0
        ensures share * F(elapsed) - SumFrom(p, elapsed, share, 0) <= share * Climb(p) / 2.0
      {
        RampErrorIsBounded(p, f, F, elapsed, share);
        if Climb(p) == 0.0 {
          assert share * Climb(p) == 0.0;
        }
      }
    } else {
      var elapsed := FractionalRampExceedsHalf(p, f, F, share);
    }
  }

  // ---- What a period and a ramp add up to

  /** Within its k-th period a burst profile's phase is the time since that period began. */
  lemma PhaseInPeriod(period: real, k: int, begin: real, x: real)
    requires period > 0.0 && begin == k as real * period && begin <= x < begin + period
    ensures Mod(x, period) == x - begin
  {
    assert (k as real + 1.0) * period == begin + period;
    QuotientFloor(x, period, k);
    assert period * k as real == begin;
  }

  /** Every period of a burst profile, wherever it starts, adds the burst and then the sustained rate. */
  lemma BurstPeriodTotal(p: LoadProfile, f: real -> real, F: real -> real, k: nat, begin: real)
    requires p.profile.Burst? && 0.0 <= p.burstDuration <= p.burstPeriod && p.burstPeriod > 0.0
    requires IsRateOf(f, p) && IsIntegral(F, f) && begin == k as real * p.burstPeriod
    ensures F(begin + p.burstPeriod) - F(begin)
            == p.burst as real * p.burstDuration + p.sustained as real * (p.burstPeriod - p.burstDuration)
  {
    hide Mod, IsIntegral;
    MulLeq(0.0, k as real, p.burstPeriod);
    var turn, end := begin + p.burstDuration, begin + p.burstPeriod;
    var high, low := p.burst as real, p.sustained as real;
    forall x | begin <= x < end
      ensures f(x) == if x < turn then high else low
    {
      PhaseInPeriod(p.burstPeriod, k, begin, x);
    }
    assert Between(f, begin, turn, high, high);
    assert Between(f, turn, end, low, low);
    ConstantIncrement(F, f, begin, turn, high);
    ConstantIncrement(F, f, turn, end, low);
  }

  /** A climbing ramp adds up to its duration at the mean of its first and last rate. */
  lemma RampTotal(p: LoadProfile, f: real -> real, F: real -> real)
    requires Climbs(p) && IsRateOf(f, p) && IsIntegral(F, f)
    ensures F(p.rampDuration) == p.rampDuration * ((p.Low() + p.burst as real) / 2.0)
  {
    hide IsRateOf, LoadProfile.TargetRate, IsIntegral, Slope;
    var r := p.rampDuration;
    StartsAtZero(F, f);
    SlopeIsNonNegative(p);
    RampRate(p, f, 0.0);
    RampIsLinear(p, f, 0.0, r);
    LinearIncrement(F, f, 0.0, r, Slope(p));
    MeanOfRamp(p.Low(), Slope(p), r, Climb(p));
  }

  lemma MeanOfRamp(low: real, slope: real, r: real, climb: real)
    requires slope * r == climb
    ensures Trapezoid(low, slope, r) == r * ((low + (low + climb)) / 2.0)
  {
    assert slope * (r * r) == climb * r;
  }
}
