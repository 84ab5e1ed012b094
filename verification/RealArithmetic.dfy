/** The few laws of real multiplication, division and rounding that the solver needs spelled out. */
module RealArithmetic {

  function MaxReal(x: real, y: real): real {
    if x >= y then x else y
  }

  function MinReal(x: real, y: real): real {
    if x <= y then x else y
  }

  lemma Sign(d: real, p: real)
    requires p > 0.0
    ensures d > 0.0 <==> d * p > 0.0
    ensures d == 0.0 <==> d * p == 0.0
  {
  }

  lemma MulLess(a: real, b: real, p: real)
    requires p > 0.0
    ensures a < b <==> a * p < b * p
    ensures a <= b <==> a * p <= b * p
  {
    Sign(b - a, p);
    assert (b - a) * p == b * p - a * p;
  }

  lemma MulLeq(a: real, b: real, p: real)
    requires p >= 0.0 && a <= b
    ensures a * p <= b * p
  {
    if p > 0.0 {
      MulLess(a, b, p);
    }
  }

  lemma DivMul(x: real, p: real)
    requires p != 0.0
    ensures (x / p) * p == x
  {
  }

  lemma FloorBounds(q: real)
    ensures q.Floor as real <= q < q.Floor as real + 1.0
  {
  }

  /** The only whole number k with k p <= x < (k + 1) p is the floor of the quotient. */
  lemma QuotientFloor(x: real, p: real, k: int)
    requires p > 0.0 && k as real * p <= x < (k as real + 1.0) * p
    ensures (x / p).Floor == k
  {
    var q := x / p;
    DivMul(x, p);
    MulLess(k as real, q, p);
    MulLess(q, k as real + 1.0, p);
  }

  lemma BetweenMultiples(k: real, j: real, q: real, p: real, x: real)
    requires p > 0.0 && q * p == x && k <= q < j
    ensures k * p <= x < j * p
  {
    MulLess(k, q, p);
    MulLess(q, j, p);
  }

  lemma QuotientBounds(x: real, p: real, next: real)
    requires p > 0.0 && next == (x / p).Floor as real + 1.0
    ensures (x / p).Floor as real * p <= x < next * p
  {
    DivMul(x, p);
    FloorBounds(x / p);
    BetweenMultiples((x / p).Floor as real, next, x / p, p, x);
  }

  function Pow2(k: nat): (r: real)
    ensures r >= 1.0 && r > k as real
  {
    if k == 0 then 1.0 else 2.0 * Pow2(k - 1)
  }

  /** Some 2^-k scales c below any positive bound. */
  lemma SmallEnough(c: real, bound: real) returns (k: nat)
    requires c >= 0.0 && bound > 0.0
    ensures c / Pow2(k) < bound
  {
    hide Pow2;
    FloorBounds(c / bound);
    DivMul(c, bound);
    MulLess(-1.0, c / bound, bound);
    k := (c / bound).Floor + 1;
    var p := Pow2(k);
    MulLess(c / bound, p, bound);
    assert c < p * bound;
    DivMul(c, p);
    MulLess(c / p, bound, p);
    assert bound * p == p * bound;
  }

  /** What is no larger than every C / 2^k is zero. */
  lemma ArchimedeanZero(d: real, c: real)
    requires c >= 0.0 && forall k: nat :: -(c / Pow2(k)) <= d <= c / Pow2(k)
    ensures d == 0.0
  {
    hide Pow2;
    var bound := if d > 0.0 then d else if d < 0.0 then -d else 1.0;
    var k := SmallEnough(c, bound);
    assert -(c / Pow2(k)) <= d <= c / Pow2(k);
  }
}
