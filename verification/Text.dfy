/** Strings: the order they sort in, and fixed-width decimal fields. */
module Text {

  /** Sorting order of strings, character by character. */
  predicate LexLess(a: string, b: string) {
    if b == "" then false
    else if a == "" then true
    else a[0] < b[0] || (a[0] == b[0] && LexLess(a[1..], b[1..]))
  }

  predicate StartsWith(s: string, prefix: string) {
    |prefix| <= |s| && s[..|prefix|] == prefix
  }

  predicate EndsWith(s: string, suffix: string) {
    |suffix| <= |s| && s[|s| - |suffix|..] == suffix
  }

  function Pow10(k: nat): (p: nat)
    ensures p >= 1
  {
    if k == 0 then 1 else 10 * Pow10(k - 1)
  }

  function DigitChar(d: int): char
    requires 0 <= d < 10
  {
    ('0' as int + d) as char
  }

  predicate IsDigits(s: string) {
    forall i :: 0 <= i < |s| ==> '0' <= s[i] <= '9'
  }

  /** The low `width` decimal digits of n, zero-padded. */
  function Digits(n: nat, width: nat): (s: string)
    ensures |s| == width && IsDigits(s)
  {
    if width == 0 then "" else Digits(n / 10, width - 1) + [DigitChar(n % 10)]
  }

  function Value(s: string): nat
    requires IsDigits(s)
  {
    if s == "" then 0 else Value(s[..|s| - 1]) * 10 + (s[|s| - 1] as int - '0' as int)
  }

  lemma {:induction false} ValueOfDigits(n: nat, width: nat)
    requires n < Pow10(width)
    ensures Value(Digits(n, width)) == n
  {
    if width > 0 {
      ValueOfDigits(n / 10, width - 1);
      var s := Digits(n, width);
      assert s[..|s| - 1] == Digits(n / 10, width - 1);
    }
  }

  lemma {:induction false} DigitsOfValue(s: string)
    requires IsDigits(s)
    ensures Value(s) < Pow10(|s|) && Digits(Value(s), |s|) == s
  {
    if s != "" {
      var init := s[..|s| - 1];
      DigitsOfValue(init);
      assert s == init + [s[|s| - 1]];
    }
  }

  /** Equal-length heads decide, and only on a tie do the tails. */
  /** String order is decided by the first character that differs, or by the end of the shorter string. */
  lemma {:induction false} LexLessMeans(a: string, b: string)
    ensures LexLess(a, b)
            <==> || a < b
                 || exists k :: 0 <= k < |a| && k < |b| && a[..k] == b[..k] && a[k] < b[k]
  {
    if a != "" && b != "" && a[0] == b[0] {
      LexLessMeans(a[1..], b[1..]);
      assert a == [a[0]] + a[1..] && b == [b[0]] + b[1..];
      if k :| 0 <= k < |a[1..]| && k < |b[1..]| && a[1..][..k] == b[1..][..k] && a[1..][k] < b[1..][k] {
        assert a[..k + 1] == [a[0]] + a[1..][..k] && b[..k + 1] == [b[0]] + b[1..][..k];
      }
      if k :| 0 <= k < |a| && k < |b| && a[..k] == b[..k] && a[k] < b[k] {
        assert a[1..][..k - 1] == a[..k][1..] && b[1..][..k - 1] == b[..k][1..];
      }
      if a < b {
        assert a[1..] < b[1..];
      }
    } else if a != "" && b != "" {
      if a[0] < b[0] {
        assert a[..0] == b[..0];
      }
      assert forall k :: 0 < k <= |a| && k <= |b| ==> a[..k][0] == a[0] && b[..k][0] == b[0];
    }
  }

  lemma {:induction false} LexConcat(a: string, b: string, s: string, t: string)
    requires |a| == |b|
    ensures LexLess(a + s, b + t) <==> LexLess(a, b) || (a == b && LexLess(s, t))
  {
    if a == "" {
      assert a + s == s && b + t == t;
    } else {
      LexConcat(a[1..], b[1..], s, t);
      assert (a + s)[1..] == a[1..] + s && (b + t)[1..] == b[1..] + t;
      if a[0] == b[0] {
        assert a == b <==> a[1..] == b[1..] by {
          assert a == [a[0]] + a[1..] && b == [b[0]] + b[1..];
        }
      }
    }
  }

  lemma LexSingle(c: char, d: char)
    ensures LexLess([c], [d]) <==> c < d
  {
    assert [c][1..] == "" && [d][1..] == "";
  }

  /** Fixed-width fields sort as the numbers they show. */
  lemma {:induction false} DigitsOrder(m: nat, n: nat, width: nat)
    requires m < Pow10(width) && n < Pow10(width)
    ensures LexLess(Digits(m, width), Digits(n, width)) <==> m < n
    ensures Digits(m, width) == Digits(n, width) <==> m == n
  {
    ValueOfDigits(m, width);
    ValueOfDigits(n, width);
    if width > 0 {
      DigitsOrder(m / 10, n / 10, width - 1);
      LexConcat(Digits(m / 10, width - 1), Digits(n / 10, width - 1), [DigitChar(m % 10)], [DigitChar(n % 10)]);
      LexSingle(DigitChar(m % 10), DigitChar(n % 10));
    }
  }

  /** Two adjacent fields sort as the pair of numbers they show. */
  lemma PairOrder(a: nat, b: nat, c: nat, d: nat, j: nat, k: nat)
    requires a < Pow10(j) && c < Pow10(j) && b < Pow10(k) && d < Pow10(k)
    ensures LexLess(Digits(a, j) + Digits(b, k), Digits(c, j) + Digits(d, k)) <==> a < c || (a == c && b < d)
    ensures Digits(a, j) + Digits(b, k) == Digits(c, j) + Digits(d, k) <==> a == c && b == d
  {
    LexConcat(Digits(a, j), Digits(c, j), Digits(b, k), Digits(d, k));
    DigitsOrder(a, c, j);
    DigitsOrder(b, d, k);
    assert (Digits(a, j) + Digits(b, k))[..j] == Digits(a, j);
    assert (Digits(c, j) + Digits(d, k))[..j] == Digits(c, j);
    assert (Digits(a, j) + Digits(b, k))[j..] == Digits(b, k);
    assert (Digits(c, j) + Digits(d, k))[j..] == Digits(d, k);
  }

  /** Three fields, the shape of a date and of a time of day. */
  function Fields(a: nat, b: nat, c: nat, j: nat): (s: string)
    ensures |s| == j + 4 && IsDigits(s)
  {
    Digits(a, j) + Digits(b, 2) + Digits(c, 2)
  }

  /** Three adjacent fields sort as the triple of numbers they show. */
  lemma FieldsOrder(a: nat, b: nat, c: nat, x: nat, y: nat, z: nat, j: nat)
    requires a < Pow10(j) && x < Pow10(j)
    requires b < 100 && c < 100 && y < 100 && z < 100
    ensures LexLess(Fields(a, b, c, j), Fields(x, y, z, j))
            <==> a < x || (a == x && b < y) || (a == x && b == y && c < z)
    ensures Fields(a, b, c, j) == Fields(x, y, z, j) <==> a == x && b == y && c == z
  {
    hide Digits, LexLess;
    assert Pow10(2) == 100;
    PairOrder(a, b, x, y, j, 2);
    DigitsOrder(c, z, 2);
    var h, g := Digits(a, j) + Digits(b, 2), Digits(x, j) + Digits(y, 2);
    LexConcat(h, g, Digits(c, 2), Digits(z, 2));
    assert Fields(a, b, c, j)[..j + 2] == h && Fields(a, b, c, j)[j + 2..] == Digits(c, 2);
    assert Fields(x, y, z, j)[..j + 2] == g && Fields(x, y, z, j)[j + 2..] == Digits(z, 2);
  }

  lemma Slices(a: string, b: string, c: string)
    ensures (a + b + c)[..|a|] == a
    ensures (a + b + c)[|a|..|a| + |b|] == b
    ensures (a + b + c)[|a| + |b|..] == c
  {
  }

  /** The three fields can be read back. */
  lemma FieldsReadBack(a: nat, b: nat, c: nat, j: nat)
    requires a < Pow10(j) && b < 100 && c < 100
    ensures var s := Fields(a, b, c, j);
            Value(s[..j]) == a && Value(s[j..j + 2]) == b && Value(s[j + 2..]) == c
  {
    hide Digits, Value;
    assert Pow10(2) == 100;
    ValueOfDigits(a, j);
    ValueOfDigits(b, 2);
    ValueOfDigits(c, 2);
    Slices(Digits(a, j), Digits(b, 2), Digits(c, 2));
  }

  /** A digit string of that length is the three fields it reads as. */
  lemma FieldsOfDigits(s: string, j: nat)
    requires |s| == j + 4 && IsDigits(s)
    ensures Fields(Value(s[..j]), Value(s[j..j + 2]), Value(s[j + 2..]), j) == s
  {
    hide Digits, Value;
    DigitsOfValue(s[..j]);
    DigitsOfValue(s[j..j + 2]);
    DigitsOfValue(s[j + 2..]);
    assert s == s[..j] + s[j..j + 2] + s[j + 2..];
  }

  // ---- File suffixes

  /** The name up to its last dot, or the whole name when there is none. */
  function Stem(name: string): string {
    if name == "" then ""
    else if name[|name| - 1] == '.' then name[..|name| - 1]
    else if '.' in name then Stem(name[..|name| - 1])
    else name
  }

  lemma {:induction false} StemDropsSuffix(stem: string, suffix: string)
    requires '.' !in suffix
    ensures Stem(stem + "." + suffix) == stem
    decreases |suffix|
  {
    var name := stem + "." + suffix;
    if suffix == "" {
      assert name[..|name| - 1] == stem;
    } else {
      var init := suffix[..|suffix| - 1];
      assert suffix == init + [suffix[|suffix| - 1]];
      assert suffix[|suffix| - 1] in suffix;
      assert name[..|name| - 1] == stem + "." + init;
      assert name[|stem|] == '.';
      StemDropsSuffix(stem, init);
    }
  }
}
