/** What a committed file has in common with the rows the source was asked for, value by value. */
module ValueCheck {
  import opened ExportCore
  import RealArithmetic

  // ---- The aggregates, as plain folds over the rows

  function CountOf(rows: seq<Row>, f: Row -> nat): nat {
    if rows == [] then 0 else f(rows[0]) + CountOf(rows[1..], f)
  }

  function SumOf(rows: seq<Row>, f: Row -> real): real {
    if rows == [] then 0.0 else f(rows[0]) + SumOf(rows[1..], f)
  }

  function InputTokens(): Row -> nat {
    (r: Row) => r.inputTokens
  }

  function OutputTokens(): Row -> nat {
    (r: Row) => r.outputTokens
  }

  function DurationMs(): Row -> real {
    (r: Row) => r.durationMs
  }

  /** Off by no more than one, or by no more than a millionth of the first. */
  predicate Close(x: real, y: real) {
    || x - 1.0 <= y <= x + 1.0
    || (if x >= 0.0 then 0.999999 * x <= y <= 1.000001 * x else 1.000001 * x <= y <= 0.999999 * x)
  }

  /** The file has the scan's numbers of rows, tenants and traces, its token sums and, closely, its summed duration. */
  ghost predicate ValuesAgree(scan: seq<Row>, file: seq<Row>) {
    && |file| == |scan|
    && CountOf(file, InputTokens()) == CountOf(scan, InputTokens())
    && CountOf(file, OutputTokens()) == CountOf(scan, OutputTokens())
    && Close(SumOf(scan, DurationMs()), SumOf(file, DurationMs()))
    && |set r | r in file :: r.tenantId| == |set r | r in scan :: r.tenantId|
    && |set r | r in file :: r.traceId| == |set r | r in scan :: r.traceId|
  }

  lemma {:induction false} TotalsAreFolds(rows: seq<Row>)
    ensures TotalsOf(rows)
            == Totals(CountOf(rows, InputTokens()), CountOf(rows, OutputTokens()), SumOf(rows, DurationMs()))
  {
    if rows != [] {
      TotalsAreFolds(rows[1..]);
    }
  }

  lemma ToleranceIsClose(x: real, y: real)
    ensures Abs(x - y) <= RealArithmetic.MaxReal(1.0, Abs(x) * 0.000001) <==> Close(x, y)
  {
  }

  lemma AgreementMeans(scan: seq<Row>, file: seq<Row>)
    ensures FingerprintsAgree(FingerprintOf(scan), FingerprintOf(file)) <==> ValuesAgree(scan, file)
  {
    hide TotalsOf, CountOf, SumOf, Close, Abs, RealArithmetic.MaxReal;
    TotalsAreFolds(scan);
    TotalsAreFolds(file);
    ToleranceIsClose(SumOf(scan, DurationMs()), SumOf(file, DurationMs()));
  }

  // ---- The verdict

  /** The rows streamed: all batches, one after another. */
  function Streamed(batches: seq<seq<Row>>): (n: nat)
  {
    if batches == [] then 0 else |batches[0]| + Streamed(batches[1..])
  }

  lemma {:induction false} FlattenedSize(batches: seq<seq<Row>>)
    ensures |Flatten(batches)| == Streamed(batches)
  {
    if batches != [] {
      FlattenedSize(batches[1..]);
    }
  }

  /**
   The verdict, whatever stream and disk did to the rows. An attempt is skipped if and only if no row
   was counted or none was streamed. Any other commits, and the file becomes the window's in the lake,
   if and only if the rows counted, streamed and read back are equally many and the file's values
   agree with the scan's; otherwise the lake stays as it is.
   */
  lemma VerdictExactly(o: Observation)
    ensures var r := Attempt(o);
            && r.sourceRows == o.counted
            && (r.skipped <==> o.counted == 0 || Streamed(o.batches) == 0)
            && (r.skipped ==> r.writtenRows == r.verifiedRows == 0 && !r.fingerprintMatched)
            && (!r.skipped ==> r.writtenRows == Streamed(o.batches) && r.verifiedRows == |o.readBack|)
            && (!r.skipped ==> (r.fingerprintMatched <==> ValuesAgree(o.scan, o.readBack)))
    ensures Attempt(o).Ok() <==> Attempt(o).skipped || Attempt(o).Commits()
    ensures Attempt(o).Commits()
            <==> && o.counted == Streamed(o.batches) == |o.readBack| > 0
                 && ValuesAgree(o.scan, o.readBack)
  {
    hide FingerprintsAgree, FingerprintOf, ValuesAgree;
    FlattenedSize(o.batches);
    AgreementMeans(o.scan, o.readBack);
  }

  // ---- A value gone wrong is noticed

  /** A row taken out. */
  function Without(rows: seq<Row>, i: nat): seq<Row>
    requires i < |rows|
  {
    rows[..i] + rows[i + 1..]
  }

  lemma {:induction false} CountWithout(rows: seq<Row>, f: Row -> nat, i: nat)
    requires i < |rows|
    ensures CountOf(rows, f) == f(rows[i]) + CountOf(Without(rows, i), f)
  {
    if i == 0 {
      assert Without(rows, 0) == rows[1..];
    } else {
      CountWithout(rows[1..], f, i - 1);
      assert Without(rows, i)[1..] == Without(rows[1..], i - 1);
    }
  }

  lemma WithoutOne(rows: seq<Row>, i: nat)
    requires i < |rows|
    ensures multiset(rows) == multiset(Without(rows, i)) + multiset{rows[i]}
  {
    assert rows == rows[..i] + [rows[i]] + rows[i + 1..];
  }

  lemma {:induction false} CountOfPermutation(a: seq<Row>, b: seq<Row>, f: Row -> nat)
    requires multiset(a) == multiset(b)
    ensures CountOf(a, f) == CountOf(b, f)
    decreases |a|
  {
    hide CountOf, Without;
    if |a| > 0 {
      assert a[0] in multiset(b);
      var i :| 0 <= i < |b| && b[i] == a[0];
      WithoutOne(a, 0);
      WithoutOne(b, i);
      assert |Without(a, 0)| < |a| by {
        WithoutIsShorter(a, 0);
      }
      assert multiset(Without(a, 0)) == multiset(a) - multiset{a[0]} == multiset(Without(b, i));
      CountOfPermutation(Without(a, 0), Without(b, i), f);
      CountWithout(a, f, 0);
      CountWithout(b, f, i);
    } else {
      SeqSize(b);
      assert b == a;
    }
  }

  lemma WithoutIsShorter(rows: seq<Row>, i: nat)
    requires i < |rows|
    ensures |Without(rows, i)| == |rows| - 1
  {
  }

  /** The order of the rows does not show in a sum, and one row's value does. */
  lemma CountOfChanged(a: seq<Row>, b: seq<Row>, f: Row -> nat, was: Row, now: Row)
    requires was in a && multiset(b) == multiset(a) - multiset{was} + multiset{now}
    ensures CountOf(b, f) + f(was) == CountOf(a, f) + f(now)
  {
    hide CountOf, Without;
    var i :| 0 <= i < |a| && a[i] == was;
    assert now in multiset(b);
    var j :| 0 <= j < |b| && b[j] == now;
    WithoutOne(a, i);
    WithoutOne(b, j);
    assert multiset(Without(a, i)) == multiset(a) - multiset{was};
    assert multiset(Without(b, j)) == multiset(b) - multiset{now};
    CountOfPermutation(Without(a, i), Without(b, j), f);
    CountWithout(a, f, i);
    CountWithout(b, f, j);
  }

  /**
   A file that differs from the scan in one row's input tokens, or one row's output tokens, is never
   committed, in whatever order the rows come; though its row count is right.
   */
  lemma ChangedTokensAreNoticed(o: Observation, r: Row, changed: Row)
    requires r in o.scan && multiset(o.readBack) == multiset(o.scan) - multiset{r} + multiset{changed}
    requires changed.inputTokens != r.inputTokens || changed.outputTokens != r.outputTokens
    ensures |o.readBack| == |o.scan| && !Attempt(o).Commits()
  {
    hide Attempt;
    SeqSize(o.readBack);
    SeqSize(o.scan);
    CountOfChanged(o.scan, o.readBack, InputTokens(), r, changed);
    CountOfChanged(o.scan, o.readBack, OutputTokens(), r, changed);
    VerdictExactly(o);
  }
}
