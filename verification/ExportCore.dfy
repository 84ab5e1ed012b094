/** One export attempt: the rows, the fingerprints, and the verdict on a staged file. */
module ExportCore {
  import opened Planner
  import opened RealArithmetic
  import opened Text
  import opened Timeline

  /** The exported columns of a span; `rest` stands for those no check reads. */
  datatype Row = Row(
    ts: Instant, tenantId: string, traceId: string,
    inputTokens: nat, outputTokens: nat, durationMs: real, rest: string)

  /** The rows of a table that fall in a window. */
  ghost function Within(rows: multiset<Row>, w: Window): (m: multiset<Row>)
    ensures forall r :: m[r] == if w.Contains(r.ts) then rows[r] else 0
    decreases |rows|
  {
    if rows == multiset{} then multiset{}
    else
      var r :| r in rows;
      var others := Within(rows[r := 0], w);
      if w.Contains(r.ts) then others[r := rows[r]] else others
  }

  function Flatten(batches: seq<seq<Row>>): seq<Row> {
    if batches == [] then [] else batches[0] + Flatten(batches[1..])
  }

  lemma {:induction false} FlattenAppend(batches: seq<seq<Row>>, b: seq<Row>)
    ensures Flatten(batches + [b]) == Flatten(batches) + b
  {
    if batches == [] {
      assert batches + [b] == [b];
    } else {
      assert (batches + [b])[1..] == batches[1..] + [b];
      FlattenAppend(batches[1..], b);
    }
  }

  // ---- Fingerprints

  datatype Totals = Totals(inputTokens: nat, outputTokens: nat, durationMs: real)

  function TotalsOf(rows: seq<Row>): Totals {
    if rows == [] then Totals(0, 0, 0.0) else AddRow(rows[0], TotalsOf(rows[1..]))
  }

  function AddRow(r: Row, t: Totals): Totals {
    Totals(r.inputTokens + t.inputTokens, r.outputTokens + t.outputTokens, r.durationMs + t.durationMs)
  }

  datatype Fingerprint = Fingerprint(count: nat, totals: Totals, tenants: nat, traces: nat)

  function FingerprintOf(rows: seq<Row>): Fingerprint {
    Fingerprint(
      |rows|, TotalsOf(rows),
      |set r | r in rows :: r.tenantId|, |set r | r in rows :: r.traceId|)
  }

  function Abs(x: real): real {
    if x < 0.0 then -x else x
  }

  /** Everything must agree exactly but the summed float, which has a tolerance. */
  predicate FingerprintsAgree(source: Fingerprint, parquet: Fingerprint) {
    && source.count == parquet.count
    && source.totals.inputTokens == parquet.totals.inputTokens
    && source.totals.outputTokens == parquet.totals.outputTokens
    && Abs(source.totals.durationMs - parquet.totals.durationMs)
       <= MaxReal(1.0, Abs(source.totals.durationMs) * 0.000001)
    && source.tenants == parquet.tenants
    && source.traces == parquet.traces
  }

  lemma {:induction false} TotalsWithout(rows: seq<Row>, i: nat)
    requires i < |rows|
    ensures TotalsOf(rows) == AddRow(rows[i], TotalsOf(rows[..i] + rows[i + 1..]))
  {
    if i == 0 {
      assert rows[..0] + rows[1..] == rows[1..];
    } else {
      TotalsWithout(rows[1..], i - 1);
      assert (rows[..i] + rows[i + 1..])[1..] == rows[1..][..i - 1] + rows[1..][i..];
    }
  }

  lemma {:induction false} TotalsOfPermutation(a: seq<Row>, b: seq<Row>)
    requires multiset(a) == multiset(b)
    ensures TotalsOf(a) == TotalsOf(b)
  {
    if a == [] {
      assert |multiset(b)| == 0;
    } else {
      assert a[0] in multiset(b);
      var i :| 0 <= i < |b| && b[i] == a[0];
      var rest := b[..i] + b[i + 1..];
      assert b == b[..i] + [b[i]] + b[i + 1..];
      assert a == [a[0]] + a[1..];
      assert multiset(a[1..]) == multiset(a) - multiset{a[0]};
      assert multiset(rest) == multiset(b) - multiset{b[i]};
      TotalsOfPermutation(a[1..], rest);
      TotalsWithout(b, i);
    }
  }

  /** The scan order of either engine does not show in a fingerprint. */
  lemma PermutationKeepsFingerprint(a: seq<Row>, b: seq<Row>)
    requires multiset(a) == multiset(b)
    ensures FingerprintOf(a) == FingerprintOf(b)
  {
    TotalsOfPermutation(a, b);
    assert |a| == |multiset(a)| && |b| == |multiset(b)|;
    forall r
      ensures r in a <==> r in b
    {
      assert r in multiset(a) <==> r in multiset(b);
    }
    assert (set r | r in a :: r.tenantId) == (set r | r in b :: r.tenantId);
    assert (set r | r in a :: r.traceId) == (set r | r in b :: r.traceId);
  }

  // ---- The verdict

  datatype WindowResult = WindowResult(
    sourceRows: nat, writtenRows: nat, verifiedRows: nat, skipped: bool, fingerprintMatched: bool)
  {
    predicate Ok() {
      skipped || (sourceRows == writtenRows == verifiedRows && writtenRows > 0 && fingerprintMatched)
    }

    /** The staged file is renamed into the lake. */
    predicate Commits() {
      !skipped && Ok()
    }
  }

  /**
   What one attempt observes: the source count, the batches the stream delivers, the rows the
   closed staging file turns out to hold, and the rows the fingerprint query scans.
   */
  datatype Observation = Observation(
    counted: nat, batches: seq<seq<Row>>, readBack: seq<Row>, scan: seq<Row>)

  /** The result `export_window` returns for what it observes. */
  function Attempt(o: Observation): WindowResult {
    var written := |Flatten(o.batches)|;
    if o.counted == 0 then WindowResult(0, 0, 0, true, false)
    else if written == 0 then WindowResult(o.counted, 0, 0, true, false)
    else
      WindowResult(o.counted, written, |o.readBack|, false,
                   FingerprintsAgree(FingerprintOf(o.scan), FingerprintOf(o.readBack)))
  }

  /** The lake after an attempt at window w. */
  function Committed(lake: map<FileKey, seq<Row>>, w: Window, o: Observation): map<FileKey, seq<Row>> {
    if Attempt(o).Commits() then lake[KeyOf(w) := o.readBack] else lake
  }

  /** The stream and the disk may lose rows of the table they read, but invent none. */
  ghost predicate Lossy(o: Observation, streamed: multiset<Row>, scanned: multiset<Row>) {
    && multiset(Flatten(o.batches)) <= streamed
    && multiset(o.readBack) <= multiset(Flatten(o.batches))
    && multiset(o.scan) == scanned
  }

  lemma SameSizeSubset(a: multiset<Row>, b: multiset<Row>)
    requires a <= b && |a| == |b|
    ensures a == b
  {
    assert |b - a| == |b| - |a|;
  }

  lemma SeqSize(s: seq<Row>)
    ensures |multiset(s)| == |s|
  {
  }

  /**
   Commit soundness. The three reads see three states of the table. If rows were only added
   between them and the attempt commits, then the file holds exactly the window's rows, and the
   window held the same rows at all three moments.
   */
  lemma CommitIsFaithful(
    counted: multiset<Row>, streamed: multiset<Row>, scanned: multiset<Row>, o: Observation)
    requires counted <= streamed <= scanned
    requires o.counted == |counted| && Lossy(o, streamed, scanned)
    requires Attempt(o).Commits()
    ensures multiset(o.readBack) == counted == streamed == scanned
  {
    SeqSize(o.readBack);
    SeqSize(o.scan);
    SeqSize(Flatten(o.batches));
    assert multiset(o.readBack) <= scanned;
    SameSizeSubset(multiset(o.readBack), scanned);
    SameSizeSubset(counted, scanned);
  }

  /**
   Whatever is inserted or deleted between the reads, a committed file is everything the table held
   when it was streamed if and only if it then held as many rows as were counted.
   */
  lemma CommitIsTheStreamedTableExactly(streamed: multiset<Row>, o: Observation)
    requires multiset(Flatten(o.batches)) <= streamed && multiset(o.readBack) <= multiset(Flatten(o.batches))
    requires Attempt(o).Commits()
    ensures multiset(o.readBack) == streamed <==> |streamed| == o.counted
  {
    SeqSize(o.readBack);
    if |streamed| == o.counted {
      SameSizeSubset(multiset(o.readBack), streamed);
    }
  }

  /**
   For a source that does not change, an attempt commits if and only if the source has rows and the
   staged file is complete: nothing short is accepted, nothing complete is rejected. The result is
   ok in one more case: the window or its stream was empty.
   */
  lemma CommitsExactlyWhenComplete(source: multiset<Row>, o: Observation)
    requires o.counted == |source| && Lossy(o, source, source)
    ensures Attempt(o).Commits() <==> source != multiset{} && multiset(o.readBack) == source
    ensures Attempt(o).Ok() <==> Attempt(o).Commits() || o.counted == 0 || Flatten(o.batches) == []
  {
    SeqSize(o.readBack);
    SeqSize(o.scan);
    SeqSize(Flatten(o.batches));
    if Attempt(o).Commits() {
      CommitIsFaithful(source, source, source, o);
    }
    if multiset(o.readBack) == source {
      assert multiset(Flatten(o.batches)) == source;
      PermutationKeepsFingerprint(o.scan, o.readBack);
    }
  }

  /**
   An ok result means that the window's rows are in the lake, or that there were none, if and only
   if it is not the case that rows were counted and none was streamed.
   */
  lemma OkIsSafeExactly(source: multiset<Row>, o: Observation)
    requires o.counted == |source| && Lossy(o, source, source) && Attempt(o).Ok()
    ensures source == multiset{} || (Attempt(o).Commits() && multiset(o.readBack) == source)
            <==> !(o.counted > 0 && Flatten(o.batches) == [])
  {
    CommitsExactlyWhenComplete(source, o);
  }

  // ---- Row order

  /** ORDER BY tenant_id, ts */
  predicate RowLeq(a: Row, b: Row) {
    LexLess(a.tenantId, b.tenantId) || (a.tenantId == b.tenantId && a.ts <= b.ts)
  }

  predicate Sorted(rows: seq<Row>) {
    forall i, j :: 0 <= i < j < |rows| ==> RowLeq(rows[i], rows[j])
  }

  /** The rows of a, in order, are among those of b. */
  predicate Sublist(a: seq<Row>, b: seq<Row>) {
    a == [] || (b != [] && ((a[0] == b[0] && Sublist(a[1..], b[1..])) || Sublist(a, b[1..])))
  }

  lemma {:induction false} SublistSize(a: seq<Row>, b: seq<Row>)
    requires Sublist(a, b)
    ensures |a| <= |b| && (|a| == |b| ==> a == b)
    decreases |b|
  {
    if a != [] {
      if a[0] == b[0] && Sublist(a[1..], b[1..]) {
        SublistSize(a[1..], b[1..]);
        assert a == [a[0]] + a[1..] && b == [b[0]] + b[1..];
      } else {
        SublistSize(a, b[1..]);
      }
    }
  }

  /**
   The server sorts the whole stream before it is cut into batches, and the writer may drop rows but
   not reorder them: whatever the table did meanwhile, a committed file is the stream, row for row,
   and sorted from end to end.
   */
  lemma CommittedFileIsTheSortedStream(o: Observation)
    requires Sorted(Flatten(o.batches)) && Sublist(o.readBack, Flatten(o.batches))
    requires Attempt(o).Commits()
    ensures o.readBack == Flatten(o.batches) && Sorted(o.readBack)
    ensures forall i, j :: 0 <= i < j < |o.readBack| ==>
              var a, b := o.readBack[i], o.readBack[j];
              LexLess(a.tenantId, b.tenantId) || (a.tenantId == b.tenantId && a.ts <= b.ts)
  {
    SublistSize(o.readBack, Flatten(o.batches));
  }
}
