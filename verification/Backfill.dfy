/** Filling the rollups from raw spans older than the views, hour by hour, with failures in between. */
module Backfill {
  import opened Rollup
  import opened Timeline
  import opened Wrappers

  /**
   A row of the raw table: whether the views saw it when it was inserted, and whether that was during
   a backfill, inside the part of the range that was still to be processed.
   */
  datatype RawSpan = RawSpan(span: Span, viaView: bool, late: bool)

  /** The raw spans a filter picks. */
  function Pick(rows: seq<RawSpan>, f: RawSpan -> bool): seq<Span> {
    if rows == [] then []
    else (if f(rows[0]) then [rows[0].span] else []) + Pick(rows[1..], f)
  }

  function In(a: Instant, b: Instant): RawSpan -> bool {
    (r: RawSpan) => a <= r.span.ts < b
  }

  function SeenByView(): RawSpan -> bool {
    (r: RawSpan) => r.viaView
  }

  /** What ought to be counted once [a, b) is filled in. */
  function SeenOrIn(a: Instant, b: Instant): RawSpan -> bool {
    (r: RawSpan) => r.viaView || a <= r.span.ts < b
  }

  // ---- What the command sees

  function MinOption(a: Option<Instant>, b: Option<Instant>): Option<Instant> {
    match (a, b)
    case (None, _) => b
    case (_, None) => a
    case (Some(x), Some(y)) => Some(Min(x, y))
  }

  function OldestEntry(part: Part): Option<Instant> {
    if part == [] then None else MinOption(Some(part[0].key.bucket), OldestEntry(part[1..]))
  }

  /** `min(ts_minute)` over the rollup. */
  function OldestBucket(parts: seq<Part>): Option<Instant> {
    if parts == [] then None else MinOption(OldestEntry(parts[0]), OldestBucket(parts[1..]))
  }

  function OldestRaw(rows: seq<RawSpan>): Option<Instant> {
    if rows == [] then None else MinOption(Some(rows[0].span.ts), OldestRaw(rows[1..]))
  }

  function NewestRaw(rows: seq<RawSpan>): Option<Instant> {
    if rows == [] then None
    else
      match NewestRaw(rows[1..])
      case None => Some(rows[0].span.ts)
      case Some(t) => Some(if rows[0].span.ts >= t then rows[0].span.ts else t)
  }

  function Everything(): Key -> bool {
    k => true
  }

  /** The range the command chooses: ending where the rollup begins, or without a rollup at the newest raw span. */
  function ChooseRange(
    rollupMin: Option<Instant>, rawMin: Option<Instant>, rawMax: Option<Instant>, hours: Duration)
    : Option<(Instant, Instant)>
  {
    match (if rollupMin.Some? then rollupMin else rawMax)
    case None => None
    case Some(end) =>
      var start := end - hours;
      Some((if rawMin.Some? && start < rawMin.value then rawMin.value else start, end))
  }

  // ---- The chunk loop

  datatype BackfillError = EmptyRange | Interrupted(at: Instant)

  /** Where the loop's cursor is after n chunks. */
  function CursorAfter(start: Instant, end: Instant, n: nat): Instant {
    Min(start + n * HOUR, end)
  }

  /** The tables after n chunks. */
  function Backfilled(t: Tables, allow: Allowlist, rows: seq<RawSpan>, start: Instant, end: Instant, n: nat): Tables {
    if n == 0 then t
    else
      Inserted(Backfilled(t, allow, rows, start, end, n - 1), allow,
               Pick(rows, In(CursorAfter(start, end, n - 1), CursorAfter(start, end, n))))
  }

  /** How many chunks the whole range takes. */
  function Chunks(start: Instant, end: Instant): nat
    requires start < end
  {
    (end - start + HOUR - 1) / HOUR
  }

  class RollupStore {
    var raw: seq<RawSpan>
    var tables: Tables

    constructor (rows: seq<RawSpan>, rollups: Tables)
      ensures raw == rows && tables == rollups
    {
      raw, tables := rows, rollups;
    }

    /**
     One statement per hour of [start, end). `failAt` is the chunk at which the server gives up, if
     it does; chunks already written stay written.
     */
    method Backfill(allow: Allowlist, start: Instant, end: Instant, failAt: Option<nat>)
      returns (r: Result<nat, BackfillError>)
      modifies this`tables
      ensures start >= end ==> r == Failure(EmptyRange) && tables == old(tables)
      ensures start < end && failAt.Some? && failAt.value < Chunks(start, end) ==>
                && r == Failure(Interrupted(CursorAfter(start, end, failAt.value)))
                && tables == Backfilled(old(tables), allow, raw, start, end, failAt.value)
      ensures start < end && (failAt.None? || failAt.value >= Chunks(start, end)) ==>
                && r == Success(|Pick(raw, In(start, end))|)
                && tables == Backfilled(old(tables), allow, raw, start, end, Chunks(start, end))
    {
      hide Chunks, Pick, Inserted, CursorAfter;
      if start >= end {
        return Failure(EmptyRange);
      }
      var total := |Pick(raw, In(start, end))|;
      var cursor := start;
      var n := 0;
      CursorStarts(start, end);
      while cursor < end
        invariant cursor == CursorAfter(start, end, n)
        invariant n <= Chunks(start, end)
        invariant failAt.Some? && failAt.value < Chunks(start, end) ==> n <= failAt.value
        invariant tables == Backfilled(old(tables), allow, raw, start, end, n)
        decreases end - cursor
      {
        ChunkCount(start, end, n);
        var chunkEnd := Min(cursor + HOUR, end);
        if failAt == Some(n) {
          return Failure(Interrupted(cursor));
        }
        tables := Inserted(tables, allow, Pick(raw, In(cursor, chunkEnd)));
        cursor := chunkEnd;
        n := n + 1;
      }
      ChunkCount(start, end, n);
      r := Success(total);
    }

    /** The `rollup-backfill` command, confirmed. None when there is nothing to do. */
    method RollupBackfill(allow: Allowlist, hours: Duration, failAt: Option<nat>)
      returns (r: Option<Result<nat, BackfillError>>)
      modifies this`tables
      ensures var missing := |raw| - TableTotal(old(tables).minute, Everything()).spans;
              var range := ChooseRange(
                OldestBucket(old(tables).minute), OldestRaw(raw), NewestRaw(raw), hours);
              && (r.None? <==> missing <= 0 || range.None?)
              && (r.None? ==> tables == old(tables))
              && (r.Some? ==>
                    var (start, end) := range.value;
                    && (start >= end ==> r.value == Failure(EmptyRange) && tables == old(tables))
                    && (start < end && failAt.Some? && failAt.value < Chunks(start, end) ==>
                          && r.value == Failure(Interrupted(CursorAfter(start, end, failAt.value)))
                          && tables == Backfilled(old(tables), allow, raw, start, end, failAt.value))
                    && (start < end && (failAt.None? || failAt.value >= Chunks(start, end)) ==>
                          && r.value == Success(|Pick(raw, In(start, end))|)
                          && tables == Backfilled(old(tables), allow, raw, start, end, Chunks(start, end))))
    {
      var missing := |raw| - TableTotal(tables.minute, Everything()).spans;
      if missing <= 0 {
        return None;
      }
      var range := ChooseRange(OldestBucket(tables.minute), OldestRaw(raw), NewestRaw(raw), hours);
      if range.None? {
        return None;
      }
      var outcome := Backfill(allow, range.value.0, range.value.1, failAt);
      r := Some(outcome);
    }
  }

  lemma ChunkBounds(start: Instant, end: Instant)
    requires start < end
    ensures Chunks(start, end) >= 1
    ensures (Chunks(start, end) - 1) * HOUR < end - start <= Chunks(start, end) * HOUR
  {
    var x := end - start + HOUR - 1;
    assert x == (x / HOUR) * HOUR + x % HOUR;
  }

  lemma CursorStarts(start: Instant, end: Instant)
    requires start < end
    ensures CursorAfter(start, end, 0) == start
  {
  }

  lemma ChunkCount(start: Instant, end: Instant, n: nat)
    requires start < end
    ensures CursorAfter(start, end, n) < end <==> n < Chunks(start, end)
    ensures CursorAfter(start, end, n) < end ==>
              CursorAfter(start, end, n + 1) == Min(CursorAfter(start, end, n) + HOUR, end)
  {
    hide Chunks;
    ChunkBounds(start, end);
    var k := Chunks(start, end);
    if n < k {
      assert n * HOUR <= (k - 1) * HOUR;
    } else {
      assert n * HOUR >= k * HOUR;
    }
  }

  // ---- Splitting what is counted

  /** A filter that is the disjoint union of two counts what the two count together. */
  lemma {:induction false} PickSplit(
    rows: seq<RawSpan>, f: RawSpan -> bool, g: RawSpan -> bool, h: RawSpan -> bool,
    allow: Allowlist, p: Key -> bool)
    requires forall r :: r in rows ==> (h(r) <==> f(r) || g(r)) && !(f(r) && g(r))
    ensures Total(MinuteEntries(allow, Pick(rows, h)), p)
            == Merge(Total(MinuteEntries(allow, Pick(rows, f)), p), Total(MinuteEntries(allow, Pick(rows, g)), p))
  {
    hide Merge, MinuteEntries, Total;
    if rows == [] {
      NothingPicked(allow, p);
      MergeNothing(NOTHING);
    } else {
      PickSplit(rows[1..], f, g, h, allow, p);
      var r := rows[0];
      var a, b, c := Pick(rows[1..], f), Pick(rows[1..], g), Pick(rows[1..], h);
      var x := Total(MinuteEntries(allow, [r.span]), p);
      PrependSpan(allow, r.span, a, p);
      PrependSpan(allow, r.span, b, p);
      PrependSpan(allow, r.span, c, p);
      assert [] + a == a && [] + b == b && [] + c == c;
      var ta, tb := Total(MinuteEntries(allow, a), p), Total(MinuteEntries(allow, b), p);
      if f(r) {
        MergeAssociates(x, ta, tb);
      } else if g(r) {
        SwapFirst(x, ta, tb);
      }
    }
  }

  lemma NothingPicked(allow: Allowlist, p: Key -> bool)
    ensures Total(MinuteEntries(allow, []), p) == NOTHING
  {
  }

  lemma PrependSpan(allow: Allowlist, s: Span, rest: seq<Span>, p: Key -> bool)
    ensures Total(MinuteEntries(allow, [s] + rest), p)
            == Merge(Total(MinuteEntries(allow, [s]), p), Total(MinuteEntries(allow, rest), p))
  {
    hide Merge, Total, MinuteEntries;
    MinuteEntriesAppend(allow, [s], rest);
    TotalAppend(MinuteEntries(allow, [s]), MinuteEntries(allow, rest), p);
  }

  lemma InsertedTotals(t: Tables, allow: Allowlist, block: seq<Span>, p: Key -> bool)
    ensures TableTotal(Inserted(t, allow, block).minute, p)
            == Merge(TableTotal(t.minute, p), Total(MinuteEntries(allow, block), p))
    ensures TableTotal(Inserted(t, allow, block).hour, p)
            == Merge(TableTotal(t.hour, p), Total(MinuteEntries(allow, block), AtHour(p)))
  {
    hide Merge, Total, MinuteEntries, HourEntries, GroupBy, TableTotal;
    var es := MinuteEntries(allow, block);
    var part := GroupBy(es);
    GroupingKeepsTotals(es, p);
    GroupingKeepsTotals(es, AtHour(p));
    GroupingKeepsTotals(HourEntries(part), p);
    HourTotal(part, p);
    TableTotalOne(part, p);
    TableTotalOne(GroupBy(HourEntries(part)), p);
    TableTotalAppend(t.minute, [part], p);
    TableTotalAppend(t.hour, [GroupBy(HourEntries(part))], p);
  }

  lemma PickNone(rows: seq<RawSpan>, a: Instant)
    ensures Pick(rows, In(a, a)) == []
  {
    if rows != [] {
      PickNone(rows[1..], a);
    }
  }

  /**
   Chunked equals unchunked. After any number of chunks, every query on either table has gained
   exactly one aggregation of the raw spans in the part processed, though chunk edges may split a
   minute in two.
   */
  lemma {:induction false} BackfillAddsExactly(
    t: Tables, allow: Allowlist, rows: seq<RawSpan>, start: Instant, end: Instant, n: nat, p: Key -> bool)
    requires start <= end
    ensures var after := Backfilled(t, allow, rows, start, end, n);
            var added := MinuteEntries(allow, Pick(rows, In(start, CursorAfter(start, end, n))));
            && TableTotal(after.minute, p) == Merge(TableTotal(t.minute, p), Total(added, p))
            && TableTotal(after.hour, p) == Merge(TableTotal(t.hour, p), Total(added, AtHour(p)))
  {
    hide Merge, Total, MinuteEntries, TableTotal, Inserted, Pick;
    if n == 0 {
      PickNone(rows, start);
      NothingPicked(allow, p);
      NothingPicked(allow, AtHour(p));
      MergeNothing(TableTotal(t.minute, p));
      MergeNothing(TableTotal(t.hour, p));
    } else {
      BackfillAddsExactly(t, allow, rows, start, end, n - 1, p);
      var a, b := CursorAfter(start, end, n - 1), CursorAfter(start, end, n);
      var before := Backfilled(t, allow, rows, start, end, n - 1);
      var chunk := Pick(rows, In(a, b));
      InsertedTotals(before, allow, chunk, p);
      PickSplit(rows, In(start, a), In(a, b), In(start, b), allow, p);
      PickSplit(rows, In(start, a), In(a, b), In(start, b), allow, AtHour(p));
      var done := MinuteEntries(allow, Pick(rows, In(start, a)));
      MergeAssociates(TableTotal(t.minute, p), Total(done, p), Total(MinuteEntries(allow, chunk), p));
      MergeAssociates(TableTotal(t.hour, p), Total(done, AtHour(p)), Total(MinuteEntries(allow, chunk), AtHour(p)));
    }
  }

  // ---- Nothing is counted twice

  lemma {:induction false} OldestEntryBounds(part: Part)
    ensures part == [] <==> OldestEntry(part).None?
    ensures forall e :: e in part ==> OldestEntry(part).Some? && OldestEntry(part).value <= e.key.bucket
    ensures OldestEntry(part).Some? ==> exists e :: e in part && e.key.bucket == OldestEntry(part).value
  {
    if part != [] {
      OldestEntryBounds(part[1..]);
      assert part == [part[0]] + part[1..];
      assert part[0] in part;
    }
  }

  lemma {:induction false} OldestBucketBounds(parts: seq<Part>)
    ensures forall part, e :: part in parts && e in part ==>
              OldestBucket(parts).Some? && OldestBucket(parts).value <= e.key.bucket
    ensures OldestBucket(parts).Some? ==>
              exists part, e :: part in parts && e in part && e.key.bucket == OldestBucket(parts).value
  {
    if parts != [] {
      OldestBucketBounds(parts[1..]);
      OldestEntryBounds(parts[0]);
      assert parts == [parts[0]] + parts[1..];
      assert parts[0] in parts;
    }
  }

  /** A query that counts a span needs a row to count it. */
  lemma {:induction false} CountedNeedsARow(parts: seq<Part>, p: Key -> bool)
    requires TableTotal(parts, p).spans > 0
    ensures exists part, e :: part in parts && e in part && p(e.key)
  {
    if Total(parts[0], p).spans > 0 {
      var e := CountedNeedsAnEntry(parts[0], p);
      assert parts[0] in parts;
    } else {
      CountedNeedsARow(parts[1..], p);
    }
  }

  lemma {:induction false} CountedNeedsAnEntry(entries: seq<Entry>, p: Key -> bool) returns (e: Entry)
    requires Total(entries, p).spans > 0
    ensures e in entries && p(e.key)
  {
    if p(entries[0].key) {
      e := entries[0];
    } else {
      e := CountedNeedsAnEntry(entries[1..], p);
    }
  }

  lemma {:induction false} SelectedCounts(allow: Allowlist, spans: seq<Span>, s: Span)
    requires s in spans
    ensures Total(MinuteEntries(allow, spans), k => k == MinuteKey(allow, s)).spans > 0
  {
    var p: Key -> bool := k => k == MinuteKey(allow, s);
    var rest := spans[1..];
    assert spans == [spans[0]] + rest;
    assert MinuteEntries(allow, spans)[1..] == MinuteEntries(allow, rest);
    if spans[0] != s {
      SelectedCounts(allow, rest, s);
    }
  }

  /** A span the views have seen is no older than the rollup's first minute. */
  lemma SeenSpansAreCovered(ops: seq<Op>, allow: Allowlist, s: Span)
    requires forall op :: op in ops && op.Insert? ==> op.allow == allow
    requires s in Raw(ops)
    ensures OldestBucket(Run(ops).minute).Some? && OldestBucket(Run(ops).minute).value <= s.ts
  {
    hide Run, Raw, Ingested, TableTotal, Total, MinuteEntries, OldestBucket, Guarded;
    var p: Key -> bool := k => k == MinuteKey(allow, s);
    IngestedUnderOneAllowlist(ops, allow);
    MinuteTableRefines(ops, p);
    SelectedCounts(allow, Raw(ops), s);
    TotalOfSameFilter(Ingested(ops), p, k => k == MinuteKey(allow, s));
    CountedNeedsARow(Run(ops).minute, p);
    OldestBucketBounds(Run(ops).minute);
  }

  lemma {:induction false} PickedComesFrom(rows: seq<RawSpan>, f: RawSpan -> bool, r: RawSpan)
    requires r in rows && f(r)
    ensures r.span in Pick(rows, f)
  {
    if rows[0] != r {
      PickedComesFrom(rows[1..], f, r);
    }
  }

  // ---- What a rerun cannot reach

  lemma {:induction false} OldestAppend(a: seq<Part>, part: Part)
    ensures OldestBucket(a + [part]) == MinOption(OldestBucket(a), OldestEntry(part))
  {
    if a == [] {
      assert a + [part] == [part];
      assert [part][1..] == [];
    } else {
      assert (a + [part])[1..] == a[1..] + [part];
      OldestAppend(a[1..], part);
    }
  }

  /** The first minute of a chunk's rows. */
  lemma OldestOfChunk(allow: Allowlist, spans: seq<Span>)
    ensures var m := OldestEntry(GroupBy(MinuteEntries(allow, spans)));
            && (m.None? <==> spans == [])
            && (forall s :: s in spans ==> m.Some? && m.value <= FloorMinute(s.ts))
            && (m.Some? ==> exists s :: s in spans && m.value == FloorMinute(s.ts))
  {
    hide GroupBy, Guarded, OldestEntry, FloorMinute;
    var es := MinuteEntries(allow, spans);
    var part := GroupBy(es);
    GroupByKeys(es);
    OldestEntryBounds(part);
    forall s | s in spans
      ensures OldestEntry(part).Some? && OldestEntry(part).value <= FloorMinute(s.ts)
    {
      var i :| 0 <= i < |spans| && spans[i] == s;
      assert es[i] in es;
      assert HasKey(es, es[i].key);
      var e :| e in part && e.key == es[i].key;
    }
    if spans != [] {
      assert spans[0] in spans;
    }
    if OldestEntry(part).Some? {
      var e :| e in part && e.key.bucket == OldestEntry(part).value;
      assert HasKey(part, e.key);
      var x :| x in es && x.key == e.key;
      var i :| 0 <= i < |es| && es[i] == x;
      assert spans[i] in spans;
    }
  }

  lemma {:induction false} PickedIsIn(rows: seq<RawSpan>, a: Instant, b: Instant)
    ensures forall s :: s in Pick(rows, In(a, b)) ==> a <= s.ts < b
  {
    if rows != [] {
      PickedIsIn(rows[1..], a, b);
    }
  }

  /** After n chunks the rollup's first minute is the old one, or that of a span already processed. */
  lemma {:induction false} OldestAfterChunks(
    t: Tables, allow: Allowlist, rows: seq<RawSpan>, start: Instant, end: Instant, n: nat)
    requires OldestBucket(t.minute) == Some(end) && start <= end
    ensures var m := OldestBucket(Backfilled(t, allow, rows, start, end, n).minute);
            && m.Some? && m.value <= end
            && (forall s :: s in Pick(rows, In(start, CursorAfter(start, end, n))) ==> m.value <= s.ts)
            && (m.value != end ==> Pick(rows, In(start, CursorAfter(start, end, n))) != [])
  {
    hide GroupBy, MinuteEntries, OldestEntry, OldestBucket, FloorMinute, HourEntries;
    if n == 0 {
      PickNone(rows, start);
    } else {
      OldestAfterChunks(t, allow, rows, start, end, n - 1);
      var a, b := CursorAfter(start, end, n - 1), CursorAfter(start, end, n);
      var chunk := Pick(rows, In(a, b));
      OldestAppend(Backfilled(t, allow, rows, start, end, n - 1).minute, GroupBy(MinuteEntries(allow, chunk)));
      OldestOfChunk(allow, chunk);
      PickedSplits(rows, start, a, b);
      forall s | s in chunk
        ensures FloorMinute(s.ts) <= s.ts
      {
        MinuteIsNotLater(s.ts);
      }
    }
  }

  lemma MinuteIsNotLater(t: Instant)
    ensures FloorMinute(t) <= t
  {
  }

  lemma {:induction false} PickedSplits(rows: seq<RawSpan>, a: Instant, b: Instant, c: Instant)
    requires a <= b <= c
    ensures forall s :: s in Pick(rows, In(a, c)) <==> s in Pick(rows, In(a, b)) || s in Pick(rows, In(b, c))
    ensures Pick(rows, In(a, c)) == [] <==> Pick(rows, In(a, b)) == [] && Pick(rows, In(b, c)) == []
  {
    if rows != [] {
      PickedSplits(rows[1..], a, b, c);
    }
  }

  /**
   After an interruption a rerun can still end where the first run was to end if and only if the
   completed chunks held no span at all. Otherwise the rerun's range ends at or below a span
   already processed, and no span of the remaining gap is ever in it.
   */
  lemma InterruptedBackfillLeavesAGap(
    t: Tables, allow: Allowlist, rows: seq<RawSpan>, start: Instant, end: Instant, n: nat)
    requires OldestBucket(t.minute) == Some(end) && start < CursorAfter(start, end, n) < end
    ensures var at := CursorAfter(start, end, n);
            var rerunEnd := OldestBucket(Backfilled(t, allow, rows, start, end, n).minute);
            && rerunEnd.Some?
            && (rerunEnd.value == end <==> Pick(rows, In(start, at)) == [])
            && (rerunEnd.value != end ==> forall s: Span :: at <= s.ts < end ==> s.ts >= rerunEnd.value)
  {
    hide Backfilled, OldestBucket, Pick;
    OldestAfterChunks(t, allow, rows, start, end, n);
    var at := CursorAfter(start, end, n);
    var done := Pick(rows, In(start, at));
    if done != [] {
      PickedIsIn(rows, start, at);
      assert done[0] in done;
    }
  }

  // ---- An empty rollup

  lemma {:induction false} NewestBounds(rows: seq<RawSpan>)
    ensures forall r :: r in rows ==> NewestRaw(rows).Some? && r.span.ts <= NewestRaw(rows).value
    ensures rows != [] ==> exists r :: r in rows && r.span.ts == NewestRaw(rows).value
  {
    if rows != [] {
      NewestBounds(rows[1..]);
      assert rows == [rows[0]] + rows[1..];
      assert rows[0] in rows;
    }
  }

  function At(t: Instant): RawSpan -> bool {
    (r: RawSpan) => r.span.ts == t
  }

  lemma {:induction false} PickCounts(rows: seq<RawSpan>, start: Instant, end: Instant)
    requires forall r :: r in rows ==> start <= r.span.ts <= end
    ensures |Pick(rows, In(start, end))| + |Pick(rows, At(end))| == |rows|
  {
    if rows != [] {
      PickCounts(rows[1..], start, end);
      assert rows[0] in rows;
    }
  }

  lemma {:induction false} EverySpanCounts(allow: Allowlist, spans: seq<Span>)
    ensures Total(MinuteEntries(allow, spans), Everything()).spans == |spans|
  {
    hide Total, MinuteEntries, Everything, Merge;
    if spans == [] {
      NothingPicked(allow, Everything());
    } else {
      EverySpanCounts(allow, spans[1..]);
      OneSpanCounts(allow, spans[0]);
      SpansAdd(Total(MinuteEntries(allow, [spans[0]]), Everything()),
               Total(MinuteEntries(allow, spans[1..]), Everything()));
      PrependSpan(allow, spans[0], spans[1..], Everything());
      assert [spans[0]] + spans[1..] == spans;
    }
  }

  lemma SpansAdd(a: Measures, b: Measures)
    ensures Merge(a, b).spans == a.spans + b.spans
  {
  }

  lemma OneSpanCounts(allow: Allowlist, s: Span)
    ensures Total(MinuteEntries(allow, [s]), Everything()).spans == 1
  {
    hide Guarded, FloorMinute;
    assert MinuteEntries(allow, [s])[1..] == [];
  }

  /**
   Without a rollup the range ends at the newest raw span, exclusively: a complete backfill then
   counts every span but those at that very timestamp, of which there is at least one.
   */
  lemma EmptyRollupMissesTheNewest(allow: Allowlist, rows: seq<RawSpan>, start: Instant, end: Instant, n: nat)
    requires rows != [] && NewestRaw(rows) == Some(end)
    requires start < end && n == Chunks(start, end)
    requires forall r :: r in rows ==> start <= r.span.ts
    ensures var after := Backfilled(Tables([], []), allow, rows, start, end, n);
            && TableTotal(after.minute, Everything()).spans == |rows| - |Pick(rows, At(end))|
            && |Pick(rows, At(end))| > 0
  {
    hide Backfilled, MinuteEntries, Total, TableTotal, Pick, Chunks, Merge;
    NewestBounds(rows);
    ChunkCount(start, end, n);
    BackfillAddsExactly(Tables([], []), allow, rows, start, end, n, Everything());
    EmptyTables(Everything());
    MergeNothing(Total(MinuteEntries(allow, Pick(rows, In(start, end))), Everything()));
    EverySpanCounts(allow, Pick(rows, In(start, end)));
    PickCounts(rows, start, end);
    var r :| r in rows && r.span.ts == end;
    PickedComesFrom(rows, At(end), r);
  }
}
