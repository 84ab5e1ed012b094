/** What the backfill command fills, stated by the rows of the raw table. */
module BackfillCommand {
  import opened Backfill
  import opened BackfillRuns
  import opened Buckets
  import opened Cardinality
  import opened Rollup
  import opened Timeline
  import opened Wrappers

  /** The rollups are what the views made of the rows they saw, in some order, with merges in between. */
  ghost predicate RolledUp(raw: seq<RawSpan>, ops: seq<Op>, allow: Allowlist) {
    && (forall op :: op in ops && op.Insert? ==> op.allow == allow)
    && multiset(Raw(ops)) == multiset(Pick(raw, SeenByView()))
  }

  function NotSeen(): RawSpan -> bool {
    (r: RawSpan) => !r.viaView
  }

  /** The command's range, computed from what it queries. */
  function CommandRange(raw: seq<RawSpan>, t: Tables, hours: Duration): Option<(Instant, Instant)> {
    ChooseRange(OldestBucket(t.minute), OldestRaw(raw), NewestRaw(raw), hours)
  }

  lemma {:induction false} OldestRawBounds(raw: seq<RawSpan>)
    ensures OldestRaw(raw).None? <==> raw == []
    ensures forall r :: r in raw ==> OldestRaw(raw).value <= r.span.ts
    ensures raw != [] ==> exists r :: r in raw && r.span.ts == OldestRaw(raw).value
  {
    if raw != [] {
      OldestRawBounds(raw[1..]);
      assert raw == [raw[0]] + raw[1..];
      assert raw[0] in raw;
    }
  }

  lemma {:induction false} PickedWas(rows: seq<RawSpan>, f: RawSpan -> bool, s: Span)
    requires s in Pick(rows, f)
    ensures exists r :: r in rows && f(r) && r.span == s
  {
    if f(rows[0]) && rows[0].span == s {
      assert rows[0] in rows;
    } else {
      PickedWas(rows[1..], f, s);
    }
  }

  lemma {:induction false} PickSame(rows: seq<RawSpan>, f: RawSpan -> bool, g: RawSpan -> bool)
    requires forall r :: r in rows ==> f(r) == g(r)
    ensures Pick(rows, f) == Pick(rows, g)
  {
    if rows != [] {
      assert rows[0] in rows;
      PickSame(rows[1..], f, g);
    }
  }

  lemma {:induction false} SeenOrNot(rows: seq<RawSpan>)
    ensures |Pick(rows, SeenByView())| + |Pick(rows, NotSeen())| == |rows|
  {
    if rows != [] {
      SeenOrNot(rows[1..]);
    }
  }

  lemma SeenAreRaw(raw: seq<RawSpan>, ops: seq<Op>, allow: Allowlist)
    requires RolledUp(raw, ops, allow)
    ensures |Raw(ops)| == |Pick(raw, SeenByView())|
    ensures forall r :: r in raw && r.viaView ==> r.span in Raw(ops)
    ensures forall s :: s in Raw(ops) ==> exists r :: r in raw && r.viaView && r.span == s
  {
    hide Raw, Pick;
    var seen := Pick(raw, SeenByView());
    assert |multiset(Raw(ops))| == |Raw(ops)| && |multiset(seen)| == |seen|;
    forall r | r in raw && r.viaView
      ensures r.span in Raw(ops)
    {
      PickedComesFrom(raw, SeenByView(), r);
      assert r.span in multiset(seen);
    }
    forall s | s in Raw(ops)
      ensures exists r :: r in raw && r.viaView && r.span == s
    {
      assert s in multiset(Raw(ops));
      PickedWas(raw, SeenByView(), s);
    }
  }

  /** What the command takes for the number of missing spans is the number of rows no view saw. */
  lemma MissingIsUnseen(raw: seq<RawSpan>, ops: seq<Op>, allow: Allowlist)
    requires RolledUp(raw, ops, allow)
    ensures |raw| - TableTotal(Run(ops).minute, Everything()).spans == |Pick(raw, NotSeen())|
  {
    hide Raw, Run, Pick, TableTotal, Total, Everything, MinuteEntries, Ingested;
    IngestedUnderOneAllowlist(ops, allow);
    MinuteTableRefines(ops, Everything());
    EverySpanCounts(allow, Raw(ops));
    SeenAreRaw(raw, ops, allow);
    SeenOrNot(raw);
  }

  /** The rollup's first bucket is the clock minute in which the first span that the views saw falls. */
  lemma FirstBucket(ops: seq<Op>, allow: Allowlist)
    requires forall op :: op in ops && op.Insert? ==> op.allow == allow
    ensures var m := OldestBucket(Run(ops).minute);
            && (m.None? <==> Raw(ops) == [])
            && (m.Some? ==>
                  && m.value % MINUTE == 0 && (forall s :: s in Raw(ops) ==> m.value <= s.ts)
                  && exists s :: s in Raw(ops) && s.ts < m.value + MINUTE)
  {
    hide Run, Raw, OldestBucket;
    forall s | s in Raw(ops)
      ensures OldestBucket(Run(ops).minute).Some? && OldestBucket(Run(ops).minute).value <= s.ts
    {
      SeenSpansAreCovered(ops, allow, s);
    }
    if Raw(ops) != [] {
      assert Raw(ops)[0] in Raw(ops);
    }
    BucketsAreClockTimes(ops);
    OldestBucketBounds(Run(ops).minute);
    if OldestBucket(Run(ops).minute).Some? {
      var part, e :| part in Run(ops).minute && e in part && e.key.bucket == OldestBucket(Run(ops).minute).value;
      assert HoldsASpan(e.key, Raw(ops), MINUTE);
    }
  }

  // ---- The range

  lemma NoRows()
    ensures NewestRaw([]).None? && OldestRaw([]).None? && Pick([], SeenByView()) == []
  {
  }

  /**
   What the command fills. When the views have seen a span, the range ends at the first minute they
   covered: no row that a view saw is in it, and a row that none saw is in it if and only if it lies
   before that minute and no more than the given hours before it. Otherwise it ends at the newest row
   and reaches that far back. It begins that far back, or at the oldest row if that is later.
   */
  lemma RangeIsTheGap(raw: seq<RawSpan>, ops: seq<Op>, allow: Allowlist, hours: Duration)
    requires RolledUp(raw, ops, allow)
    ensures CommandRange(raw, Run(ops), hours).None? <==> raw == []
    ensures raw != [] ==>
              var (start, end) := CommandRange(raw, Run(ops), hours).value;
              && (forall r :: r in raw ==> (start <= r.span.ts < end <==> end - hours <= r.span.ts < end))
              && start >= end - hours && (exists r :: r in raw && r.span.ts <= start)
              && (start > end - hours ==> forall r :: r in raw ==> r.span.ts >= start)
              && (Raw(ops) != [] ==>
                    && OldestBucket(Run(ops).minute) == Some(end)
                    && forall r :: r in raw && r.viaView ==> r.span.ts >= end)
              && (Raw(ops) == [] ==>
                    && (forall r :: r in raw ==> !r.viaView && r.span.ts <= end)
                    && exists r :: r in raw && r.span.ts == end)
  {
    hide Run, Raw, OldestBucket, OldestRaw, NewestRaw, Pick;
    FirstBucket(ops, allow);
    OldestRawBounds(raw);
    NewestBounds(raw);
    SeenAreRaw(raw, ops, allow);
    if raw == [] {
      NoRows();
      assert |Raw(ops)| == 0;
    } else {
      assert raw[0] in raw;
    }
  }

  /** The rows that no view saw and that the command is to fill in. */
  function Gap(end: Instant, hours: Duration): RawSpan -> bool {
    Unseen(end - hours, end)
  }

  lemma RangeHoldsTheGap(raw: seq<RawSpan>, ops: seq<Op>, allow: Allowlist, hours: Duration)
    requires RolledUp(raw, ops, allow) && raw != []
    ensures var (start, end) := CommandRange(raw, Run(ops), hours).value;
            Pick(raw, In(start, end)) == Pick(raw, Gap(end, hours))
  {
    hide Run, Raw, OldestBucket, OldestRaw, NewestRaw, Pick, RolledUp, CommandRange;
    RangeIsTheGap(raw, ops, allow, hours);
    var (start, end) := CommandRange(raw, Run(ops), hours).value;
    PickSame(raw, In(start, end), Gap(end, hours));
  }

  /**
   The command adds the gap and nothing else. After a run of it that was not interrupted, every query
   on either table has gained exactly the rows that no view saw and that lie within the given hours
   before the first minute covered, each once.
   */
  lemma CommandAddsTheGap(
    raw: seq<RawSpan>, ops: seq<Op>, allow: Allowlist, hours: Duration, p: Key -> bool)
    requires RolledUp(raw, ops, allow) && raw != []
    requires var (start, end) := CommandRange(raw, Run(ops), hours).value; start < end
    ensures var (start, end) := CommandRange(raw, Run(ops), hours).value;
            var after := Backfilled(Run(ops), allow, raw, start, end, Chunks(start, end));
            var gap := Pick(raw, Gap(end, hours));
            && TableTotal(after.minute, p)
               == Merge(TableTotal(Run(ops).minute, p), Aggregate(Selected(gap, OnMinute(allow, p))))
            && TableTotal(after.hour, p)
               == Merge(TableTotal(Run(ops).hour, p), Aggregate(Selected(gap, OnHour(allow, p))))
  {
    hide Run, Raw, Pick, RolledUp, CommandRange, Chunks, Backfilled, TableTotal, Merge, Aggregate, Selected;
    hide Total, MinuteEntries, Gap;
    RangeIsTheGap(raw, ops, allow, hours);
    var (start, end) := CommandRange(raw, Run(ops), hours).value;
    ChunkCount(start, end, Chunks(start, end));
    assert CursorAfter(start, end, Chunks(start, end)) == end;
    BackfillAddsExactly(Run(ops), allow, raw, start, end, Chunks(start, end), p);
    RangeHoldsTheGap(raw, ops, allow, hours);
    SpansAtBothResolutions(allow, Pick(raw, Gap(end, hours)), p);
  }

  /** So what the tables then hold is every span that was seen or lay in the gap, counted once. */
  lemma CommandCountsOnce(raw: seq<RawSpan>, ops: seq<Op>, allow: Allowlist, hours: Duration)
    requires RolledUp(raw, ops, allow) && raw != []
    requires var (start, end) := CommandRange(raw, Run(ops), hours).value; start < end
    ensures var (start, end) := CommandRange(raw, Run(ops), hours).value;
            var after := Backfilled(Run(ops), allow, raw, start, end, Chunks(start, end));
            TableTotal(after.minute, Everything()).spans
            == |Pick(raw, SeenByView())| + |Pick(raw, Gap(end, hours))|
  {
    hide Run, Raw, Pick, CommandRange, Chunks, Backfilled, TableTotal, Total, MinuteEntries, Merge;
    hide Everything, Ingested, Gap;
    RangeIsTheGap(raw, ops, allow, hours);
    var (start, end) := CommandRange(raw, Run(ops), hours).value;
    ChunkCount(start, end, Chunks(start, end));
    assert CursorAfter(start, end, Chunks(start, end)) == end;
    BackfillAddsExactly(Run(ops), allow, raw, start, end, Chunks(start, end), Everything());
    RangeHoldsTheGap(raw, ops, allow, hours);
    EverySpanCounts(allow, Pick(raw, Gap(end, hours)));
    SpansAdd(TableTotal(Run(ops).minute, Everything()),
             Total(MinuteEntries(allow, Pick(raw, Gap(end, hours))), Everything()));
    IngestedUnderOneAllowlist(ops, allow);
    MinuteTableRefines(ops, Everything());
    EverySpanCounts(allow, Raw(ops));
    SeenAreRaw(raw, ops, allow);
  }
}
