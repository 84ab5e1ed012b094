/** A backfill while the engine goes on: chunks, inserts through the views and background merges in any order. */
module BackfillRuns {
  import opened Backfill
  import opened Rollup
  import opened Timeline
  import opened Wrappers

  datatype Event =
    | Chunk
    | ViewInsert(block: seq<Span>)
    | BackgroundMerge(op: Op)

  /** The raw table, the rollups, and the chunks processed. */
  datatype Live = Live(rows: seq<RawSpan>, tables: Tables, done: nat)

  datatype Range = Range(allow: Allowlist, start: Instant, end: Instant) {
    function Cursor(n: nat): Instant {
      CursorAfter(start, end, n)
    }
  }

  /** A block as it lands in the raw table when everything below the cursor has been processed. */
  function Landed(block: seq<Span>, cursor: Instant, end: Instant): (rows: seq<RawSpan>)
    ensures |rows| == |block|
  {
    seq(|block|, i requires 0 <= i < |block| => RawSpan(block[i], true, cursor <= block[i].ts < end))
  }

  function Happen(g: Range, s: Live, e: Event): Live {
    match e
    case Chunk =>
      var part := Pick(s.rows, In(g.Cursor(s.done), g.Cursor(s.done + 1)));
      s.(tables := Inserted(s.tables, g.allow, part), done := s.done + 1)
    case ViewInsert(block) =>
      s.(rows := s.rows + Landed(block, g.Cursor(s.done), g.end), tables := Inserted(s.tables, g.allow, block))
    case BackgroundMerge(op) =>
      if !op.Insert? && Possible(s.tables, op) then s.(tables := Apply(s.tables, op)) else s
  }

  function AllHappen(g: Range, s: Live, events: seq<Event>): Live
    decreases |events|
  {
    if events == [] then s
    else Happen(g, AllHappen(g, s, events[..|events| - 1]), events[|events| - 1])
  }

  /** Late rows that a chunk has passed since: the views have counted them, and so has the chunk. */
  function Doubled(cursor: Instant): RawSpan -> bool {
    (r: RawSpan) => r.late && r.span.ts < cursor
  }

  function Unseen(a: Instant, b: Instant): RawSpan -> bool {
    (r: RawSpan) => !r.viaView && a <= r.span.ts < b
  }

  function LateIn(a: Instant, b: Instant): RawSpan -> bool {
    (r: RawSpan) => r.late && a <= r.span.ts < b
  }

  /** What a query would say of the rows a filter picks. */
  function Counted(g: Range, rows: seq<RawSpan>, f: RawSpan -> bool, p: Key -> bool): Measures {
    Total(MinuteEntries(g.allow, Pick(rows, f)), p)
  }

  /** Above the cursor, the rows the views have seen are exactly the late ones. */
  ghost predicate LateIsSeen(g: Range, s: Live) {
    forall r :: r in s.rows ==>
      && (r.late ==> r.viaView && g.start <= r.span.ts)
      && (r.viaView && g.Cursor(s.done) <= r.span.ts < g.end ==> r.late)
  }

  /** Every query counts what should be counted, and the doubled rows once more. */
  ghost predicate CountsAll(g: Range, s: Live, p: Key -> bool) {
    var cursor := g.Cursor(s.done);
    && TableTotal(s.tables.minute, p)
       == Merge(Counted(g, s.rows, SeenOrIn(g.start, cursor), p), Counted(g, s.rows, Doubled(cursor), p))
    && TableTotal(s.tables.hour, p)
       == Merge(Counted(g, s.rows, SeenOrIn(g.start, cursor), AtHour(p)), Counted(g, s.rows, Doubled(cursor), AtHour(p)))
  }

  lemma CursorClimbs(g: Range, n: nat)
    requires g.start <= g.end
    ensures g.start <= g.Cursor(n) <= g.Cursor(n + 1) <= g.end
  {
  }

  // ---- A chunk

  lemma ChunkKeepsLate(g: Range, s: Live)
    requires g.start <= g.end && LateIsSeen(g, s)
    ensures LateIsSeen(g, Happen(g, s, Chunk))
  {
    hide Inserted, Pick, CursorAfter;
    CursorClimbs(g, s.done);
  }

  /** A chunk picks the rows no view has seen, and the late ones. */
  lemma ChunkSplits(g: Range, s: Live, p: Key -> bool)
    requires g.start <= g.end && LateIsSeen(g, s)
    ensures var a, b := g.Cursor(s.done), g.Cursor(s.done + 1);
            var unseen, late := Counted(g, s.rows, Unseen(a, b), p), Counted(g, s.rows, LateIn(a, b), p);
            && Counted(g, s.rows, In(a, b), p) == Merge(unseen, late)
            && Counted(g, s.rows, SeenOrIn(g.start, b), p) == Merge(Counted(g, s.rows, SeenOrIn(g.start, a), p), unseen)
            && Counted(g, s.rows, Doubled(b), p) == Merge(Counted(g, s.rows, Doubled(a), p), late)
  {
    hide Merge, Total, MinuteEntries, Pick, CursorAfter;
    CursorClimbs(g, s.done);
    var a, b := g.Cursor(s.done), g.Cursor(s.done + 1);
    PickSplit(s.rows, Unseen(a, b), LateIn(a, b), In(a, b), g.allow, p);
    PickSplit(s.rows, SeenOrIn(g.start, a), Unseen(a, b), SeenOrIn(g.start, b), g.allow, p);
    PickSplit(s.rows, Doubled(a), LateIn(a, b), Doubled(b), g.allow, p);
  }

  lemma Shuffle(x: Measures, y: Measures, u: Measures, l: Measures)
    ensures Merge(Merge(x, y), Merge(u, l)) == Merge(Merge(x, u), Merge(y, l))
  {
    hide Merge;
    MergeAssociates(x, y, Merge(u, l));
    SwapFirst(y, u, l);
    MergeAssociates(x, u, Merge(y, l));
  }

  lemma ChunkCounts(g: Range, s: Live, p: Key -> bool)
    requires g.start <= g.end && LateIsSeen(g, s) && CountsAll(g, s, p)
    ensures CountsAll(g, Happen(g, s, Chunk), p)
  {
    hide Merge, Total, MinuteEntries, Pick, CursorAfter, TableTotal, Inserted, LateIsSeen;
    var a, b := g.Cursor(s.done), g.Cursor(s.done + 1);
    var part := Pick(s.rows, In(a, b));
    InsertedTotals(s.tables, g.allow, part, p);
    ChunkSplits(g, s, p);
    ChunkSplits(g, s, AtHour(p));
    Shuffle(Counted(g, s.rows, SeenOrIn(g.start, a), p), Counted(g, s.rows, Doubled(a), p),
            Counted(g, s.rows, Unseen(a, b), p), Counted(g, s.rows, LateIn(a, b), p));
    Shuffle(Counted(g, s.rows, SeenOrIn(g.start, a), AtHour(p)), Counted(g, s.rows, Doubled(a), AtHour(p)),
            Counted(g, s.rows, Unseen(a, b), AtHour(p)), Counted(g, s.rows, LateIn(a, b), AtHour(p)));
  }

  // ---- An insert

  lemma InsertKeepsLate(g: Range, s: Live, block: seq<Span>)
    requires g.start <= g.end && LateIsSeen(g, s)
    ensures LateIsSeen(g, Happen(g, s, ViewInsert(block)))
  {
    hide Inserted, CursorAfter;
    CursorClimbs(g, s.done);
  }

  lemma {:induction false} PickAppend(a: seq<RawSpan>, b: seq<RawSpan>, f: RawSpan -> bool)
    ensures Pick(a + b, f) == Pick(a, f) + Pick(b, f)
    decreases |a|
  {
    if a == [] {
      assert a + b == b;
    } else {
      assert (a + b)[1..] == a[1..] + b;
      PickAppend(a[1..], b, f);
    }
  }

  /** A landed block has been seen as a whole, and none of it is doubled yet. */
  lemma {:induction false} LandedPicks(block: seq<Span>, cursor: Instant, end: Instant, start: Instant)
    ensures Pick(Landed(block, cursor, end), SeenOrIn(start, cursor)) == block
    ensures Pick(Landed(block, cursor, end), Doubled(cursor)) == []
    decreases |block|
  {
    if block != [] {
      LandedPicks(block[1..], cursor, end, start);
      assert Landed(block, cursor, end)[1..] == Landed(block[1..], cursor, end);
    }
  }

  lemma InsertAdds(g: Range, s: Live, block: seq<Span>, p: Key -> bool)
    ensures var cursor, rows := g.Cursor(s.done), Happen(g, s, ViewInsert(block)).rows;
            && Counted(g, rows, SeenOrIn(g.start, cursor), p)
               == Merge(Counted(g, s.rows, SeenOrIn(g.start, cursor), p), Total(MinuteEntries(g.allow, block), p))
            && Counted(g, rows, Doubled(cursor), p) == Counted(g, s.rows, Doubled(cursor), p)
  {
    hide Merge, Total, MinuteEntries, Pick, CursorAfter, Inserted, Landed;
    var cursor := g.Cursor(s.done);
    var landed := Landed(block, cursor, g.end);
    LandedPicks(block, cursor, g.end, g.start);
    PickAppend(s.rows, landed, SeenOrIn(g.start, cursor));
    PickAppend(s.rows, landed, Doubled(cursor));
    var before := Pick(s.rows, SeenOrIn(g.start, cursor));
    MinuteEntriesAppend(g.allow, before, block);
    TotalAppend(MinuteEntries(g.allow, before), MinuteEntries(g.allow, block), p);
    assert Pick(s.rows, Doubled(cursor)) + [] == Pick(s.rows, Doubled(cursor));
  }

  lemma InsertCounts(g: Range, s: Live, block: seq<Span>, p: Key -> bool)
    requires CountsAll(g, s, p)
    ensures CountsAll(g, Happen(g, s, ViewInsert(block)), p)
  {
    hide Merge, Total, MinuteEntries, Pick, CursorAfter, TableTotal, Inserted, Counted;
    var cursor := g.Cursor(s.done);
    InsertedTotals(s.tables, g.allow, block, p);
    InsertAdds(g, s, block, p);
    InsertAdds(g, s, block, AtHour(p));
    AddToFirst(Counted(g, s.rows, SeenOrIn(g.start, cursor), p), Counted(g, s.rows, Doubled(cursor), p),
               Total(MinuteEntries(g.allow, block), p));
    AddToFirst(Counted(g, s.rows, SeenOrIn(g.start, cursor), AtHour(p)), Counted(g, s.rows, Doubled(cursor), AtHour(p)),
               Total(MinuteEntries(g.allow, block), AtHour(p)));
  }

  lemma AddToFirst(x: Measures, y: Measures, z: Measures)
    ensures Merge(Merge(x, y), z) == Merge(Merge(x, z), y)
  {
    hide Merge;
    MergeAssociates(x, y, z);
    MergeCommutes(y, z);
    MergeAssociates(x, z, y);
  }

  // ---- Any interleaving

  lemma MergeCounts(g: Range, s: Live, op: Op, p: Key -> bool)
    requires CountsAll(g, s, p)
    ensures CountsAll(g, Happen(g, s, BackgroundMerge(op)), p)
  {
    hide Merge, TableTotal, Merged, Counted, CursorAfter;
    if !op.Insert? && Possible(s.tables, op) {
      match op
      case MergeMinute(i, j) => MergingKeepsTotals(s.tables.minute, i, j, p);
      case MergeHour(i, j) => MergingKeepsTotals(s.tables.hour, i, j, p);
    }
  }

  lemma EventKeeps(g: Range, s: Live, e: Event, p: Key -> bool)
    requires g.start <= g.end && LateIsSeen(g, s) && CountsAll(g, s, p)
    ensures LateIsSeen(g, Happen(g, s, e)) && CountsAll(g, Happen(g, s, e), p)
  {
    hide LateIsSeen, CountsAll, Happen;
    match e
    case Chunk =>
      ChunkKeepsLate(g, s);
      ChunkCounts(g, s, p);
    case ViewInsert(block) =>
      InsertKeepsLate(g, s, block);
      InsertCounts(g, s, block, p);
    case BackgroundMerge(op) =>
      MergeKeepsLate(g, s, op);
      MergeCounts(g, s, op, p);
  }

  lemma MergeKeepsLate(g: Range, s: Live, op: Op)
    requires LateIsSeen(g, s)
    ensures LateIsSeen(g, Happen(g, s, BackgroundMerge(op)))
  {
    hide CursorAfter, Apply;
  }

  lemma {:induction false} EventsKeep(g: Range, s: Live, events: seq<Event>, p: Key -> bool)
    requires g.start <= g.end && LateIsSeen(g, s) && CountsAll(g, s, p)
    ensures var t := AllHappen(g, s, events); LateIsSeen(g, t) && CountsAll(g, t, p)
    decreases |events|
  {
    hide LateIsSeen, CountsAll, Happen;
    if events != [] {
      var before := events[..|events| - 1];
      EventsKeep(g, s, before, p);
      EventKeeps(g, AllHappen(g, s, before), events[|events| - 1], p);
    }
  }

  // ---- The theorems

  lemma {:induction false} PickSame(rows: seq<RawSpan>, f: RawSpan -> bool, h: RawSpan -> bool)
    requires forall r :: r in rows ==> f(r) == h(r)
    ensures Pick(rows, f) == Pick(rows, h)
    decreases |rows|
  {
    if rows != [] {
      assert rows[0] in rows;
      PickSame(rows[1..], f, h);
    }
  }

  lemma {:induction false} PickNothing(rows: seq<RawSpan>, f: RawSpan -> bool)
    ensures Pick(rows, f) == [] <==> forall r :: r in rows ==> !f(r)
    decreases |rows|
  {
    if rows != [] {
      PickNothing(rows[1..], f);
      assert rows == [rows[0]] + rows[1..];
    }
  }

  /** Before the backfill: rollups built by the views alone, and a range that ends at their first minute. */
  ghost predicate Ready(g: Range, ops: seq<Op>, rows: seq<RawSpan>) {
    && (forall op :: op in ops && op.Insert? ==> op.allow == g.allow)
    && Raw(ops) == Pick(rows, SeenByView())
    && (forall r :: r in rows ==> !r.late)
    && OldestBucket(Run(ops).minute) == Some(g.end) && g.start <= g.end
  }

  lemma ReadyCounts(g: Range, ops: seq<Op>, rows: seq<RawSpan>, p: Key -> bool)
    requires Ready(g, ops, rows)
    ensures var s := Live(rows, Run(ops), 0); LateIsSeen(g, s) && CountsAll(g, s, p)
  {
    hide Run, Raw, Ingested, TableTotal, Total, MinuteEntries, OldestBucket, Merge, Pick;
    assert g.Cursor(0) == g.start;
    forall r | r in rows && r.viaView
      ensures r.span.ts >= g.end
    {
      PickedComesFrom(rows, SeenByView(), r);
      SeenSpansAreCovered(ops, g.allow, r.span);
    }
    PickSame(rows, SeenByView(), SeenOrIn(g.start, g.start));
    PickNothing(rows, Doubled(g.start));
    NothingPicked(g.allow, p);
    NothingPicked(g.allow, AtHour(p));
    IngestedUnderOneAllowlist(ops, g.allow);
    MinuteTableRefines(ops, p);
    HourTableRefines(ops, p);
    MergeNothing(Counted(g, rows, SeenByView(), p));
    MergeNothing(Counted(g, rows, SeenByView(), AtHour(p)));
  }

  /**
   What a backfill counts, whatever happens meanwhile. After any interleaving of chunks, inserts
   through the views and background merges, every query on either table counts each raw span that
   the views have seen or that lies in the part processed, and once more those that arrived in a
   part that was still to be processed and has been since.
   */
  lemma BackfillCounts(g: Range, ops: seq<Op>, rows: seq<RawSpan>, events: seq<Event>, p: Key -> bool)
    requires Ready(g, ops, rows)
    ensures CountsAll(g, AllHappen(g, Live(rows, Run(ops), 0), events), p)
  {
    hide CountsAll, LateIsSeen, Run, Ready;
    ReadyCounts(g, ops, rows, p);
    RangeIsReady(g, ops, rows);
    EventsKeep(g, Live(rows, Run(ops), 0), events, p);
  }

  lemma RangeIsReady(g: Range, ops: seq<Op>, rows: seq<RawSpan>)
    requires Ready(g, ops, rows)
    ensures g.start <= g.end
  {
  }

  /** No insert brings a span of the part of the range that is still to be processed. */
  ghost predicate InsertsElsewhere(g: Range, s: Live, events: seq<Event>)
    decreases |events|
  {
    events == [] || (
      var before, e := events[..|events| - 1], events[|events| - 1];
      && InsertsElsewhere(g, s, before)
      && (e.ViewInsert? ==>
            forall x :: x in e.block ==> !(g.Cursor(AllHappen(g, s, before).done) <= x.ts < g.end)))
  }

  /** In particular none does that only brings spans at or above the end of the range. */
  lemma {:induction false} NewerInsertsAreElsewhere(g: Range, s: Live, events: seq<Event>)
    requires forall e :: e in events && e.ViewInsert? ==> forall x :: x in e.block ==> x.ts >= g.end
    ensures InsertsElsewhere(g, s, events)
    decreases |events|
  {
    hide AllHappen, CursorAfter;
    if events != [] {
      NewerInsertsAreElsewhere(g, s, events[..|events| - 1]);
      assert events[|events| - 1] in events;
    }
  }

  /** Then, and only then, no row is late. */
  lemma {:induction false} LateExactly(g: Range, s: Live, events: seq<Event>)
    requires forall r :: r in s.rows ==> !r.late
    ensures (forall r :: r in AllHappen(g, s, events).rows ==> !r.late) <==> InsertsElsewhere(g, s, events)
    decreases |events|
  {
    if events != [] {
      hide Inserted, Pick, CursorAfter, Apply;
      var before, e := events[..|events| - 1], events[|events| - 1];
      LateExactly(g, s, before);
      var t := AllHappen(g, s, before);
      if e.ViewInsert? {
        LandedLate(e.block, g.Cursor(t.done), g.end);
      }
    }
  }

  lemma LandedLate(block: seq<Span>, cursor: Instant, end: Instant)
    ensures (forall r :: r in Landed(block, cursor, end) ==> !r.late)
            <==> forall x :: x in block ==> !(cursor <= x.ts < end)
  {
    var rows := Landed(block, cursor, end);
    forall x | x in block
      ensures RawSpan(x, true, cursor <= x.ts < end) in rows
    {
      var i :| 0 <= i < |block| && block[i] == x;
      assert rows[i] == RawSpan(x, true, cursor <= x.ts < end);
    }
  }

  /**
   Backfill never double counts. When no insert brings a span of the part still to be processed,
   every query, after any interleaving, is the direct guarded aggregation of the raw spans that the
   views have seen or that lie in the part processed.
   */
  lemma BackfillNeverDoubleCounts(g: Range, ops: seq<Op>, rows: seq<RawSpan>, events: seq<Event>, p: Key -> bool)
    requires Ready(g, ops, rows) && InsertsElsewhere(g, Live(rows, Run(ops), 0), events)
    ensures var s := AllHappen(g, Live(rows, Run(ops), 0), events);
            var counted := Pick(s.rows, SeenOrIn(g.start, g.Cursor(s.done)));
            && TableTotal(s.tables.minute, p) == Aggregate(Selected(counted, OnMinute(g.allow, p)))
            && TableTotal(s.tables.hour, p) == Aggregate(Selected(counted, OnHour(g.allow, p)))
  {
    hide Run, TableTotal, Total, MinuteEntries, Merge, Pick, Aggregate, Selected, AllHappen, CursorAfter, InsertsElsewhere;
    var s := AllHappen(g, Live(rows, Run(ops), 0), events);
    var counted := Pick(s.rows, SeenOrIn(g.start, g.Cursor(s.done)));
    BackfillCounts(g, ops, rows, events, p);
    LateExactly(g, Live(rows, Run(ops), 0), events);
    PickNothing(s.rows, Doubled(g.Cursor(s.done)));
    NothingPicked(g.allow, p);
    NothingPicked(g.allow, AtHour(p));
    MergeNothing(Total(MinuteEntries(g.allow, counted), p));
    MergeNothing(Total(MinuteEntries(g.allow, counted), AtHour(p)));
    SpansAtBothResolutions(g.allow, counted, p);
  }

  /**
   Exactly when. At any moment the number of spans in the rollup is the number that should be counted
   if and only if no late row has been passed by a chunk.
   */
  lemma CountsOnceExactly(g: Range, ops: seq<Op>, rows: seq<RawSpan>, events: seq<Event>)
    requires Ready(g, ops, rows)
    ensures var s := AllHappen(g, Live(rows, Run(ops), 0), events);
            var cursor := g.Cursor(s.done);
            TableTotal(s.tables.minute, Everything()).spans == |Pick(s.rows, SeenOrIn(g.start, cursor))|
            <==> forall r :: r in s.rows ==> !(r.late && r.span.ts < cursor)
  {
    hide Run, TableTotal, Total, MinuteEntries, Merge, Pick, AllHappen, CursorAfter, Ready, Everything;
    var s := AllHappen(g, Live(rows, Run(ops), 0), events);
    var cursor := g.Cursor(s.done);
    BackfillCounts(g, ops, rows, events, Everything());
    EverySpanCounts(g.allow, Pick(s.rows, SeenOrIn(g.start, cursor)));
    EverySpanCounts(g.allow, Pick(s.rows, Doubled(cursor)));
    SpansAdd(Counted(g, s.rows, SeenOrIn(g.start, cursor), Everything()), Counted(g, s.rows, Doubled(cursor), Everything()));
    PickNothing(s.rows, Doubled(cursor));
  }

  function Repeat(n: nat): (events: seq<Event>)
    ensures |events| == n
  {
    seq(n, _ => Chunk)
  }

  /** The loop that the backfill runs while nothing else happens is one of these interleavings. */
  lemma {:induction false} LoopIsAnInterleaving(g: Range, t: Tables, rows: seq<RawSpan>, n: nat)
    ensures AllHappen(g, Live(rows, t, 0), Repeat(n))
            == Live(rows, Backfilled(t, g.allow, rows, g.start, g.end, n), n)
  {
    hide Inserted, Pick, CursorAfter;
    if n > 0 {
      LoopIsAnInterleaving(g, t, rows, n - 1);
      assert Repeat(n)[..n - 1] == Repeat(n - 1);
    }
  }
}
