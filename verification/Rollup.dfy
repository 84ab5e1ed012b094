/**
 The rollups. Spans are grouped, one insert block at a time, into mergeable aggregate states per
 minute; those states are merged in the background in any order, and cascade into states per hour.
 */
module Rollup {
  import opened Timeline
  import opened Wrappers

  // ---- Spans and the guard

  /** The rollup's key columns, in the view's order. */
  const DIMENSIONS: seq<string> :=
    ["tenant_id", "tenant_tier", "model", "operation", "route", "region", "status_class"]

  const STATUS_CLASS := 6

  type Dims = d: seq<string> | |d| == 7 witness ["", "", "", "", "", "", ""]

  datatype Span = Span(
    ts: Instant, dims: Dims, traceId: string,
    inputTokens: nat, outputTokens: nat, cachedTokens: nat,
    ttftMs: real, durationMs: real, itlMs: real, queueTimeMs: real, kvCache: real)

  const NONE_BUCKET := "__none__"
  const OTHER_BUCKET := "__other__"

  /** The registered (dimension, value) pairs, as the dictionary holds them. */
  type Allowlist = set<(string, string)>

  /** Absent, unregistered, or the value itself. */
  function Guard(allow: Allowlist, dimension: string, value: string): string {
    if value == "" then NONE_BUCKET
    else if (dimension, value) in allow then value
    else OTHER_BUCKET
  }

  /** Of a value that is no sentinel, the guarded value tells whether it was absent, registered or neither. */
  lemma GuardTellsApart(allow: Allowlist, dimension: string, value: string)
    requires value != NONE_BUCKET && value != OTHER_BUCKET
    ensures Guard(allow, dimension, value) == NONE_BUCKET <==> value == ""
    ensures Guard(allow, dimension, value) == OTHER_BUCKET <==> value != "" && (dimension, value) !in allow
    ensures Guard(allow, dimension, value) == value <==> value != "" && (dimension, value) in allow
  {
  }

  function Guarded(allow: Allowlist, d: Dims): (g: Dims)
    ensures forall i :: 0 <= i < |d| ==> g[i] == Guard(allow, DIMENSIONS[i], d[i])
  {
    seq(|d|, i requires 0 <= i < |d| => Guard(allow, DIMENSIONS[i], d[i]))
  }

  // ---- Aggregate states

  /** The state of `avgIf`. */
  datatype Average = Average(sum: real, count: nat)

  /**
   One row's aggregate states. A distinct count keeps the values seen, and a quantile digest is
   represented by the observations it has absorbed.
   */
  datatype Measures = Measures(
    spans: nat, traces: set<string>,
    inputTokens: nat, outputTokens: nat, cachedTokens: nat,
    ttft: multiset<real>, duration: multiset<real>,
    itl: Average, queueTime: Average, kvCache: Average, kvMax: Option<real>, errors: nat)

  const NO_AVERAGE := Average(0.0, 0)

  const NOTHING := Measures(0, {}, 0, 0, 0, multiset{}, multiset{}, NO_AVERAGE, NO_AVERAGE, NO_AVERAGE, None, 0)

  function MergeAverage(a: Average, b: Average): Average {
    Average(a.sum + b.sum, a.count + b.count)
  }

  function MergeMax(a: Option<real>, b: Option<real>): Option<real> {
    match (a, b)
    case (None, _) => b
    case (_, None) => a
    case (Some(x), Some(y)) => Some(if x >= y then x else y)
  }

  function Merge(a: Measures, b: Measures): Measures {
    Measures(
      a.spans + b.spans, a.traces + b.traces,
      a.inputTokens + b.inputTokens, a.outputTokens + b.outputTokens, a.cachedTokens + b.cachedTokens,
      a.ttft + b.ttft, a.duration + b.duration,
      MergeAverage(a.itl, b.itl), MergeAverage(a.queueTime, b.queueTime), MergeAverage(a.kvCache, b.kvCache),
      MergeMax(a.kvMax, b.kvMax), a.errors + b.errors)
  }

  /** Zero readings mean "not measured" and stay out of averages and quantiles. */
  function AverageIf(x: real): Average {
    if x > 0.0 then Average(x, 1) else NO_AVERAGE
  }

  function ObserveIf(x: real): multiset<real> {
    if x > 0.0 then multiset{x} else multiset{}
  }

  /** What one span contributes. */
  function Single(s: Span): Measures {
    Measures(
      1, {s.traceId}, s.inputTokens, s.outputTokens, s.cachedTokens,
      ObserveIf(s.ttftMs), ObserveIf(s.durationMs),
      AverageIf(s.itlMs), AverageIf(s.queueTimeMs), AverageIf(s.kvCache), Some(s.kvCache),
      if s.dims[STATUS_CLASS] != "ok" then 1 else 0)
  }

  lemma MergeCommutes(a: Measures, b: Measures)
    ensures Merge(a, b) == Merge(b, a)
  {
  }

  lemma MergeAssociates(a: Measures, b: Measures, c: Measures)
    ensures Merge(Merge(a, b), c) == Merge(a, Merge(b, c))
  {
  }

  lemma MergeNothing(a: Measures)
    ensures Merge(a, NOTHING) == a && Merge(NOTHING, a) == a
  {
  }

  // ---- Grouping

  datatype Key = Key(bucket: Instant, dims: Dims)

  datatype Entry = Entry(key: Key, measures: Measures)

  /** A stored part: rows with their keys. */
  type Part = seq<Entry>

  function Upsert(part: Part, e: Entry): Part {
    if part == [] then [e]
    else if part[0].key == e.key then [Entry(e.key, Merge(part[0].measures, e.measures))] + part[1..]
    else [part[0]] + Upsert(part[1..], e)
  }

  /** GROUP BY key, merging the states of each group. Insert blocks, background merges and the hourly view all do this. */
  function GroupBy(entries: seq<Entry>): Part {
    if entries == [] then []
    else Upsert(GroupBy(entries[..|entries| - 1]), entries[|entries| - 1])
  }

  /** A query: the merged states of all rows whose key the filter selects. */
  function Total(entries: seq<Entry>, p: Key -> bool): Measures {
    if entries == [] then NOTHING
    else if p(entries[0].key) then Merge(entries[0].measures, Total(entries[1..], p))
    else Total(entries[1..], p)
  }

  function TableTotal(parts: seq<Part>, p: Key -> bool): Measures {
    if parts == [] then NOTHING else Merge(Total(parts[0], p), TableTotal(parts[1..], p))
  }

  /** The three laws of merging, where a sum is only rearranged. */
  lemma SwapFirst(a: Measures, b: Measures, c: Measures)
    ensures Merge(a, Merge(b, c)) == Merge(b, Merge(a, c))
  {
    hide Merge;
    MergeAssociates(a, b, c);
    MergeCommutes(a, b);
    MergeAssociates(b, a, c);
  }

  lemma {:induction false} TotalAppend(a: seq<Entry>, b: seq<Entry>, p: Key -> bool)
    ensures Total(a + b, p) == Merge(Total(a, p), Total(b, p))
  {
    hide Merge;
    MergeNothing(Total(b, p));
    if a == [] {
      assert a + b == b;
    } else {
      assert (a + b)[1..] == a[1..] + b;
      TotalAppend(a[1..], b, p);
      MergeAssociates(a[0].measures, Total(a[1..], p), Total(b, p));
    }
  }

  lemma {:induction false} TotalUpsert(part: Part, e: Entry, p: Key -> bool)
    ensures Total(Upsert(part, e), p) == Merge(Total(part, p), Total([e], p))
  {
    hide Merge;
    if part == [] {
      MergeNothing(Total([e], p));
    } else if part[0].key == e.key {
      assert Upsert(part, e)[1..] == part[1..];
      assert [e][1..] == [];
      MergeNothing(e.measures);
      MergeNothing(Total(part[1..], p));
      MergeAssociates(part[0].measures, e.measures, Total(part[1..], p));
      MergeCommutes(e.measures, Total(part[1..], p));
      MergeAssociates(part[0].measures, Total(part[1..], p), e.measures);
      MergeNothing(Total(part, p));
    } else {
      assert Upsert(part, e)[1..] == Upsert(part[1..], e);
      TotalUpsert(part[1..], e, p);
      MergeAssociates(part[0].measures, Total(part[1..], p), Total([e], p));
    }
  }

  /** Grouping changes no query. */
  lemma {:induction false} GroupingKeepsTotals(entries: seq<Entry>, p: Key -> bool)
    ensures Total(GroupBy(entries), p) == Total(entries, p)
  {
    hide Merge, Upsert;
    if entries != [] {
      var n := |entries| - 1;
      GroupingKeepsTotals(entries[..n], p);
      TotalUpsert(GroupBy(entries[..n]), entries[n], p);
      assert entries == entries[..n] + [entries[n]];
      TotalAppend(entries[..n], [entries[n]], p);
    }
  }

  /** Rows of a part have distinct keys. */
  ghost predicate DistinctKeys(part: Part) {
    forall i, j :: 0 <= i < j < |part| ==> part[i].key != part[j].key
  }

  ghost predicate HasKey(entries: seq<Entry>, k: Key) {
    exists e :: e in entries && e.key == k
  }

  lemma FirstKeyIsNew(part: Part)
    requires DistinctKeys(part) && part != []
    ensures !HasKey(part[1..], part[0].key)
  {
    forall e | e in part[1..]
      ensures e.key != part[0].key
    {
      var i :| 0 <= i < |part[1..]| && part[1..][i] == e;
      assert part[i + 1] == e;
    }
  }

  lemma {:induction false} UpsertKeys(part: Part, e: Entry)
    requires DistinctKeys(part)
    ensures DistinctKeys(Upsert(part, e))
    ensures forall k :: HasKey(Upsert(part, e), k) <==> HasKey(part, k) || k == e.key
  {
    hide Merge;
    if part == [] {
      assert forall x :: x in Upsert(part, e) <==> x == e;
    } else if part[0].key == e.key {
      var u := Upsert(part, e);
      forall k
        ensures HasKey(u, k) <==> HasKey(part, k) || k == e.key
      {
        assert u[0] in u && part[0] in part;
        assert forall x :: x in u <==> x == u[0] || x in part[1..];
        assert forall x :: x in part <==> x == part[0] || x in part[1..];
      }
    } else {
      FirstKeyIsNew(part);
      UpsertKeys(part[1..], e);
      var rest := Upsert(part[1..], e);
      var u := [part[0]] + rest;
      assert forall x :: x in u <==> x == part[0] || x in rest;
      assert forall x :: x in part <==> x == part[0] || x in part[1..];
      forall j | 1 <= j < |u|
        ensures u[j].key != part[0].key
      {
        assert u[j] in rest;
        assert HasKey(rest, u[j].key);
      }
      forall k
        ensures HasKey(u, k) <==> HasKey(part, k) || k == e.key
      {
        assert HasKey(u, k) <==> k == part[0].key || HasKey(rest, k);
        assert HasKey(part, k) <==> k == part[0].key || HasKey(part[1..], k);
      }
    }
  }

  lemma {:induction false} GroupByKeys(entries: seq<Entry>)
    ensures DistinctKeys(GroupBy(entries))
    ensures forall k :: HasKey(GroupBy(entries), k) <==> HasKey(entries, k)
  {
    hide Upsert;
    if entries != [] {
      var n := |entries| - 1;
      GroupByKeys(entries[..n]);
      UpsertKeys(GroupBy(entries[..n]), entries[n]);
      assert forall x :: x in entries <==> x in entries[..n] || x == entries[n];
      forall k
        ensures HasKey(entries, k) <==> HasKey(entries[..n], k) || k == entries[n].key
      {
      }
    }
  }

  lemma {:induction false} RowIsItsGroup(part: Part, i: nat)
    requires DistinctKeys(part) && i < |part|
    ensures Total(part, k => k == part[i].key) == part[i].measures
  {
    hide Merge;
    var p := k => k == part[i].key;
    if i == 0 {
      NoMatchNoTotal(part[1..], p);
      MergeNothing(part[0].measures);
    } else {
      RowIsItsGroup(part[1..], i - 1);
      TotalOfSameFilter(part[1..], p, k => k == part[1..][i - 1].key);
    }
  }

  lemma {:induction false} NoMatchNoTotal(entries: seq<Entry>, p: Key -> bool)
    requires forall e :: e in entries ==> !p(e.key)
    ensures Total(entries, p) == NOTHING
  {
    if entries != [] {
      NoMatchNoTotal(entries[1..], p);
    }
  }

  lemma {:induction false} TotalOfSameFilter(entries: seq<Entry>, p: Key -> bool, q: Key -> bool)
    requires forall e :: e in entries ==> p(e.key) == q(e.key)
    ensures Total(entries, p) == Total(entries, q)
  {
    hide Merge;
    if entries != [] {
      TotalOfSameFilter(entries[1..], p, q);
    }
  }

  /**
   GROUP BY, stated without computing it: one row per key that occurs, and each row's states are
   the merged states of exactly the entries with its key.
   */
  lemma GroupByIsExact(entries: seq<Entry>, i: nat)
    requires i < |GroupBy(entries)|
    ensures DistinctKeys(GroupBy(entries))
    ensures forall k :: HasKey(GroupBy(entries), k) <==> HasKey(entries, k)
    ensures var row := GroupBy(entries)[i]; row.measures == Total(entries, k => k == row.key)
  {
    hide Merge, GroupBy;
    GroupByKeys(entries);
    var part := GroupBy(entries);
    RowIsItsGroup(part, i);
    var row := part[i];
    var p: Key -> bool := k => k == row.key;
    TotalOfSameFilter(part, p, k => k == part[i].key);
    GroupingKeepsTotals(entries, p);
    TotalOfSameFilter(entries, p, k => k == row.key);
  }

  // ---- The two tables over a run

  /** The rows the minute view makes of a block, before grouping. */
  function MinuteEntries(allow: Allowlist, spans: seq<Span>): (es: seq<Entry>)
    ensures |es| == |spans|
  {
    seq(|spans|, i requires 0 <= i < |spans| =>
      Entry(Key(FloorMinute(spans[i].ts), Guarded(allow, spans[i].dims)), Single(spans[i])))
  }

  function ToHour(k: Key): Key {
    Key(FloorHour(k.bucket), k.dims)
  }

  /** A filter on hour keys, applied to finer ones. */
  function AtHour(p: Key -> bool): Key -> bool {
    k => p(ToHour(k))
  }

  /** The rows the hourly view makes of minute rows, before grouping. */
  function HourEntries(entries: seq<Entry>): (es: seq<Entry>)
    ensures |es| == |entries|
  {
    seq(|entries|, i requires 0 <= i < |entries| => Entry(ToHour(entries[i].key), entries[i].measures))
  }

  datatype Tables = Tables(minute: seq<Part>, hour: seq<Part>)

  datatype Op =
    | Insert(allow: Allowlist, block: seq<Span>)
    | MergeMinute(i: nat, j: nat)
    | MergeHour(i: nat, j: nat)

  /** An insert fires the minute view, and the rows that writes fire the hourly view. */
  function Inserted(t: Tables, allow: Allowlist, block: seq<Span>): Tables {
    var part := GroupBy(MinuteEntries(allow, block));
    Tables(t.minute + [part], t.hour + [GroupBy(HourEntries(part))])
  }

  /** A background merge replaces two parts by one. */
  function Merged(parts: seq<Part>, i: nat, j: nat): seq<Part>
    requires i < j < |parts|
  {
    parts[..i] + parts[i + 1..j] + parts[j + 1..] + [GroupBy(parts[i] + parts[j])]
  }

  predicate Possible(t: Tables, op: Op) {
    match op
    case Insert(_, _) => true
    case MergeMinute(i, j) => i < j < |t.minute|
    case MergeHour(i, j) => i < j < |t.hour|
  }

  function Apply(t: Tables, op: Op): Tables
    requires Possible(t, op)
  {
    match op
    case Insert(allow, block) => Inserted(t, allow, block)
    case MergeMinute(i, j) => t.(minute := Merged(t.minute, i, j))
    case MergeHour(i, j) => t.(hour := Merged(t.hour, i, j))
  }

  /** The tables after a run; impossible merges do not happen. */
  function Run(ops: seq<Op>): Tables {
    if ops == [] then Tables([], [])
    else
      var t := Run(ops[..|ops| - 1]);
      var op := ops[|ops| - 1];
      if Possible(t, op) then Apply(t, op) else t
  }

  /** Everything a run ingested, each span under the allowlist of its time. */
  function Ingested(ops: seq<Op>): seq<Entry> {
    if ops == [] then []
    else
      var op := ops[|ops| - 1];
      Ingested(ops[..|ops| - 1]) + (if op.Insert? then MinuteEntries(op.allow, op.block) else [])
  }

  lemma {:induction false} TableTotalAppend(a: seq<Part>, b: seq<Part>, p: Key -> bool)
    ensures TableTotal(a + b, p) == Merge(TableTotal(a, p), TableTotal(b, p))
  {
    hide Merge;
    if a == [] {
      assert a + b == b;
      MergeNothing(TableTotal(b, p));
    } else {
      assert (a + b)[1..] == a[1..] + b;
      TableTotalAppend(a[1..], b, p);
      MergeAssociates(Total(a[0], p), TableTotal(a[1..], p), TableTotal(b, p));
    }
  }

  lemma TableTotalOne(part: Part, p: Key -> bool)
    ensures TableTotal([part], p) == Total(part, p)
  {
    hide Merge;
    assert [part][1..] == [];
    MergeNothing(Total(part, p));
  }

  /** Background merges change no query. */
  lemma MergingKeepsTotals(parts: seq<Part>, i: nat, j: nat, p: Key -> bool)
    requires i < j < |parts|
    ensures TableTotal(Merged(parts, i, j), p) == TableTotal(parts, p)
  {
    hide Merge, GroupBy, Total, TableTotal;
    var a, b, c := parts[..i], parts[i + 1..j], parts[j + 1..];
    var x, y := parts[i], parts[j];
    assert parts == a + [x] + b + [y] + c;
    GroupingKeepsTotals(x + y, p);
    TotalAppend(x, y, p);
    TableTotalOne(x, p);
    TableTotalOne(y, p);
    TableTotalOne(GroupBy(x + y), p);
    TableTotalAppend(a, [x], p);
    TableTotalAppend(a + [x], b, p);
    TableTotalAppend(a + [x] + b, [y], p);
    TableTotalAppend(a + [x] + b + [y], c, p);
    TableTotalAppend(a, b, p);
    TableTotalAppend(a + b, c, p);
    TableTotalAppend(a + b + c, [GroupBy(x + y)], p);
    Rearrange(TableTotal(a, p), Total(x, p), TableTotal(b, p), Total(y, p), TableTotal(c, p));
  }

  lemma Rearrange(a: Measures, x: Measures, b: Measures, y: Measures, c: Measures)
    ensures Merge(Merge(Merge(Merge(a, x), b), y), c) == Merge(Merge(Merge(a, b), c), Merge(x, y))
  {
    hide Merge;
    var ab := Merge(a, b);
    MergeAssociates(a, x, b);
    MergeCommutes(x, b);
    MergeAssociates(a, b, x);
    assert Merge(Merge(a, x), b) == Merge(ab, x);
    MergeAssociates(ab, x, y);
    var xy := Merge(x, y);
    MergeAssociates(ab, xy, c);
    MergeCommutes(xy, c);
    MergeAssociates(ab, c, xy);
  }

  lemma {:induction false} HourTotal(entries: seq<Entry>, p: Key -> bool)
    ensures Total(HourEntries(entries), p) == Total(entries, AtHour(p))
  {
    hide Merge, ToHour;
    if entries != [] {
      HourTotal(entries[1..], p);
      assert HourEntries(entries)[1..] == HourEntries(entries[1..]);
    }
  }

  /** The minute table answers every query as the ungrouped rows would. */
  lemma {:induction false} MinuteTableRefines(ops: seq<Op>, p: Key -> bool)
    ensures TableTotal(Run(ops).minute, p) == Total(Ingested(ops), p)
  {
    hide Merge, GroupBy, Total, TableTotal, MinuteEntries, HourEntries;
    if ops == [] {
      EmptyTables(p);
    } else {
      var n := |ops| - 1;
      MinuteTableRefines(ops[..n], p);
      var t, op := Run(ops[..n]), ops[n];
      match op
      case Insert(allow, block) =>
        var es := MinuteEntries(allow, block);
        GroupingKeepsTotals(es, p);
        TableTotalOne(GroupBy(es), p);
        TableTotalAppend(t.minute, [GroupBy(es)], p);
        TotalAppend(Ingested(ops[..n]), es, p);
      case MergeMinute(i, j) =>
        assert Ingested(ops) == Ingested(ops[..n]);
        if i < j < |t.minute| {
          MergingKeepsTotals(t.minute, i, j, p);
        }
      case MergeHour(_, _) =>
        assert Ingested(ops) == Ingested(ops[..n]);
    }
  }

  lemma EmptyTables(p: Key -> bool)
    ensures TableTotal([], p) == NOTHING && Total([], p) == NOTHING
  {
  }

  /** So does the hour table, for every query at hour resolution. */
  lemma {:induction false} HourTableRefines(ops: seq<Op>, p: Key -> bool)
    ensures TableTotal(Run(ops).hour, p) == Total(Ingested(ops), AtHour(p))
  {
    hide Merge, GroupBy, Total, TableTotal, MinuteEntries, HourEntries, ToHour;
    var q := AtHour(p);
    if ops == [] {
      EmptyTables(p);
      EmptyTables(q);
    } else {
      var n := |ops| - 1;
      HourTableRefines(ops[..n], p);
      var t, op := Run(ops[..n]), ops[n];
      match op
      case Insert(allow, block) =>
        var es := MinuteEntries(allow, block);
        var part := GroupBy(es);
        GroupingKeepsTotals(es, q);
        GroupingKeepsTotals(HourEntries(part), p);
        HourTotal(part, p);
        TableTotalOne(GroupBy(HourEntries(part)), p);
        TableTotalAppend(t.hour, [GroupBy(HourEntries(part))], p);
        TotalAppend(Ingested(ops[..n]), es, q);
      case MergeMinute(_, _) =>
        assert Ingested(ops) == Ingested(ops[..n]);
      case MergeHour(i, j) =>
        assert Ingested(ops) == Ingested(ops[..n]);
        if i < j < |t.hour| {
          MergingKeepsTotals(t.hour, i, j, p);
        }
    }
  }

  // ---- Against the raw spans

  /** The spans a filter selects. */
  function Selected(spans: seq<Span>, q: Span -> bool): seq<Span> {
    if spans == [] then []
    else (if q(spans[0]) then [spans[0]] else []) + Selected(spans[1..], q)
  }

  /** Aggregating raw spans directly. */
  function Aggregate(spans: seq<Span>): Measures {
    if spans == [] then NOTHING else Merge(Single(spans[0]), Aggregate(spans[1..]))
  }

  function SumBy(spans: seq<Span>, f: Span -> real): real {
    if spans == [] then 0.0 else f(spans[0]) + SumBy(spans[1..], f)
  }

  function CountBy(spans: seq<Span>, f: Span -> nat): nat {
    if spans == [] then 0 else f(spans[0]) + CountBy(spans[1..], f)
  }

  /** The spans with a reading, and what a state of their mean holds. */
  function Measured(spans: seq<Span>, f: Span -> real): seq<Span> {
    Selected(spans, (s: Span) => f(s) > 0.0)
  }

  function MeanOf(spans: seq<Span>, f: Span -> real): Average {
    Average(SumBy(Measured(spans, f), f), |Measured(spans, f)|)
  }

  /** What the direct aggregate of some spans says about them. */
  lemma {:induction false} AggregateMeans(spans: seq<Span>)
    ensures var m := Aggregate(spans);
            && m.spans == |spans|
            && m.traces == (set s | s in spans :: s.traceId)
            && DIMENSIONS[STATUS_CLASS] == "status_class"
            && m.errors == |Selected(spans, (s: Span) => s.dims[STATUS_CLASS] != "ok")|
            && (spans == [] <==> m.kvMax.None?)
            && (spans != [] ==> (exists s :: s in spans && s.kvCache == m.kvMax.value)
                                && forall s :: s in spans ==> s.kvCache <= m.kvMax.value)
  {
    hide MergeAverage, AverageIf, ObserveIf;
    if spans != [] {
      AggregateMeans(spans[1..]);
      assert spans == [spans[0]] + spans[1..];
      assert spans[0] in spans;
    }
  }

  /** Its token counts are sums over all spans, and its averages are over the spans with a reading. */
  lemma {:induction false} AggregateSums(spans: seq<Span>)
    ensures var m := Aggregate(spans);
            && m.inputTokens == CountBy(spans, (s: Span) => s.inputTokens)
            && m.outputTokens == CountBy(spans, (s: Span) => s.outputTokens)
            && m.cachedTokens == CountBy(spans, (s: Span) => s.cachedTokens)
            && m.itl == MeanOf(spans, (s: Span) => s.itlMs)
            && m.queueTime == MeanOf(spans, (s: Span) => s.queueTimeMs)
            && m.kvCache == MeanOf(spans, (s: Span) => s.kvCache)
  {
    hide MergeMax, ObserveIf, MeanOf;
    if spans == [] {
      NoMean((s: Span) => s.itlMs);
      NoMean((s: Span) => s.queueTimeMs);
      NoMean((s: Span) => s.kvCache);
    } else {
      AggregateSums(spans[1..]);
      OneMoreReading(spans, (s: Span) => s.itlMs);
      OneMoreReading(spans, (s: Span) => s.queueTimeMs);
      OneMoreReading(spans, (s: Span) => s.kvCache);
    }
  }

  lemma NoMean(f: Span -> real)
    ensures MeanOf([], f) == NO_AVERAGE
  {
  }

  lemma OneMoreReading(spans: seq<Span>, f: Span -> real)
    requires spans != []
    ensures MeanOf(spans, f) == MergeAverage(AverageIf(f(spans[0])), MeanOf(spans[1..], f))
  {
    var rest := Measured(spans[1..], f);
    if f(spans[0]) > 0.0 {
      assert Measured(spans, f) == [spans[0]] + rest;
      assert ([spans[0]] + rest)[1..] == rest;
    } else {
      assert Measured(spans, f) == rest;
    }
  }

  /** Each quantile digest has absorbed every positive reading as often as it occurs, and no other. */
  lemma {:induction false} DigestMeans(spans: seq<Span>, x: real)
    ensures Aggregate(spans).ttft[x]
            == if x > 0.0 then |Selected(spans, (s: Span) => s.ttftMs == x)| else 0
    ensures Aggregate(spans).duration[x]
            == if x > 0.0 then |Selected(spans, (s: Span) => s.durationMs == x)| else 0
  {
    hide MergeMax, MergeAverage, AverageIf;
    if spans != [] {
      DigestMeans(spans[1..], x);
    }
  }

  function Raw(ops: seq<Op>): seq<Span> {
    if ops == [] then []
    else
      var op := ops[|ops| - 1];
      Raw(ops[..|ops| - 1]) + (if op.Insert? then op.block else [])
  }

  lemma {:induction false} IngestedUnderOneAllowlist(ops: seq<Op>, allow: Allowlist)
    requires forall op :: op in ops && op.Insert? ==> op.allow == allow
    ensures Ingested(ops) == MinuteEntries(allow, Raw(ops))
  {
    hide Guarded, Single, FloorMinute, MinuteEntries;
    if ops == [] {
      assert MinuteEntries(allow, []) == [];
    } else {
      var n := |ops| - 1;
      IngestedUnderOneAllowlist(ops[..n], allow);
      if ops[n].Insert? {
        MinuteEntriesAppend(allow, Raw(ops[..n]), ops[n].block);
      } else {
        assert Raw(ops) == Raw(ops[..n]) && Ingested(ops) == Ingested(ops[..n]);
      }
    }
  }

  lemma MinuteEntriesAppend(allow: Allowlist, a: seq<Span>, b: seq<Span>)
    ensures MinuteEntries(allow, a + b) == MinuteEntries(allow, a) + MinuteEntries(allow, b)
  {
    hide Guarded, Single, FloorMinute;
  }

  /** The minute key of a span, and its hour key. */
  function MinuteKey(allow: Allowlist, s: Span): Key {
    Key(FloorMinute(s.ts), Guarded(allow, s.dims))
  }

  function HourKey(allow: Allowlist, s: Span): Key {
    Key(FloorHour(s.ts), Guarded(allow, s.dims))
  }

  /** The spans a filter on minute keys, or on hour keys, selects. */
  function OnMinute(allow: Allowlist, p: Key -> bool): Span -> bool {
    s => p(MinuteKey(allow, s))
  }

  function OnHour(allow: Allowlist, p: Key -> bool): Span -> bool {
    s => p(HourKey(allow, s))
  }

  lemma {:induction false} TotalOfSpans(allow: Allowlist, spans: seq<Span>, p: Key -> bool)
    ensures Total(MinuteEntries(allow, spans), p) == Aggregate(Selected(spans, OnMinute(allow, p)))
  {
    hide Merge, Single, Guarded, FloorMinute;
    if spans != [] {
      TotalOfSpans(allow, spans[1..], p);
      assert MinuteEntries(allow, spans)[1..] == MinuteEntries(allow, spans[1..]);
      var q := OnMinute(allow, p);
      var rest := Selected(spans[1..], q);
      assert MinuteEntries(allow, spans)[0] == Entry(MinuteKey(allow, spans[0]), Single(spans[0]));
      if q(spans[0]) {
        assert Selected(spans, q) == [spans[0]] + rest;
        assert ([spans[0]] + rest)[1..] == rest;
      } else {
        assert Selected(spans, q) == rest;
      }
    }
  }

  lemma {:induction false} SelectedBySameFilter(spans: seq<Span>, q: Span -> bool, r: Span -> bool)
    requires forall s :: q(s) == r(s)
    ensures Selected(spans, q) == Selected(spans, r)
  {
    if spans != [] {
      SelectedBySameFilter(spans[1..], q, r);
    }
  }

  /** Rows made of spans answer queries at minute and at hour resolution as the spans do. */
  lemma SpansAtBothResolutions(allow: Allowlist, spans: seq<Span>, p: Key -> bool)
    ensures Total(MinuteEntries(allow, spans), p) == Aggregate(Selected(spans, OnMinute(allow, p)))
    ensures Total(MinuteEntries(allow, spans), AtHour(p)) == Aggregate(Selected(spans, OnHour(allow, p)))
  {
    hide Total, Aggregate, Selected, MinuteEntries, Guarded;
    TotalOfSpans(allow, spans, p);
    TotalOfSpans(allow, spans, AtHour(p));
    forall s: Span
      ensures OnMinute(allow, AtHour(p))(s) == OnHour(allow, p)(s)
    {
      HourOfMinute(s.ts);
      assert ToHour(MinuteKey(allow, s)) == HourKey(allow, s);
    }
    SelectedBySameFilter(spans, OnMinute(allow, AtHour(p)), OnHour(allow, p));
  }

  /**
   Rollup refinement in both tiers. For one allowlist, however the spans are split into insert
   blocks and however parts are merged in the background, every query on the minute table equals
   the direct guarded group-by on the raw spans at minute resolution, and every query on the hour
   table the direct one at hour resolution.
   */
  lemma RollupsAreDirectGroupBys(ops: seq<Op>, allow: Allowlist, p: Key -> bool)
    requires forall op :: op in ops && op.Insert? ==> op.allow == allow
    ensures TableTotal(Run(ops).minute, p) == Aggregate(Selected(Raw(ops), OnMinute(allow, p)))
    ensures TableTotal(Run(ops).hour, p) == Aggregate(Selected(Raw(ops), OnHour(allow, p)))
  {
    hide Merge, Total, TableTotal, Run, Raw, Ingested, Aggregate, Selected, Guarded;
    IngestedUnderOneAllowlist(ops, allow);
    MinuteTableRefines(ops, p);
    HourTableRefines(ops, p);
    SpansAtBothResolutions(allow, Raw(ops), p);
  }
}
