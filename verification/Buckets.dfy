/** Which spans a rollup row stands for, by the clock: one minute's in one table, one hour's in the other. */
module Buckets {
  import opened Cardinality
  import opened Rollup
  import opened Timeline

  // ---- Truncation

  /** The clock minute that begins at m holds t. */
  lemma MinuteIs(t: Instant, m: Instant)
    requires m % MINUTE == 0
    ensures FloorMinute(t) == m <==> m <= t < m + MINUTE
  {
  }

  lemma HourIs(t: Instant, m: Instant)
    requires m % HOUR == 0
    ensures FloorHour(t) == m <==> m <= t < m + HOUR
  {
  }

  lemma OneStartPerWidth(k: Instant, m: Instant, width: Duration)
    requires width == MINUTE || width == HOUR
    requires k % width == 0 && m % width == 0 && m <= k < m + width
    ensures k == m
  {
    if width == MINUTE {
      MinuteIs(k, m);
      MinuteIs(k, k);
    } else {
      HourIs(k, m);
      HourIs(k, k);
    }
  }

  // ---- Every row's bucket

  /** The bucket begins on a multiple of its width, and one of the spans falls in it. */
  ghost predicate HoldsASpan(k: Key, spans: seq<Span>, width: Duration)
    requires width > 0
  {
    k.bucket % width == 0 && exists s :: s in spans && k.bucket <= s.ts < k.bucket + width
  }

  ghost function Holding(spans: seq<Span>, width: Duration): Key -> bool
    requires width > 0
  {
    k => HoldsASpan(k, spans, width)
  }

  lemma MoreSpans(parts: seq<Part>, spans: seq<Span>, more: seq<Span>, width: Duration)
    requires width > 0 && KeysWithin(parts, Holding(spans, width))
    ensures KeysWithin(parts, Holding(spans + more, width))
  {
    forall part, e | part in parts && e in part
      ensures HoldsASpan(e.key, spans + more, width)
    {
      assert HoldsASpan(e.key, spans, width);
      var s :| s in spans && e.key.bucket <= s.ts < e.key.bucket + width;
      assert s in spans + more;
    }
  }

  lemma BlockBuckets(allow: Allowlist, block: seq<Span>)
    ensures var part := GroupBy(MinuteEntries(allow, block));
            && (forall e :: e in part ==> HoldsASpan(e.key, block, MINUTE))
            && (forall e :: e in GroupBy(HourEntries(part)) ==> HoldsASpan(e.key, block, HOUR))
  {
    hide GroupBy, Guarded, FloorMinute, FloorHour;
    var es := MinuteEntries(allow, block);
    forall e | e in es
      ensures HoldsASpan(e.key, block, MINUTE) && HoldsASpan(ToHour(e.key), block, HOUR)
    {
      var i :| 0 <= i < |es| && es[i] == e;
      assert block[i] in block;
      SpanIsInItsBuckets(block[i].ts);
    }
    var both: Key -> bool := k => HoldsASpan(k, block, MINUTE) && HoldsASpan(ToHour(k), block, HOUR);
    GroupedKeysWithin(es, both);
    var part := GroupBy(es);
    var hs := HourEntries(part);
    forall e | e in hs
      ensures HoldsASpan(e.key, block, HOUR)
    {
      var i :| 0 <= i < |hs| && hs[i] == e;
      assert part[i] in part;
    }
    GroupedKeysWithin(hs, Holding(block, HOUR));
  }

  lemma WholeMinutes(q: int)
    ensures (q * MINUTE) % MINUTE == 0
  {
  }

  lemma WholeHours(q: int)
    ensures (q * HOUR) % HOUR == 0
  {
  }

  lemma SpanIsInItsBuckets(t: Instant)
    ensures var m := FloorMinute(t);
            && m % MINUTE == 0 && m <= t < m + MINUTE
            && FloorHour(m) % HOUR == 0 && FloorHour(m) <= t < FloorHour(m) + HOUR
  {
    HourOfMinute(t);
    WholeMinutes(t / MINUTE);
    WholeHours(t / HOUR);
  }

  /**
   In every run, whatever the allowlists, each row of the minute table is for a clock minute in which
   some ingested span falls, and each row of the hour table for such an hour.
   */
  lemma {:induction false} BucketsAreClockTimes(ops: seq<Op>)
    ensures KeysWithin(Run(ops).minute, Holding(Raw(ops), MINUTE))
    ensures KeysWithin(Run(ops).hour, Holding(Raw(ops), HOUR))
  {
    hide GroupBy, MinuteEntries, HourEntries, HoldsASpan;
    if ops != [] {
      var n := |ops| - 1;
      BucketsAreClockTimes(ops[..n]);
      var t, op := Run(ops[..n]), ops[n];
      var more := if op.Insert? then op.block else [];
      MoreSpans(t.minute, Raw(ops[..n]), more, MINUTE);
      MoreSpans(t.hour, Raw(ops[..n]), more, HOUR);
      match op
      case Insert(allow, block) => InsertedBuckets(t, allow, block, Raw(ops[..n]));
      case MergeMinute(i, j) =>
        if i < j < |t.minute| {
          MergedKeysWithin(t.minute, i, j, Holding(Raw(ops), MINUTE));
        }
      case MergeHour(i, j) =>
        if i < j < |t.hour| {
          MergedKeysWithin(t.hour, i, j, Holding(Raw(ops), HOUR));
        }
    }
  }

  lemma InsertedBuckets(t: Tables, allow: Allowlist, block: seq<Span>, before: seq<Span>)
    requires KeysWithin(t.minute, Holding(before + block, MINUTE))
    requires KeysWithin(t.hour, Holding(before + block, HOUR))
    ensures KeysWithin(Inserted(t, allow, block).minute, Holding(before + block, MINUTE))
    ensures KeysWithin(Inserted(t, allow, block).hour, Holding(before + block, HOUR))
  {
    hide GroupBy, MinuteEntries, HourEntries;
    BlockBuckets(allow, block);
    var part := GroupBy(MinuteEntries(allow, block));
    forall e | e in part
      ensures HoldsASpan(e.key, before + block, MINUTE)
    {
      var s :| s in block && e.key.bucket <= s.ts < e.key.bucket + MINUTE;
      assert s in before + block;
    }
    forall e | e in GroupBy(HourEntries(part))
      ensures HoldsASpan(e.key, before + block, HOUR)
    {
      var s :| s in block && e.key.bucket <= s.ts < e.key.bucket + HOUR;
      assert s in before + block;
    }
  }

  // ---- Which spans a bucket counts

  /** The rows of one bucket whose dimensions a filter selects. */
  function InBucket(m: Instant, d: Dims -> bool): Key -> bool {
    (k: Key) => k.bucket == m && d(k.dims)
  }

  /** The spans of a stretch of time whose guarded dimensions the filter selects. */
  function Between(allow: Allowlist, from: Instant, to: Instant, d: Dims -> bool): Span -> bool {
    (s: Span) => from <= s.ts < to && d(Guarded(allow, s.dims))
  }

  /**
   For one allowlist, any insert blocks and any merges: what the minute table says of a clock minute is
   the direct aggregate of exactly the spans that fall in it, and what the hour table says of a clock
   hour that of the spans in the hour.
   */
  lemma BucketsCountTheirSpans(ops: seq<Op>, allow: Allowlist, m: Instant, d: Dims -> bool)
    requires forall op :: op in ops && op.Insert? ==> op.allow == allow
    ensures m % MINUTE == 0 ==>
              TableTotal(Run(ops).minute, InBucket(m, d))
              == Aggregate(Selected(Raw(ops), Between(allow, m, m + MINUTE, d)))
    ensures m % HOUR == 0 ==>
              TableTotal(Run(ops).hour, InBucket(m, d))
              == Aggregate(Selected(Raw(ops), Between(allow, m, m + HOUR, d)))
  {
    hide Run, Raw, TableTotal, Aggregate, Selected, Guarded, FloorMinute, FloorHour;
    RollupsAreDirectGroupBys(ops, allow, InBucket(m, d));
    if m % MINUTE == 0 {
      forall s: Span
        ensures OnMinute(allow, InBucket(m, d))(s) == Between(allow, m, m + MINUTE, d)(s)
      {
        MinuteIs(s.ts, m);
        assert MinuteKey(allow, s) == Key(FloorMinute(s.ts), Guarded(allow, s.dims));
      }
      SelectedBySameFilter(Raw(ops), OnMinute(allow, InBucket(m, d)), Between(allow, m, m + MINUTE, d));
    }
    if m % HOUR == 0 {
      forall s: Span
        ensures OnHour(allow, InBucket(m, d))(s) == Between(allow, m, m + HOUR, d)(s)
      {
        HourIs(s.ts, m);
        assert HourKey(allow, s) == Key(FloorHour(s.ts), Guarded(allow, s.dims));
      }
      SelectedBySameFilter(Raw(ops), OnHour(allow, InBucket(m, d)), Between(allow, m, m + HOUR, d));
    }
  }

  // ---- How many keys a clock minute has

  /** The distinct keys with a bucket in a stretch of time. */
  ghost function KeysBetween(parts: seq<Part>, from: Instant, to: Instant): set<Key> {
    set i, j | 0 <= i < |parts| && 0 <= j < |parts[i]| && from <= parts[i][j].key.bucket < to :: parts[i][j].key
  }

  lemma {:induction false} AsManyKeys(ks: set<Key>, bucket: Instant, tuples: set<seq<string>>)
    requires forall k :: k in ks ==> k.bucket == bucket && k.dims in tuples
    ensures |ks| <= |tuples|
    decreases |ks|
  {
    if ks != {} {
      var k :| k in ks;
      forall other | other in ks - {k}
        ensures other.dims in tuples - {k.dims}
      {
        assert other.dims != k.dims;
      }
      AsManyKeys(ks - {k}, bucket, tuples - {k.dims});
    }
  }

  lemma OneBucketAtMost(parts: seq<Part>, spans: seq<Span>, width: Duration, m: Instant)
    requires (width == MINUTE || width == HOUR) && m % width == 0 && KeysWithin(parts, Holding(spans, width))
    ensures |KeysBetween(parts, m, m + width)| <= |KeysOf(parts, m)|
  {
    forall k | k in KeysBetween(parts, m, m + width)
      ensures k.bucket == m && k.dims in KeysOf(parts, m)
    {
      var i, j :| && 0 <= i < |parts| && 0 <= j < |parts[i]| && m <= parts[i][j].key.bucket < m + width
                  && parts[i][j].key == k;
      assert parts[i] in parts && parts[i][j] in parts[i];
      assert HoldsASpan(k, spans, width);
      OneStartPerWidth(k.bucket, m, width);
    }
    AsManyKeys(KeysBetween(parts, m, m + width), m, KeysOf(parts, m));
  }

  /**
   The cardinality bound by the clock: no clock minute of the minute table, and no clock hour of the
   hour table, has more rows' keys than the product of the final domains' sizes.
   */
  lemma ClockTimesAreBounded(ops: seq<Op>, final: Allowlist, m: Instant)
    requires forall op :: op in ops && op.Insert? ==> op.allow <= final
    ensures m % MINUTE == 0 ==>
              |KeysBetween(Run(ops).minute, m, m + MINUTE)| <= Product(Sizes(DomainsOf(final)))
    ensures m % HOUR == 0 ==>
              |KeysBetween(Run(ops).hour, m, m + HOUR)| <= Product(Sizes(DomainsOf(final)))
  {
    hide Run, KeysOf, KeysBetween, Product, KeysWithin;
    BucketsAreClockTimes(ops);
    KeysAreBounded(ops, final, m);
    if m % MINUTE == 0 {
      OneBucketAtMost(Run(ops).minute, Raw(ops), MINUTE, m);
    }
    if m % HOUR == 0 {
      OneBucketAtMost(Run(ops).hour, Raw(ops), HOUR, m);
    }
  }
}
