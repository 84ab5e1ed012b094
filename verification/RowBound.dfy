/** The bound on rollup rows is attained, so it holds for all traffic exactly when the allowlist is within budget. */
module RowBound {
  import opened Cardinality
  import opened Rollup
  import opened Timeline

  // ---- A value no allowlist registers

  lemma {:induction false} LongestValue(allow: Allowlist) returns (n: nat)
    ensures forall p :: p in allow ==> |p.1| <= n
    decreases allow
  {
    if allow == {} {
      n := 0;
    } else {
      var p :| p in allow;
      n := LongestValue(allow - {p});
      if |p.1| > n {
        n := |p.1|;
      }
    }
  }

  lemma UnregisteredValue(allow: Allowlist) returns (v: string)
    ensures v != "" && forall d :: (d, v) !in allow
  {
    var n := LongestValue(allow);
    v := seq(n + 1, _ => 'x');
    forall d
      ensures (d, v) !in allow
    {
      assert (d, v) in allow ==> |(d, v).1| <= n;
    }
  }

  // ---- A span for every tuple

  /** A raw value that the guard turns into g. */
  function Preimage(allow: Allowlist, dimension: string, g: string, unregistered: string): string {
    if g != "" && (dimension, g) in allow then g
    else if g == NONE_BUCKET then ""
    else unregistered
  }

  lemma PreimageIsGuarded(allow: Allowlist, dimension: string, g: string, unregistered: string)
    requires g in Domain(allow, dimension)
    requires unregistered != "" && (dimension, unregistered) !in allow
    ensures Guard(allow, dimension, Preimage(allow, dimension, g, unregistered)) == g
  {
  }

  function SpanOf(allow: Allowlist, ts: Instant, t: Dims, unregistered: string): Span {
    Span(ts, seq(7, i requires 0 <= i < 7 => Preimage(allow, DIMENSIONS[i], t[i], unregistered)), "",
         0, 0, 0, 0.0, 0.0, 0.0, 0.0, 0.0)
  }

  lemma {:induction false} TupleComponents(doms: seq<set<string>>, t: seq<string>)
    requires t in Tuples(doms)
    ensures |t| == |doms| && forall i :: 0 <= i < |t| ==> t[i] in doms[i]
    decreases |doms|
  {
    if doms != [] {
      var x, rest :| x in doms[0] && rest in Tuples(doms[1..]) && t == [x] + rest;
      TupleComponents(doms[1..], rest);
    }
  }

  lemma SpanIsGuarded(allow: Allowlist, ts: Instant, t: seq<string>, unregistered: string)
    requires t in Tuples(DomainsOf(allow))
    requires unregistered != "" && forall d :: (d, unregistered) !in allow
    ensures |t| == 7 && Guarded(allow, SpanOf(allow, ts, t, unregistered).dims) == t
  {
    hide Domain, Guard, Preimage, Tuples;
    TupleComponents(DomainsOf(allow), t);
    forall i | 0 <= i < 7
      ensures Guarded(allow, SpanOf(allow, ts, t, unregistered).dims)[i] == t[i]
    {
      PreimageIsGuarded(allow, DIMENSIONS[i], t[i], unregistered);
    }
  }

  /** A block at one instant with a span for every given tuple. */
  lemma {:induction false} BlockOf(allow: Allowlist, ts: Instant, tuples: set<seq<string>>, unregistered: string)
    returns (block: seq<Span>)
    requires tuples <= Tuples(DomainsOf(allow))
    requires unregistered != "" && forall d :: (d, unregistered) !in allow
    ensures forall t :: t in tuples ==> exists s :: s in block && s.ts == ts && Guarded(allow, s.dims) == t
    decreases tuples
  {
    hide Guarded, Tuples;
    if tuples == {} {
      block := [];
    } else {
      var t :| t in tuples;
      var others := BlockOf(allow, ts, tuples - {t}, unregistered);
      SpanIsGuarded(allow, ts, t, unregistered);
      var span := SpanOf(allow, ts, t, unregistered);
      block := [span] + others;
      forall u | u in tuples
        ensures exists s :: s in block && s.ts == ts && Guarded(allow, s.dims) == u
      {
        if u == t {
          assert span in block;
        } else {
          assert u in tuples - {t};
          var s :| s in others && s.ts == ts && Guarded(allow, s.dims) == u;
          assert s in block;
        }
      }
    }
  }

  // ---- Every tuple in one bucket

  /** A span of an inserted block has its key in the part that the minute view writes. */
  lemma MinuteKeyOccurs(allow: Allowlist, block: seq<Span>, s: Span)
    requires s in block
    ensures HasKey(GroupBy(MinuteEntries(allow, block)), Key(FloorMinute(s.ts), Guarded(allow, s.dims)))
  {
    hide GroupBy, Guarded, Single;
    var es := MinuteEntries(allow, block);
    var i :| 0 <= i < |block| && block[i] == s;
    assert es[i] in es;
    GroupByKeys(es);
  }

  lemma HourKeyOccurs(part: Part, k: Key)
    requires HasKey(part, k)
    ensures HasKey(GroupBy(HourEntries(part)), ToHour(k))
  {
    hide GroupBy;
    var e :| e in part && e.key == k;
    var i :| 0 <= i < |part| && part[i] == e;
    assert HourEntries(part)[i] in HourEntries(part);
    GroupByKeys(HourEntries(part));
  }

  lemma OnePartKeys(part: Part, bucket: Instant, dims: Dims)
    requires HasKey(part, Key(bucket, dims))
    ensures dims in KeysOf([part], bucket)
  {
    var e :| e in part && e.key == Key(bucket, dims);
    var j :| 0 <= j < |part| && part[j] == e;
    assert [part][0][j].key == Key(bucket, dims);
  }

  lemma OneInsert(allow: Allowlist, block: seq<Span>)
    ensures var part := GroupBy(MinuteEntries(allow, block));
            Run([Insert(allow, block)]) == Tables([part], [GroupBy(HourEntries(part))])
  {
    hide GroupBy, MinuteEntries, HourEntries;
    assert [Insert(allow, block)][..0] == [];
    assert Run([Insert(allow, block)][..0]) == Tables([], []);
  }

  /**
   The bound is attained: for every allowlist some single block of spans fills a bucket of either
   table with every key the guard can produce.
   */
  lemma BoundIsAttained(allow: Allowlist, bucket: Instant) returns (block: seq<Span>)
    requires bucket % MINUTE == 0
    ensures |KeysOf(Run([Insert(allow, block)]).minute, bucket)| == Product(Sizes(DomainsOf(allow)))
    ensures bucket % HOUR == 0 ==>
              |KeysOf(Run([Insert(allow, block)]).hour, bucket)| == Product(Sizes(DomainsOf(allow)))
  {
    hide Run, KeysOf, Tuples, Guarded, GroupBy, MinuteEntries, HourEntries, Product, Domain;
    var tuples := Tuples(DomainsOf(allow));
    var unregistered := UnregisteredValue(allow);
    block := BlockOf(allow, bucket, tuples, unregistered);
    var ops := [Insert(allow, block)];
    OneInsert(allow, block);
    var part := GroupBy(MinuteEntries(allow, block));
    forall t | t in tuples
      ensures t in KeysOf(Run(ops).minute, bucket)
      ensures bucket % HOUR == 0 ==> t in KeysOf(Run(ops).hour, bucket)
    {
      var s :| s in block && s.ts == bucket && Guarded(allow, s.dims) == t;
      MinuteKeyOccurs(allow, block, s);
      OnePartKeys(part, bucket, t);
      HourKeyOccurs(part, Key(bucket, t));
      OnePartKeys(GroupBy(HourEntries(part)), FloorHour(bucket), t);
    }
    KeysAreBounded(ops, allow, bucket);
    TuplesSize(DomainsOf(allow));
    SubsetSize(tuples, KeysOf(Run(ops).minute, bucket));
    if bucket % HOUR == 0 {
      SubsetSize(tuples, KeysOf(Run(ops).hour, bucket));
    }
  }

  // ---- The registry's bound

  /** Every insert happens under an allowlist that the final one has grown from. */
  ghost predicate Under(ops: seq<Op>, final: Allowlist) {
    forall op :: op in ops && op.Insert? ==> op.allow <= final
  }

  ghost predicate WithinBudget(ops: seq<Op>, dims: seq<Dimension>, bucket: Instant)
    requires forall d :: d in dims ==> d.Valid()
  {
    |KeysOf(Run(ops).minute, bucket)| <= Product(Budgets(dims))
  }

  /**
   Whatever the traffic, a minute stays within the registry's bound if and only if the number of
   keys the allowlist admits does.
   */
  lemma RowsStayWithinBudgetExactly(final: Allowlist, dims: seq<Dimension>, bucket: Instant)
    requires bucket % MINUTE == 0 && forall d :: d in dims ==> d.Valid()
    ensures (forall ops :: Under(ops, final) ==> WithinBudget(ops, dims, bucket))
            <==> Product(Sizes(DomainsOf(final))) <= Product(Budgets(dims))
  {
    hide Run, KeysOf, Product, Domain;
    var block := BoundIsAttained(final, bucket);
    assert Under([Insert(final, block)], final);
    forall ops | Under(ops, final)
      ensures |KeysOf(Run(ops).minute, bucket)| <= Product(Sizes(DomainsOf(final)))
    {
      KeysAreBounded(ops, final, bucket);
    }
    assert WithinBudget([Insert(final, block)], dims, bucket)
           <==> Product(Sizes(DomainsOf(final))) <= Product(Budgets(dims));
  }

  // ---- Syncing again

  lemma {:induction false} ProductGrows(ms: seq<nat>, ns: seq<nat>)
    requires |ms| == |ns| && ms != [] && forall i :: 0 <= i < |ms| ==> 0 < ms[i] < ns[i]
    ensures Product(ms) < Product(ns)
    decreases |ms|
  {
    ProductIsPositive(ms[1..]);
    if |ms| > 1 {
      ProductGrows(ms[1..], ns[1..]);
    } else {
      assert ms[1..] == ns[1..] == [];
    }
    MulGrows(ms[0], ns[0], Product(ms[1..]), Product(ns[1..]));
  }

  lemma MulGrows(a: nat, b: nat, x: nat, y: nat)
    requires a < b && 0 < x <= y
    ensures a * x < b * y
  {
    assert b * y - a * x == b * (y - x) + (b - a) * x;
    assert (b - a) * x > 0 && b * (y - x) >= 0;
  }

  lemma {:induction false} ProductIsPositive(ns: seq<nat>)
    requires forall i :: 0 <= i < |ns| ==> ns[i] > 0
    ensures Product(ns) > 0
  {
    if ns != [] {
      ProductIsPositive(ns[1..]);
      assert ns[0] * Product(ns[1..]) > 0;
    }
  }

  /** A registry that elects one value for each of the seven dimensions. */
  function OnePerDimension(): (dims: seq<Dimension>)
    ensures |dims| == 7 && ValidRegistry(dims)
    ensures forall i :: 0 <= i < 7 ==> dims[i] == Dimension(DIMENSIONS[i], DIMENSIONS[i], TopK, 1, [])
  {
    seq(7, i requires 0 <= i < 7 => Dimension(DIMENSIONS[i], DIMENSIONS[i], TopK, 1, []))
  }

  /** Two syncs that elect different values, each within budget, let traffic outgrow the bound on rows. */
  lemma ResyncOutgrowsTheBound(bucket: Instant)
    returns (first: Dimension -> seq<string>, second: Dimension -> seq<string>, block: seq<Span>)
    requires bucket % MINUTE == 0
    ensures var dims := OnePerDimension();
            var final := SyncedFromEmpty(dims, first) + TopKPairs(dims, second);
            && (forall d :: d in dims ==> |first(d)| <= d.budget && |second(d)| <= d.budget)
            && !WithinBudget([Insert(final, block)], dims, bucket)
  {
    hide SyncedFromEmpty, TopKPairs, Run, KeysOf, Domain, Product, Values;
    first, second := _ => ["a"], _ => ["b"];
    var dims := OnePerDimension();
    var final := SyncedFromEmpty(dims, first) + TopKPairs(dims, second);
    block := BoundIsAttained(final, bucket);
    forall i | 0 <= i < 7
      ensures Sizes(DomainsOf(final))[i] == 4
    {
      SyncedValues(dims, first, i);
      ResyncAddsUp(SyncedFromEmpty(dims, first), dims, second, i);
      TwoValuesAndSentinels(final, DIMENSIONS[i], first(dims[i]), second(dims[i]));
    }
    ProductGrows(Budgets(dims), Sizes(DomainsOf(final)));
  }

  lemma TwoValuesAndSentinels(allow: Allowlist, dimension: string, xs: seq<string>, ys: seq<string>)
    requires xs == ["a"] && ys == ["b"]
    requires Values(allow, dimension) == (set v | v in xs) + set v | v in ys
    ensures |Domain(allow, dimension)| == 4
  {
    hide Values;
    LiteralsDiffer();
    var a, b := xs[0], ys[0];
    assert (set v | v in xs) == {a} && (set v | v in ys) == {b};
    FourValues(a, b, NONE_BUCKET, OTHER_BUCKET);
    assert Domain(allow, dimension) == {a, b, NONE_BUCKET, OTHER_BUCKET};
  }

  lemma LiteralsDiffer()
    ensures "a" != "b" && "a" != "" && "b" != "" && NONE_BUCKET != OTHER_BUCKET
    ensures "a" != NONE_BUCKET && "a" != OTHER_BUCKET && "b" != NONE_BUCKET && "b" != OTHER_BUCKET
  {
    assert "a"[0] != "b"[0] && |"a"| == |"b"| == 1 && |NONE_BUCKET| == 8 && |OTHER_BUCKET| == 9;
  }

  lemma FourValues(a: string, b: string, c: string, d: string)
    requires a != b && a != c && a != d && b != c && b != d && c != d
    ensures |{a, b, c, d}| == 4
  {
    assert {a, b, c, d} == {a, b, c} + {d};
    assert {a, b, c} == {a, b} + {c};
    assert {a, b} == {a} + {b};
  }
}
