/** The dimension registry, its synchronisation into the allowlist, and the bound on rollup keys it buys. */
module Cardinality {
  import opened Rollup
  import opened Timeline
  import opened Wrappers

  // ---- The registry

  datatype Source = Static | TopK

  datatype Dimension = Dimension(name: string, column: string, source: Source, budget: int, values: seq<string>) {
    /** The checks the constructor makes. */
    predicate Valid() {
      && budget >= 1
      && (source.Static? ==> values != [] && |values| <= budget)
      && (source.TopK? ==> values == [])
    }

    function MaxDistinct(): int {
      budget + 2
    }
  }

  datatype DimensionError = BudgetTooSmall | NoValues | TooManyValues | UnexpectedValues

  function MakeDimension(name: string, column: string, source: Source, budget: int, values: seq<string>)
    : (r: Result<Dimension, DimensionError>)
    ensures r.Success? <==> Dimension(name, column, source, budget, values).Valid()
    ensures r.Success? <==> && budget >= 1
                            && (source == Static ==> 1 <= |values| <= budget)
                            && (source == TopK ==> |values| == 0)
    ensures r.Failure? && budget < 1 ==> r.error == BudgetTooSmall
    ensures r.Failure? && budget >= 1 ==>
              r.error == if source == TopK then UnexpectedValues else if |values| == 0 then NoValues else TooManyValues
    ensures r.Success? ==> r.value == Dimension(name, column, source, budget, values)
  {
    if budget < 1 then Failure(BudgetTooSmall)
    else if source.Static? then
      if values == [] then Failure(NoValues)
      else if |values| > budget then Failure(TooManyValues)
      else Success(Dimension(name, column, source, budget, values))
    else if values != [] then Failure(UnexpectedValues)
    else Success(Dimension(name, column, source, budget, values))
  }

  /** A loaded registry: every dimension valid, no name twice. */
  ghost predicate ValidRegistry(dims: seq<Dimension>) {
    && (forall d :: d in dims ==> d.Valid())
    && (forall i, j :: 0 <= i < j < |dims| ==> dims[i].name != dims[j].name)
  }

  function Product(ns: seq<nat>): nat {
    if ns == [] then 1 else ns[0] * Product(ns[1..])
  }

  lemma {:induction false} ProductAppend(ns: seq<nat>, n: nat)
    ensures Product(ns + [n]) == Product(ns) * n
  {
    if ns == [] {
      assert ns + [n] == [n];
      assert [n][1..] == [];
    } else {
      assert (ns + [n])[1..] == ns[1..] + [n];
      ProductAppend(ns[1..], n);
      MulAssoc(ns[0], Product(ns[1..]), n);
    }
  }

  lemma MulAssoc(a: nat, b: nat, c: nat)
    ensures a * (b * c) == (a * b) * c
  {
  }

  lemma MulMono(a: nat, b: nat, c: nat, d: nat)
    requires a <= c && b <= d
    ensures a * b <= c * d
  {
    assert a * b <= c * b;
    assert c * b <= c * d;
  }

  lemma {:induction false} ProductMono(ms: seq<nat>, ns: seq<nat>)
    requires |ms| == |ns| && forall i :: 0 <= i < |ms| ==> ms[i] <= ns[i]
    ensures Product(ms) <= Product(ns)
  {
    if ms != [] {
      ProductMono(ms[1..], ns[1..]);
      MulMono(ms[0], Product(ms[1..]), ns[0], Product(ns[1..]));
    }
  }

  function Ceiling(d: Dimension): nat
    requires d.Valid()
  {
    d.MaxDistinct()
  }

  function Budgets(dims: seq<Dimension>): (ns: seq<nat>)
    requires forall d :: d in dims ==> d.Valid()
    ensures |ns| == |dims| && forall i :: 0 <= i < |ns| ==> ns[i] == dims[i].budget + 2
  {
    seq(|dims|, i requires 0 <= i < |dims| => Ceiling(dims[i]))
  }

  /** The bound on rollup rows per time bucket, as the registry computes it. */
  method MaxRowsPerBucket(dims: seq<Dimension>) returns (total: int)
    requires forall d :: d in dims ==> d.Valid()
    ensures total == Product(Budgets(dims))
  {
    total := 1;
    var i := 0;
    while i < |dims|
      invariant 0 <= i <= |dims|
      invariant total == Product(Budgets(dims)[..i])
    {
      assert Budgets(dims)[..i + 1] == Budgets(dims)[..i] + [Budgets(dims)[i]];
      ProductAppend(Budgets(dims)[..i], Budgets(dims)[i]);
      total := total * dims[i].MaxDistinct();
      i := i + 1;
    }
    assert Budgets(dims)[..i] == Budgets(dims);
  }

  // ---- Synchronising the allowlist

  /** The pairs one dimension contributes. */
  function Pairs(dimension: string, values: seq<string>): (ps: Allowlist) {
    set v | v in values :: (dimension, v)
  }

  function StaticPairs(dims: seq<Dimension>): Allowlist {
    set i, v | 0 <= i < |dims| && dims[i].source.Static? && v in dims[i].values :: (dims[i].name, v)
  }

  function TopKPairs(dims: seq<Dimension>, topK: Dimension -> seq<string>): Allowlist {
    set i, v | 0 <= i < |dims| && dims[i].source.TopK? && v in topK(dims[i]) :: (dims[i].name, v)
  }

  /** How many rows the static dimensions contribute, duplicates included. */
  function StaticRows(dims: seq<Dimension>): nat {
    if dims == [] then 0
    else StaticRows(dims[..|dims| - 1]) + if dims[|dims| - 1].source.Static? then |dims[|dims| - 1].values| else 0
  }

  ghost predicate DistinctNames(dims: seq<Dimension>) {
    forall i, j :: 0 <= i < j < |dims| ==> dims[i].name != dims[j].name
  }

  /** The report names exactly the top-K dimensions, and each with the number of values elected. */
  ghost predicate Reports(counts: map<string, nat>, dims: seq<Dimension>, topK: Dimension -> seq<string>) {
    && (forall name :: name in counts <==> exists i :: 0 <= i < |dims| && dims[i].source.TopK? && dims[i].name == name)
    && (DistinctNames(dims) ==>
          forall i :: 0 <= i < |dims| && dims[i].source.TopK? ==> counts[dims[i].name] == |topK(dims[i])|)
  }

  datatype SyncError = UnknownColumns

  /** What a sync changed. */
  datatype SyncResult = SyncResult(staticValues: nat, topKValues: map<string, nat>)

  /** The allowlist table, and the dictionary the views consult, a copy taken at each reload. */
  class Guardian {
    var table: Allowlist
    var dictionary: Allowlist

    constructor ()
      ensures table == {} && dictionary == {}
    {
      table, dictionary := {}, {};
    }

    /** Returns how many rows were written, duplicates included. */
    method SyncStatic(dims: seq<Dimension>) returns (written: nat)
      modifies this`table
      ensures table == old(table) + StaticPairs(dims)
      ensures written == StaticRows(dims)
    {
      written := 0;
      var rows: Allowlist := {};
      var i := 0;
      while i < |dims|
        invariant 0 <= i <= |dims|
        invariant rows == StaticPairs(dims[..i]) && written == StaticRows(dims[..i])
        invariant table == old(table)
      {
        var d := dims[i];
        StaticPairsStep(dims, i);
        assert dims[..i + 1][..i] == dims[..i];
        if d.source.Static? {
          rows := rows + Pairs(d.name, d.values);
          written := written + |d.values|;
        }
        i := i + 1;
      }
      assert dims[..i] == dims;
      table := table + rows;
    }

    /** Only ever inserts: values that have dropped out of the top K stay. */
    method SyncTopK(dims: seq<Dimension>, topK: Dimension -> seq<string>) returns (counts: map<string, nat>)
      modifies this`table
      ensures table == old(table) + TopKPairs(dims, topK)
      ensures Reports(counts, dims, topK)
    {
      counts := map[];
      var i := 0;
      while i < |dims|
        invariant 0 <= i <= |dims|
        invariant table == old(table) + TopKPairs(dims[..i], topK)
        invariant Reports(counts, dims[..i], topK)
      {
        var d := dims[i];
        TopKPairsStep(dims, topK, i);
        ReportsStep(counts, dims, topK, i);
        if d.source.TopK? {
          var values := topK(d);
          if values != [] {
            table := table + Pairs(d.name, values);
          }
          counts := counts[d.name := |values|];
        }
        i := i + 1;
      }
      assert dims[..i] == dims;
    }

    /** The whole registry, after checking it against the rollup's real columns; then reload. */
    method Sync(dims: seq<Dimension>, columns: set<string>, topK: Dimension -> seq<string>)
      returns (r: Result<SyncResult, SyncError>)
      modifies this
      ensures r.Failure? <==> exists d :: d in dims && d.column !in columns
      ensures r.Failure? ==> table == old(table) && dictionary == old(dictionary)
      ensures r.Success? ==>
                table == old(table) + StaticPairs(dims) + TopKPairs(dims, topK) && dictionary == table
      ensures r.Success? ==> r.value.staticValues == StaticRows(dims) && Reports(r.value.topKValues, dims, topK)
    {
      if exists i :: 0 <= i < |dims| && dims[i].column !in columns {
        return Failure(UnknownColumns);
      }
      var written := SyncStatic(dims);
      var counts := SyncTopK(dims, topK);
      dictionary := table;
      r := Success(SyncResult(written, counts));
    }
  }

  lemma ReportsStep(counts: map<string, nat>, dims: seq<Dimension>, topK: Dimension -> seq<string>, i: nat)
    requires i < |dims| && Reports(counts, dims[..i], topK)
    ensures Reports(if dims[i].source.TopK? then counts[dims[i].name := |topK(dims[i])|] else counts, dims[..i + 1], topK)
  {
    var a, b := dims[..i], dims[..i + 1];
    assert b == a + [dims[i]];
    assert forall j :: 0 <= j < i ==> b[j] == a[j];
    var after := if dims[i].source.TopK? then counts[dims[i].name := |topK(dims[i])|] else counts;
    forall name
      ensures name in after <==> exists j :: 0 <= j < |b| && b[j].source.TopK? && b[j].name == name
    {
      if name in counts {
        var j :| 0 <= j < |a| && a[j].source.TopK? && a[j].name == name;
        assert b[j] == a[j];
      }
      assert b[i] == dims[i];
    }
    if DistinctNames(b) {
      assert forall j, k :: 0 <= j < k < |a| ==> a[j] == b[j] && a[k] == b[k];
      forall j | 0 <= j < |b| && b[j].source.TopK?
        ensures after[b[j].name] == |topK(b[j])|
      {
        if j < i {
          assert a[j] == b[j] && b[j].name != b[i].name;
        }
      }
    }
  }

  lemma StaticPairsStep(dims: seq<Dimension>, i: nat)
    requires i < |dims|
    ensures StaticPairs(dims[..i + 1]) == StaticPairs(dims[..i])
                                          + (if dims[i].source.Static? then Pairs(dims[i].name, dims[i].values) else {})
  {
    var a, b := dims[..i], dims[..i + 1];
    forall p | p in StaticPairs(a)
      ensures p in StaticPairs(b)
    {
      var j, v :| 0 <= j < |a| && a[j].source.Static? && v in a[j].values && p == (a[j].name, v);
      assert b[j] == a[j];
    }
    forall p | p in StaticPairs(b) && p !in StaticPairs(a)
      ensures dims[i].source.Static? && p in Pairs(dims[i].name, dims[i].values)
    {
      var j, v :| 0 <= j < |b| && b[j].source.Static? && v in b[j].values && p == (b[j].name, v);
    }
    assert b[i] == dims[i];
  }

  predicate NoneTwice(values: seq<string>) {
    forall i, j :: 0 <= i < j < |values| ==> values[i] != values[j]
  }

  lemma {:induction false} PairsOf(dimension: string, values: seq<string>)
    requires NoneTwice(values)
    ensures |Pairs(dimension, values)| == |values|
    decreases |values|
  {
    if values == [] {
      assert Pairs(dimension, values) == {};
    } else {
      var rest := values[..|values| - 1];
      PairsOf(dimension, rest);
      assert values == rest + [values[|values| - 1]];
      assert Pairs(dimension, values) == Pairs(dimension, rest) + {(dimension, values[|values| - 1])};
      assert (dimension, values[|values| - 1]) !in Pairs(dimension, rest);
    }
  }

  /** What a static sync returns is the number of pairs in the registry, when it lists nothing twice. */
  lemma {:induction false} WrittenCountsPairs(dims: seq<Dimension>)
    requires DistinctNames(dims)
    requires forall d :: d in dims && d.source.Static? ==> NoneTwice(d.values)
    ensures StaticRows(dims) == |StaticPairs(dims)|
    decreases |dims|
  {
    hide Pairs, StaticPairs, NoneTwice;
    if dims == [] {
      NoPairs();
    } else {
      var n := |dims| - 1;
      var d := dims[n];
      WrittenCountsPairs(dims[..n]);
      StaticPairsStep(dims, n);
      assert dims[..n + 1] == dims;
      if d.source.Static? {
        PairsOf(d.name, d.values);
        NamesApart(dims, n);
        assert |StaticPairs(dims[..n]) + Pairs(d.name, d.values)|
               == |StaticPairs(dims[..n])| + |Pairs(d.name, d.values)|;
      }
    }
  }

  lemma NoPairs()
    ensures StaticPairs([]) == {}
  {
  }

  lemma NamesApart(dims: seq<Dimension>, n: nat)
    requires n < |dims| && DistinctNames(dims)
    ensures StaticPairs(dims[..n]) !! Pairs(dims[n].name, dims[n].values)
  {
    forall p | p in StaticPairs(dims[..n])
      ensures p !in Pairs(dims[n].name, dims[n].values)
    {
      var i, v :| 0 <= i < n && dims[..n][i].source.Static? && v in dims[..n][i].values && p == (dims[..n][i].name, v);
      assert dims[i].name != dims[n].name;
    }
  }

  lemma TopKPairsStep(dims: seq<Dimension>, topK: Dimension -> seq<string>, i: nat)
    requires i < |dims|
    ensures TopKPairs(dims[..i + 1], topK) == TopKPairs(dims[..i], topK)
                                              + (if dims[i].source.TopK? then Pairs(dims[i].name, topK(dims[i])) else {})
  {
    var a, b := dims[..i], dims[..i + 1];
    forall p | p in TopKPairs(a, topK)
      ensures p in TopKPairs(b, topK)
    {
      var j, v :| 0 <= j < |a| && a[j].source.TopK? && v in topK(a[j]) && p == (a[j].name, v);
      assert b[j] == a[j];
    }
    forall p | p in TopKPairs(b, topK) && p !in TopKPairs(a, topK)
      ensures dims[i].source.TopK? && p in Pairs(dims[i].name, topK(dims[i]))
    {
      var j, v :| 0 <= j < |b| && b[j].source.TopK? && v in topK(b[j]) && p == (b[j].name, v);
    }
    assert b[i] == dims[i];
  }

  // ---- Counting keys

  /** The registered values of one dimension. */
  function Values(allow: Allowlist, dimension: string): set<string> {
    set p | p in allow && p.0 == dimension :: p.1
  }

  /** What the guard can produce for one dimension: never the empty value, registered or not. */
  function Domain(allow: Allowlist, dimension: string): set<string> {
    Values(allow, dimension) - {""} + {NONE_BUCKET, OTHER_BUCKET}
  }

  /** Every guarded value is in its domain, whatever was emitted. */
  lemma GuardStaysInDomain(allow: Allowlist, final: Allowlist, dimension: string, value: string)
    requires allow <= final
    ensures Guard(allow, dimension, value) in Domain(final, dimension)
  {
    if (dimension, value) in allow {
      assert (dimension, value) in final;
    }
  }

  lemma DomainSize(allow: Allowlist, dimension: string)
    ensures |Domain(allow, dimension)| <= |Values(allow, dimension)| + 2
  {
    var two := {NONE_BUCKET, OTHER_BUCKET};
    assert |two| <= 2;
    SubsetSize(Values(allow, dimension) - {""}, Values(allow, dimension));
    assert |Values(allow, dimension) - {""} + two| <= |Values(allow, dimension) - {""}| + |two|;
  }

  /** All tuples with one component from each set. */
  function Tuples(doms: seq<set<string>>): set<seq<string>> {
    if doms == [] then {[]} else Extended(doms[0], Tuples(doms[1..]))
  }

  function Extended(xs: set<string>, ts: set<seq<string>>): set<seq<string>> {
    set x, t | x in xs && t in ts :: [x] + t
  }

  function Prefixed(x: string, ts: set<seq<string>>): set<seq<string>> {
    set t | t in ts :: [x] + t
  }

  lemma {:induction false} PrefixedSize(x: string, ts: set<seq<string>>)
    ensures |Prefixed(x, ts)| == |ts|
  {
    if ts != {} {
      var t :| t in ts;
      var rest := ts - {t};
      PrefixedSize(x, rest);
      assert Prefixed(x, ts) == Prefixed(x, rest) + {[x] + t};
      forall u | u in rest
        ensures [x] + u != [x] + t
      {
        assert ([x] + u)[1..] == u && ([x] + t)[1..] == t;
      }
      assert [x] + t !in Prefixed(x, rest);
    }
  }

  lemma {:induction false} ExtendedSize(xs: set<string>, ts: set<seq<string>>)
    ensures |Extended(xs, ts)| == |xs| * |ts|
  {
    if xs == {} {
      assert Extended(xs, ts) == {};
    } else {
      var x :| x in xs;
      var rest := xs - {x};
      ExtendedSize(rest, ts);
      PrefixedSize(x, ts);
      assert Extended(xs, ts) == Extended(rest, ts) + Prefixed(x, ts);
      assert Extended(rest, ts) !! Prefixed(x, ts) by {
        forall t | t in Extended(rest, ts)
          ensures t != [] && t[0] != x
        {
        }
      }
      assert |xs| == |rest| + 1;
      assert (|rest| + 1) * |ts| == |rest| * |ts| + |ts|;
    }
  }

  function Sizes(doms: seq<set<string>>): (ns: seq<nat>)
    ensures |ns| == |doms| && forall i :: 0 <= i < |ns| ==> ns[i] == |doms[i]|
  {
    seq(|doms|, i requires 0 <= i < |doms| => |doms[i]|)
  }

  lemma {:induction false} TuplesSize(doms: seq<set<string>>)
    ensures |Tuples(doms)| == Product(Sizes(doms))
  {
    if doms != [] {
      TuplesSize(doms[1..]);
      ExtendedSize(doms[0], Tuples(doms[1..]));
      assert Sizes(doms)[1..] == Sizes(doms[1..]);
    }
  }

  lemma {:induction false} TupleIsIn(doms: seq<set<string>>, t: seq<string>)
    requires |t| == |doms| && forall i :: 0 <= i < |t| ==> t[i] in doms[i]
    ensures t in Tuples(doms)
  {
    if doms != [] {
      TupleIsIn(doms[1..], t[1..]);
      assert t == [t[0]] + t[1..];
    }
  }

  /** The distinct keys of one bucket. */
  ghost function KeysOf(parts: seq<Part>, bucket: Instant): set<seq<string>> {
    set i, j | 0 <= i < |parts| && 0 <= j < |parts[i]| && parts[i][j].key.bucket == bucket
      :: parts[i][j].key.dims
  }

  ghost predicate KeysWithin(parts: seq<Part>, ok: Key -> bool) {
    forall part, e :: part in parts && e in part ==> ok(e.key)
  }

  lemma GroupedKeysWithin(entries: seq<Entry>, ok: Key -> bool)
    requires forall e :: e in entries ==> ok(e.key)
    ensures forall e :: e in GroupBy(entries) ==> ok(e.key)
  {
    hide GroupBy;
    GroupByKeys(entries);
    forall e | e in GroupBy(entries)
      ensures ok(e.key)
    {
      assert HasKey(GroupBy(entries), e.key);
      var x :| x in entries && x.key == e.key;
    }
  }

  lemma MergedKeysWithin(parts: seq<Part>, i: nat, j: nat, ok: Key -> bool)
    requires i < j < |parts| && KeysWithin(parts, ok)
    ensures KeysWithin(Merged(parts, i, j), ok)
  {
    hide GroupBy;
    assert parts[i] in parts && parts[j] in parts;
    forall e | e in parts[i] + parts[j]
      ensures ok(e.key)
    {
      assert e in parts[i] || e in parts[j];
    }
    GroupedKeysWithin(parts[i] + parts[j], ok);
    assert forall part :: part in Merged(parts, i, j) ==> part in parts || part == GroupBy(parts[i] + parts[j]);
  }

  /** The key has every component in the domain of the final allowlist. */
  ghost predicate InDomains(final: Allowlist, k: Key) {
    forall i :: 0 <= i < 7 ==> k.dims[i] in Domain(final, DIMENSIONS[i])
  }

  lemma {:induction false} TablesStayInDomains(ops: seq<Op>, final: Allowlist)
    requires forall op :: op in ops && op.Insert? ==> op.allow <= final
    ensures KeysWithin(Run(ops).minute, k => InDomains(final, k))
    ensures KeysWithin(Run(ops).hour, k => InDomains(final, k))
  {
    hide GroupBy, MinuteEntries, HourEntries, Domain, Guard;
    var ok := k => InDomains(final, k);
    if ops != [] {
      var n := |ops| - 1;
      TablesStayInDomains(ops[..n], final);
      var t, op := Run(ops[..n]), ops[n];
      match op
      case Insert(allow, block) =>
        BlockStaysInDomains(allow, block, final);
        assert forall part :: part in Run(ops).minute ==> part in t.minute || part == GroupBy(MinuteEntries(allow, block));
        assert forall part :: part in Run(ops).hour ==>
                 part in t.hour || part == GroupBy(HourEntries(GroupBy(MinuteEntries(allow, block))));
      case MergeMinute(i, j) =>
        if i < j < |t.minute| {
          MergedKeysWithin(t.minute, i, j, ok);
        }
      case MergeHour(i, j) =>
        if i < j < |t.hour| {
          MergedKeysWithin(t.hour, i, j, ok);
        }
    }
  }

  lemma BlockStaysInDomains(allow: Allowlist, block: seq<Span>, final: Allowlist)
    requires allow <= final
    ensures var part := GroupBy(MinuteEntries(allow, block));
            && (forall e :: e in part ==> InDomains(final, e.key))
            && (forall e :: e in GroupBy(HourEntries(part)) ==> InDomains(final, e.key))
  {
    hide GroupBy, Domain, Guard;
    var ok := k => InDomains(final, k);
    var es := MinuteEntries(allow, block);
    forall e | e in es
      ensures InDomains(final, e.key)
    {
      var i :| 0 <= i < |es| && es[i] == e;
      forall d | 0 <= d < 7
        ensures e.key.dims[d] in Domain(final, DIMENSIONS[d])
      {
        GuardStaysInDomain(allow, final, DIMENSIONS[d], block[i].dims[d]);
      }
    }
    GroupedKeysWithin(es, ok);
    var part := GroupBy(es);
    var hs := HourEntries(part);
    forall e | e in hs
      ensures InDomains(final, e.key)
    {
      var i :| 0 <= i < |hs| && hs[i] == e;
      assert part[i] in part;
    }
    GroupedKeysWithin(hs, ok);
  }

  function DomainsOf(allow: Allowlist): (doms: seq<set<string>>)
    ensures |doms| == 7 && forall i :: 0 <= i < 7 ==> doms[i] == Domain(allow, DIMENSIONS[i])
  {
    seq(7, i requires 0 <= i < 7 => Domain(allow, DIMENSIONS[i]))
  }

  /** Allowlist size plus the two sentinels, per dimension. */
  function AllowedSizes(allow: Allowlist): (ns: seq<nat>)
    ensures |ns| == 7 && forall i :: 0 <= i < 7 ==> ns[i] == |Values(allow, DIMENSIONS[i])| + 2
  {
    seq(7, i requires 0 <= i < 7 => |Values(allow, DIMENSIONS[i])| + 2)
  }

  lemma KeysWithinAreFew(parts: seq<Part>, final: Allowlist, bucket: Instant)
    requires KeysWithin(parts, k => InDomains(final, k))
    ensures KeysOf(parts, bucket) <= Tuples(DomainsOf(final))
    ensures |KeysOf(parts, bucket)| <= Product(Sizes(DomainsOf(final))) <= Product(AllowedSizes(final))
  {
    hide Domain, Values;
    var doms := DomainsOf(final);
    forall t | t in KeysOf(parts, bucket)
      ensures t in Tuples(doms)
    {
      var i, j :| 0 <= i < |parts| && 0 <= j < |parts[i]| && parts[i][j].key.bucket == bucket
                  && parts[i][j].key.dims == t;
      assert parts[i] in parts && parts[i][j] in parts[i];
      assert InDomains(final, parts[i][j].key);
      TupleIsIn(doms, t);
    }
    SubsetSize(KeysOf(parts, bucket), Tuples(doms));
    TuplesSize(doms);
    forall i | 0 <= i < 7
      ensures Sizes(doms)[i] <= AllowedSizes(final)[i]
    {
      DomainSize(final, DIMENSIONS[i]);
    }
    ProductMono(Sizes(doms), AllowedSizes(final));
  }

  lemma {:induction false} SubsetSize<T>(a: set<T>, b: set<T>)
    requires a <= b
    ensures |a| <= |b|
  {
    assert b == a + (b - a);
  }

  /**
   The cardinality bound. Whatever the spans carry, in whatever blocks they arrive and however the
   allowlist grows meanwhile, no minute and no hour ever has more distinct keys than the product,
   over the dimensions, of the final allowlist's size plus two.
   */
  lemma KeysAreBounded(ops: seq<Op>, final: Allowlist, bucket: Instant)
    requires forall op :: op in ops && op.Insert? ==> op.allow <= final
    ensures KeysOf(Run(ops).minute, bucket) + KeysOf(Run(ops).hour, bucket) <= Tuples(DomainsOf(final))
    ensures |KeysOf(Run(ops).minute, bucket)| <= Product(Sizes(DomainsOf(final))) <= Product(AllowedSizes(final))
    ensures |KeysOf(Run(ops).hour, bucket)| <= Product(Sizes(DomainsOf(final))) <= Product(AllowedSizes(final))
  {
    hide Run, KeysOf, Product, Tuples, Domain;
    TablesStayInDomains(ops, final);
    KeysWithinAreFew(Run(ops).minute, final, bucket);
    KeysWithinAreFew(Run(ops).hour, final, bucket);
  }

  // ---- The budget

  lemma {:induction false} ImageSize(values: seq<string>)
    ensures |set v | v in values| <= |values|
  {
    if values != [] {
      ImageSize(values[1..]);
      forall v
        ensures v in values <==> v == values[0] || v in values[1..]
      {
        assert values == [values[0]] + values[1..];
      }
      assert (set v | v in values) == (set v | v in values[1..]) + {values[0]};
    }
  }

  /** The allowlist one sync of an empty table produces. */
  function SyncedFromEmpty(dims: seq<Dimension>, topK: Dimension -> seq<string>): Allowlist {
    StaticPairs(dims) + TopKPairs(dims, topK)
  }

  /** What the registry lists for a dimension, or what traffic elected. */
  function Listed(d: Dimension, topK: Dimension -> seq<string>): seq<string> {
    if d.source.Static? then d.values else topK(d)
  }

  lemma SyncedValues(dims: seq<Dimension>, topK: Dimension -> seq<string>, i: nat)
    requires ValidRegistry(dims) && i < |dims|
    ensures Values(SyncedFromEmpty(dims, topK), dims[i].name) == set v | v in Listed(dims[i], topK)
  {
    var allow := SyncedFromEmpty(dims, topK);
    forall v | v in Listed(dims[i], topK)
      ensures v in Values(allow, dims[i].name)
    {
      assert (dims[i].name, v) in allow;
    }
    forall v | v in Values(allow, dims[i].name)
      ensures v in Listed(dims[i], topK)
    {
      var p :| p in allow && p.0 == dims[i].name && p.1 == v;
      var j :| 0 <= j < |dims| && dims[j].name == dims[i].name && v in Listed(dims[j], topK);
      assert j == i;
    }
  }

  /**
   The budget bound. After one sync of an empty allowlist, with at most `budget` values elected for
   each top-K dimension, no bucket of either rollup exceeds the registry's own bound.
   */
  lemma BudgetBoundsKeys(
    dims: seq<Dimension>, topK: Dimension -> seq<string>, ops: seq<Op>, bucket: Instant)
    requires ValidRegistry(dims) && |dims| == 7
    requires forall i :: 0 <= i < 7 ==> dims[i].name == DIMENSIONS[i]
    requires forall d :: d in dims && d.source.TopK? ==> |topK(d)| <= d.budget
    requires forall op :: op in ops && op.Insert? ==> op.allow <= SyncedFromEmpty(dims, topK)
    ensures |KeysOf(Run(ops).minute, bucket)| <= Product(Budgets(dims))
    ensures |KeysOf(Run(ops).hour, bucket)| <= Product(Budgets(dims))
  {
    hide Run, KeysOf, SyncedFromEmpty, Values;
    var final := SyncedFromEmpty(dims, topK);
    KeysAreBounded(ops, final, bucket);
    forall i | 0 <= i < 7
      ensures AllowedSizes(final)[i] <= Budgets(dims)[i]
    {
      SyncedValues(dims, topK, i);
      ImageSize(Listed(dims[i], topK));
      assert dims[i] in dims;
    }
    ProductMono(AllowedSizes(final), Budgets(dims));
  }

  /**
   A later sync only adds. A dimension is still within its budget afterwards if and only if the
   values it already had and the newly elected ones together are.
   */
  lemma ResyncAddsUp(
    allow: Allowlist, dims: seq<Dimension>, topK: Dimension -> seq<string>, i: nat)
    requires ValidRegistry(dims) && i < |dims| && dims[i].source.TopK?
    ensures Values(allow + TopKPairs(dims, topK), dims[i].name)
            == Values(allow, dims[i].name) + set v | v in topK(dims[i])
  {
    var d := dims[i];
    var after := allow + TopKPairs(dims, topK);
    forall v | v in topK(d)
      ensures v in Values(after, d.name)
    {
      assert (d.name, v) in TopKPairs(dims, topK);
    }
    forall v | v in Values(allow, d.name)
      ensures v in Values(after, d.name)
    {
      assert (d.name, v) in after;
    }
    forall v | v in Values(after, d.name)
      ensures v in Values(allow, d.name) || v in topK(d)
    {
      var p :| p in after && p.0 == d.name && p.1 == v;
      if p !in allow {
        var j :| 0 <= j < |dims| && dims[j].name == d.name && v in topK(dims[j]);
        assert j == i;
      }
    }
  }
}
