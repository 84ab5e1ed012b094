/** Electing the values of an unbounded dimension that keep their own rollup rows. */
module TopK {
  import Cardinality
  import opened Rollup

  /** How many of the window's spans carry the value. */
  function Count(window: seq<string>, value: string): nat {
    if window == [] then 0 else (if window[0] == value then 1 else 0) + Count(window[1..], value)
  }

  /** How many of the window's spans carry one of the values. */
  function Volume(window: seq<string>, values: set<string>): nat {
    if window == [] then 0 else (if window[0] in values then 1 else 0) + Volume(window[1..], values)
  }

  /**
   What the query returns: GROUP BY value, without the empty one, ORDER BY count() DESC,
   LIMIT budget. Ties may fall either way.
   */
  ghost predicate IsTopK(window: seq<string>, budget: nat, result: seq<string>) {
    && |result| <= budget
    && (forall i, j :: 0 <= i < j < |result| ==> result[i] != result[j])
    && (forall v :: v in result ==> v != "" && v in window)
    && (forall i, j :: 0 <= i < j < |result| ==> Count(window, result[i]) >= Count(window, result[j]))
    && (forall v :: v in window && v != "" && v !in result ==>
          |result| == budget && forall r :: r in result ==> Count(window, r) >= Count(window, v))
  }

  // ---- The query has an answer

  ghost predicate IsLoudest(window: seq<string>, candidates: set<string>, best: string) {
    best in candidates && forall v :: v in candidates ==> Count(window, best) >= Count(window, v)
  }

  lemma {:induction false} LoudestExists(window: seq<string>, candidates: set<string>)
    requires candidates != {}
    ensures exists best :: IsLoudest(window, candidates, best)
    decreases candidates
  {
    var x :| x in candidates;
    if candidates == {x} {
      assert IsLoudest(window, candidates, x);
    } else {
      assert candidates - {x} != {};
      LoudestExists(window, candidates - {x});
      var other :| IsLoudest(window, candidates - {x}, other);
      var best := if Count(window, other) > Count(window, x) then other else x;
      assert IsLoudest(window, candidates, best);
    }
  }

  /** The loudest candidates first, until the budget or the candidates run out. */
  ghost function Elect(window: seq<string>, candidates: set<string>, budget: nat): (result: seq<string>)
    ensures |result| <= budget
    ensures forall v :: v in result ==> v in candidates
    ensures forall i, j :: 0 <= i < j < |result| ==>
              result[i] != result[j] && Count(window, result[i]) >= Count(window, result[j])
    ensures forall v :: v in candidates && v !in result ==>
              |result| == budget && forall r :: r in result ==> Count(window, r) >= Count(window, v)
    decreases budget
  {
    if budget == 0 || candidates == {} then []
    else
      LoudestExists(window, candidates);
      var best :| IsLoudest(window, candidates, best);
      var rest := Elect(window, candidates - {best}, budget - 1);
      assert forall v :: v in [best] + rest <==> v == best || v in rest;
      [best] + rest
  }

  /** `compute_top_k`, ties settled one way. */
  ghost function ComputeTopK(window: seq<string>, budget: nat): (result: seq<string>)
    ensures IsTopK(window, budget, result)
  {
    Elect(window, (set v | v in window && v != ""), budget)
  }

  // ---- Optimality

  lemma {:induction false} VolumeWith(window: seq<string>, values: set<string>, v: string)
    requires v !in values
    ensures Volume(window, values + {v}) == Volume(window, values) + Count(window, v)
  {
    if window != [] {
      VolumeWith(window[1..], values, v);
    }
  }

  lemma {:induction false} VolumeMonotone(window: seq<string>, small: set<string>, large: set<string>)
    requires small <= large
    ensures Volume(window, small) <= Volume(window, large)
  {
    if window != [] {
      VolumeMonotone(window[1..], small, large);
    }
  }

  lemma {:induction false} AbsentCountsNothing(window: seq<string>, v: string)
    requires v !in window
    ensures Count(window, v) == 0
  {
    if window != [] {
      AbsentCountsNothing(window[1..], v);
    }
  }

  lemma {:induction false} DistinctSize(s: seq<string>)
    requires forall i, j :: 0 <= i < j < |s| ==> s[i] != s[j]
    ensures |set v | v in s| == |s|
  {
    if s != [] {
      DistinctSize(s[1..]);
      forall v
        ensures v in s <==> v == s[0] || v in s[1..]
      {
        assert s == [s[0]] + s[1..];
      }
      assert (set v | v in s) == (set v | v in s[1..]) + {s[0]};
      assert s[0] !in s[1..];
    }
  }

  /**
   Top-K is optimal: no set of at most `budget` nonempty values covers more of the window's spans
   than the elected one. Each value outside it is exchanged for an elected one that is no quieter.
   */
  lemma {:induction false} TopKCoversMost(window: seq<string>, budget: nat, result: seq<string>, rival: set<string>)
    requires IsTopK(window, budget, result)
    requires |rival| <= budget && "" !in rival
    ensures Volume(window, rival) <= Volume(window, set v | v in result)
    decreases |rival - set v | v in result|
  {
    var elected := set v | v in result;
    DistinctSize(result);
    if rival <= elected {
      VolumeMonotone(window, rival, elected);
    } else {
      var x :| x in rival && x !in elected;
      var others := rival - {x};
      assert rival == others + {x};
      VolumeWith(window, others, x);
      if x !in window {
        AbsentCountsNothing(window, x);
        assert others - elected == (rival - elected) - {x};
        TopKCoversMost(window, budget, result, others);
      } else {
        assert |others| < |elected|;
        var y := Outside(others, elected);
        VolumeWith(window, others, y);
        assert Count(window, y) >= Count(window, x);
        assert (others + {y}) - elected == (rival - elected) - {x};
        TopKCoversMost(window, budget, result, others + {y});
      }
    }
  }

  lemma Outside(small: set<string>, large: set<string>) returns (y: string)
    requires |small| < |large|
    ensures y in large && y !in small
  {
    if large <= small {
      Cardinality.SubsetSize(large, small);
      assert false;
    }
    y :| y in large && y !in small;
  }

  // ---- What collapses

  /** How many of the window's spans the guard puts in the other bucket. */
  function GuardedOther(window: seq<string>, allow: Allowlist, dimension: string): nat {
    if window == [] then 0
    else (if Guard(allow, dimension, window[0]) == OTHER_BUCKET then 1 else 0)
         + GuardedOther(window[1..], allow, dimension)
  }

  /** How many carry a value without a row of its own. */
  function Collapsed(window: seq<string>, allow: Allowlist, dimension: string): nat {
    if window == [] then 0
    else (if window[0] != "" && (dimension, window[0]) !in allow then 1 else 0) + Collapsed(window[1..], allow, dimension)
  }

  /** Over any window the two differ only by the spans that carry the other bucket's own name, registered. */
  lemma {:induction false} CollapseIsTheGuards(window: seq<string>, allow: Allowlist, dimension: string)
    ensures GuardedOther(window, allow, dimension)
            == Collapsed(window, allow, dimension)
               + if (dimension, OTHER_BUCKET) in allow then Count(window, OTHER_BUCKET) else 0
  {
    if window != [] {
      CollapseIsTheGuards(window[1..], allow, dimension);
      assert NONE_BUCKET[2] != OTHER_BUCKET[2] && |OTHER_BUCKET| > 0;
    }
  }

  lemma {:induction false} CollapsedIsTheRest(window: seq<string>, allow: Allowlist, dimension: string)
    ensures Collapsed(window, allow, dimension) + Volume(window, Cardinality.Values(allow, dimension) - {""})
            + Count(window, "") == |window|
  {
    if window != [] {
      CollapsedIsTheRest(window[1..], allow, dimension);
      assert (dimension, window[0]) in allow <==> window[0] in Cardinality.Values(allow, dimension) by {
        assert (dimension, window[0]).1 == window[0];
      }
    }
  }

  /**
   Right after a first sync, as few of the window's spans as possible collapse: no allowlist with at
   most the dimension's budget of values collapses fewer, and unless spans carry the other bucket's
   own name, the guard puts no fewer in the other bucket.
   */
  lemma FirstSyncCollapsesLeast(
    window: seq<string>, dims: seq<Cardinality.Dimension>, topK: Cardinality.Dimension -> seq<string>, i: nat,
    rival: Allowlist)
    requires Cardinality.ValidRegistry(dims) && i < |dims| && dims[i].source.TopK? && dims[i].Valid()
    requires IsTopK(window, dims[i].budget, topK(dims[i]))
    requires |Cardinality.Values(rival, dims[i].name) - {""}| <= dims[i].budget
    ensures var synced := Cardinality.SyncedFromEmpty(dims, topK);
            && Collapsed(window, synced, dims[i].name) <= Collapsed(window, rival, dims[i].name)
            && (OTHER_BUCKET !in window ==>
                  GuardedOther(window, synced, dims[i].name) <= GuardedOther(window, rival, dims[i].name))
  {
    hide Cardinality.Values, Cardinality.SyncedFromEmpty, Collapsed, GuardedOther, Count, Volume;
    var d, synced := dims[i], Cardinality.SyncedFromEmpty(dims, topK);
    Cardinality.SyncedValues(dims, topK, i);
    TopKCoversMost(window, d.budget, topK(d), Cardinality.Values(rival, d.name) - {""});
    TopKIsNonEmpty(window, d.budget, topK(d));
    CollapsedIsTheRest(window, synced, d.name);
    CollapsedIsTheRest(window, rival, d.name);
    CollapseIsTheGuards(window, synced, d.name);
    CollapseIsTheGuards(window, rival, d.name);
    if OTHER_BUCKET !in window {
      AbsentCountsNothing(window, OTHER_BUCKET);
    }
  }

  lemma TopKIsNonEmpty(window: seq<string>, budget: nat, result: seq<string>)
    requires IsTopK(window, budget, result)
    ensures (set v | v in result) - {""} == set v | v in result
  {
  }
}
