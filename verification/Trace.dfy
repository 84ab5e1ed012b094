/**
 Trace emission: how a trace is drawn, laid out in milliseconds, and handed to the tracer in whole
 nanoseconds, backdated so that it ends at the moment of emission.
 */
module Trace {
  import opened Wrappers
  import opened Pacing

  datatype Status = Ok | ServerError | Timeout | ClientError

  datatype Kind = Server | Client | Internal

  datatype SpanData =
    SpanData(kind: Kind, startOffsetMs: real, durationMs: real, status: Status, children: seq<SpanData>)

  /** A span and every descendant, parents first. */
  function Walk(s: SpanData): seq<SpanData>
    decreases s
  {
    [s] + WalkAll(s.children)
  }

  function WalkAll(spans: seq<SpanData>): seq<SpanData>
    decreases spans
  {
    if spans == [] then [] else Walk(spans[0]) + WalkAll(spans[1..])
  }

  // ---- Drawing a trace

  /** The draws of one reasoning step: its model call, and the tool call that may follow. */
  datatype Draw = Draw(llmMs: real, status: Status, tool: Option<real>)

  /** The ranges of the random draws of one trace. */
  predicate ValidDraws(lead: real, steps: seq<Draw>, tail: real) {
    && 0.5 <= lead <= 3.0 && 0.5 <= tail <= 4.0
    && 1 <= |steps| <= 4
    && forall i :: 0 <= i < |steps| ==>
                     steps[i].llmMs >= 0.0 && (steps[i].tool.Some? ==> steps[i].tool.value >= 0.0)
  }

  function LlmSpan(cursor: real, d: Draw): SpanData {
    SpanData(Client, cursor, d.llmMs, d.status, [])
  }

  function ToolSpan(cursor: real, ms: real): SpanData {
    SpanData(Internal, cursor, ms, Ok, [])
  }

  /** Where a run of sequential spans ends. */
  function EndOf(cursor: real, spans: seq<SpanData>): real {
    if spans == [] then cursor else spans[|spans| - 1].startOffsetMs + spans[|spans| - 1].durationMs
  }

  /** The spans of one step; a tool call follows only an intermediate step. */
  function StepSpans(cursor: real, d: Draw, last: bool): seq<SpanData> {
    if last || d.tool.None? then [LlmSpan(cursor, d)]
    else [LlmSpan(cursor, d), ToolSpan(cursor + d.llmMs, d.tool.value)]
  }

  /** The spans of the first n steps. */
  function StepsSpans(lead: real, steps: seq<Draw>, n: nat): seq<SpanData>
    requires n <= |steps|
  {
    if n == 0 then []
    else
      var before := StepsSpans(lead, steps, n - 1);
      before + StepSpans(EndOf(lead, before), steps[n - 1], n == |steps|)
  }

  /** The first failure among the children, or success when there is none. */
  ghost predicate IsWorst(worst: Status, children: seq<SpanData>) {
    if worst == Ok then
      forall i :: 0 <= i < |children| ==> children[i].status == Ok
    else
      exists i :: && 0 <= i < |children| && children[i].status == worst
                  && forall j :: 0 <= j < i ==> children[j].status == Ok
  }

  method FindWorst(children: seq<SpanData>) returns (worst: Status)
    ensures IsWorst(worst, children)
  {
    for i := 0 to |children|
      invariant forall j :: 0 <= j < i ==> children[j].status == Ok
    {
      if children[i].status != Ok {
        return children[i].status;
      }
    }
    return Ok;
  }

  /** What is made of the draws: the calls of the steps, one after another, under a root that outlasts them. */
  ghost predicate IsDrawn(lead: real, steps: seq<Draw>, tail: real, root: SpanData) {
    && root.kind == Server && root.startOffsetMs == 0.0
    && root.children == StepsSpans(lead, steps, |steps|)
    && root.durationMs == EndOf(lead, root.children) + tail
    && IsWorst(root.status, root.children)
  }

  /** One agent invocation. */
  method GenerateTrace(lead: real, steps: seq<Draw>, tail: real) returns (root: SpanData)
    requires ValidDraws(lead, steps, tail)
    ensures IsDrawn(lead, steps, tail, root)
  {
    var children: seq<SpanData> := [];
    var cursor := lead;
    for step := 0 to |steps|
      invariant children == StepsSpans(lead, steps, step) && cursor == EndOf(lead, children)
    {
      var d := steps[step];
      ghost var before := children;
      var llm := LlmSpan(cursor, d);
      children := children + [llm];
      cursor := cursor + llm.durationMs;
      if step < |steps| - 1 && d.tool.Some? {
        var tool := ToolSpan(cursor, d.tool.value);
        children := children + [tool];
        cursor := cursor + tool.durationMs;
      }
      assert children == before + StepSpans(EndOf(lead, before), d, step == |steps| - 1);
    }
    var worst := FindWorst(children);
    root := SpanData(Server, 0.0, cursor + tail, worst, children);
  }

  // ---- The shape of a drawn trace

  /** Leaf spans laid end to end from the cursor. */
  ghost predicate Sequential(cursor: real, spans: seq<SpanData>) {
    && (forall i :: 0 <= i < |spans| ==> spans[i].durationMs >= 0.0 && spans[i].children == [])
    && (spans != [] ==> spans[0].startOffsetMs == cursor)
    && (forall i, j :: 0 <= i && j == i + 1 && j < |spans| ==>
                         spans[j].startOffsetMs == spans[i].startOffsetMs + spans[i].durationMs)
  }

  /** What every drawn trace looks like: its children run one after another well inside the root. */
  ghost predicate IsTrace(root: SpanData) {
    && root.startOffsetMs == 0.0
    && root.children != []
    && 0.5 <= root.children[0].startOffsetMs
    && Sequential(root.children[0].startOffsetMs, root.children)
    && EndOf(0.0, root.children) + 0.5 <= root.durationMs
  }

  lemma SequentialAppend(cursor: real, spans: seq<SpanData>, more: seq<SpanData>)
    requires Sequential(cursor, spans) && Sequential(EndOf(cursor, spans), more)
    ensures Sequential(cursor, spans + more)
  {
    var all := spans + more;
    forall i, j | 0 <= i && j == i + 1 && j < |all|
      ensures all[j].startOffsetMs == all[i].startOffsetMs + all[i].durationMs
    {
      if j > |spans| {
        assert all[j] == more[j - |spans|] && all[i] == more[i - |spans|];
      }
    }
  }

  /** Each step adds one or two spans, the last step exactly one. */
  lemma {:induction false} StepsAreSequential(lead: real, steps: seq<Draw>, n: nat)
    requires n <= |steps|
    requires forall i :: 0 <= i < |steps| ==>
                           steps[i].llmMs >= 0.0 && (steps[i].tool.Some? ==> steps[i].tool.value >= 0.0)
    ensures Sequential(lead, StepsSpans(lead, steps, n))
    ensures n <= |StepsSpans(lead, steps, n)| <= if n == |steps| && n > 0 then 2 * n - 1 else 2 * n
  {
    if n > 0 {
      StepsAreSequential(lead, steps, n - 1);
      var before := StepsSpans(lead, steps, n - 1);
      SequentialAppend(lead, before, StepSpans(EndOf(lead, before), steps[n - 1], n == |steps|));
    }
  }

  lemma {:induction false} WalkLeaves(spans: seq<SpanData>)
    requires forall i :: 0 <= i < |spans| ==> spans[i].children == []
    ensures WalkAll(spans) == spans
  {
    if spans != [] {
      WalkLeaves(spans[1..]);
      assert WalkAll(spans[0].children) == [];
    }
  }

  /** Every drawn trace is a sequential run inside its root, of two to eight spans. */
  lemma DrawnTraces(lead: real, steps: seq<Draw>, tail: real, root: SpanData)
    requires ValidDraws(lead, steps, tail) && IsDrawn(lead, steps, tail, root)
    ensures IsTrace(root) && MIN_SPANS <= |Walk(root)| <= MAX_SPANS
  {
    StepsAreSequential(lead, steps, |steps|);
    WalkLeaves(root.children);
  }

  /** A tool call is drawn after step i, and the step is not the last. */
  predicate ToolFollows(steps: seq<Draw>, i: nat)
    requires i < |steps|
  {
    i < |steps| - 1 && steps[i].tool.Some?
  }

  function ToolsBefore(steps: seq<Draw>, i: nat): nat
    requires i <= |steps|
  {
    if i == 0 then 0 else ToolsBefore(steps, i - 1) + if ToolFollows(steps, i - 1) then 1 else 0
  }

  /** The call of step i stands behind the calls and tool calls of the steps before, and its own tool call behind it. */
  ghost predicate ShowsStep(steps: seq<Draw>, spans: seq<SpanData>, i: nat)
    requires i < |steps|
  {
    var k := i + ToolsBefore(steps, i);
    && k < |spans|
    && spans[k].kind == Client && spans[k].durationMs == steps[i].llmMs && spans[k].status == steps[i].status
    && (ToolFollows(steps, i) ==>
          && k + 1 < |spans| && spans[k + 1].kind == Internal
          && spans[k + 1].durationMs == steps[i].tool.value && spans[k + 1].status == Ok)
  }

  lemma {:induction false} StepsShow(lead: real, steps: seq<Draw>, n: nat)
    requires n <= |steps|
    ensures |StepsSpans(lead, steps, n)| == n + ToolsBefore(steps, n)
    ensures forall i :: 0 <= i < n ==> ShowsStep(steps, StepsSpans(lead, steps, n), i)
  {
    if n > 0 {
      StepsShow(lead, steps, n - 1);
      var before := StepsSpans(lead, steps, n - 1);
      forall i | 0 <= i < n
        ensures ShowsStep(steps, StepsSpans(lead, steps, n), i)
      {
        if i < n - 1 {
          assert ShowsStep(steps, before, i);
        }
      }
    }
  }

  /** A failed draw is a failed call. */
  lemma CallsFail(steps: seq<Draw>, spans: seq<SpanData>, i: nat)
    requires i < |steps| && ShowsStep(steps, spans, i)
    ensures (exists k :: 0 <= k < |spans| && spans[k].status != Ok) || steps[i].status == Ok
  {
  }

  /**
   Every draw shows in the trace: the children are the calls of the steps in order, each with its
   duration and its status, and behind each but the last the tool call drawn for it, if any. They
   begin at the drawn lead, follow one another without a gap, and the root outlasts them by the drawn
   tail; and the root has failed if and only if some draw has.
   */
  lemma DrawsShow(lead: real, steps: seq<Draw>, tail: real, root: SpanData)
    requires ValidDraws(lead, steps, tail) && IsDrawn(lead, steps, tail, root)
    ensures |root.children| == |steps| + ToolsBefore(steps, |steps|)
    ensures forall i :: 0 <= i < |steps| ==> ShowsStep(steps, root.children, i)
    ensures root.status == Ok <==> forall i :: 0 <= i < |steps| ==> steps[i].status == Ok
    ensures var cs := root.children;
            && cs[0].startOffsetMs == lead
            && (forall i, j :: 0 <= i && j == i + 1 && j < |cs| ==>
                  cs[j].startOffsetMs == cs[i].startOffsetMs + cs[i].durationMs)
            && root.durationMs == cs[|cs| - 1].startOffsetMs + cs[|cs| - 1].durationMs + tail
  {
    StepsShow(lead, steps, |steps|);
    StepsAreSequential(lead, steps, |steps|);
    if root.status == Ok {
      forall i | 0 <= i < |steps|
        ensures steps[i].status == Ok
      {
        CallsFail(steps, root.children, i);
      }
    } else {
      FailuresAreDrawn(lead, steps, |steps|);
      var k :| 0 <= k < |root.children| && root.children[k].status != Ok;
    }
  }

  lemma {:induction false} FailuresAreDrawn(lead: real, steps: seq<Draw>, n: nat)
    requires n <= |steps|
    ensures forall k :: 0 <= k < |StepsSpans(lead, steps, n)| && StepsSpans(lead, steps, n)[k].status != Ok ==>
                          exists i :: 0 <= i < n && steps[i].status != Ok
  {
    if n > 0 {
      FailuresAreDrawn(lead, steps, n - 1);
      var before := StepsSpans(lead, steps, n - 1);
      var all := StepsSpans(lead, steps, n);
      forall k | 0 <= k < |all| && all[k].status != Ok
        ensures exists i :: 0 <= i < n && steps[i].status != Ok
      {
        if k < |before| {
          assert before[k].status != Ok;
        } else {
          assert all[k].status == steps[n - 1].status;
        }
      }
    }
  }

  // ---- Emission

  const NS_PER_MS := 1000000.0

  /** Milliseconds as whole nanoseconds. */
  function Ns(ms: real): int {
    Trunc(ms * NS_PER_MS)
  }

  function StartNs(s: SpanData, traceStart: int): int {
    traceStart + Ns(s.startOffsetMs)
  }

  function EndNs(s: SpanData, traceStart: int): int {
    StartNs(s, traceStart) + Ns(s.durationMs)
  }

  /** A span as the tracer sees it started; the parent is known by its place among all started spans. */
  datatype Started = Started(span: SpanData, start: int, parent: Option<nat>)

  datatype Ended = Ended(id: nat, end: int)

  function Starts(s: SpanData, t: int, parent: Option<nat>, id: nat): seq<Started>
    decreases s
  {
    [Started(s, StartNs(s, t), parent)] + StartsAll(s.children, t, Some(id), id + 1)
  }

  function StartsAll(spans: seq<SpanData>, t: int, parent: Option<nat>, id: nat): seq<Started>
    decreases spans
  {
    if spans == [] then []
    else Starts(spans[0], t, parent, id) + StartsAll(spans[1..], t, parent, id + |Walk(spans[0])|)
  }

  function Ends(s: SpanData, t: int, id: nat): seq<Ended>
    decreases s
  {
    EndsAll(s.children, t, id + 1) + [Ended(id, EndNs(s, t))]
  }

  function EndsAll(spans: seq<SpanData>, t: int, id: nat): seq<Ended>
    decreases spans
  {
    if spans == [] then []
    else Ends(spans[0], t, id) + EndsAll(spans[1..], t, id + |Walk(spans[0])|)
  }

  class Tracer {
    var started: seq<Started>
    var ended: seq<Ended>

    /** Start the span, emit its children under it, then end it. */
    method EmitSpan(s: SpanData, traceStart: int, parent: Option<nat>) returns (emitted: nat)
      modifies this
      ensures started == old(started) + Starts(s, traceStart, parent, |old(started)|)
      ensures ended == old(ended) + Ends(s, traceStart, |old(started)|)
      ensures emitted == |Walk(s)|
      decreases s
    {
      hide Starts, StartsAll, Ends, EndsAll, Walk, WalkAll, Ns;
      var start := traceStart + Ns(s.startOffsetMs);
      var end := start + Ns(s.durationMs);
      ghost var started0, ended0 := started, ended;
      var id := |started|;
      Unfold(s, traceStart, parent, id);
      started := started + [Started(s, start, parent)];
      emitted := 1;
      ghost var all := started0 + Starts(s, traceStart, parent, id);
      ghost var allEnds := ended0 + EndsAll(s.children, traceStart, id + 1);
      for i := 0 to |s.children|
        invariant id + emitted == |started|
        invariant started + StartsAll(s.children[i..], traceStart, Some(id), |started|) == all
        invariant ended + EndsAll(s.children[i..], traceStart, |started|) == allEnds
        invariant emitted + |WalkAll(s.children[i..])| == |Walk(s)|
      {
        NextChild(s.children, i, traceStart, Some(id), |started|);
        StartsFollowWalk(s.children[i], traceStart, Some(id), |started|);
        var more := EmitSpan(s.children[i], traceStart, Some(id));
        emitted := emitted + more;
      }
      NoMoreChildren(s.children, traceStart, Some(id), |started|);
      assert started + [] == started && ended + [] == ended;
      ended := ended + [Ended(id, end)];
      assert ended == ended0 + (EndsAll(s.children, traceStart, id + 1) + [Ended(id, end)]);
    }

    /** Emit a whole trace; without a given start it is backdated so that it ends now. */
    method EmitTrace(root: SpanData, givenStart: Option<int>, now: int) returns (emitted: nat)
      modifies this
      ensures var t := if givenStart.Some? then givenStart.value else now - Ns(root.durationMs);
              && started == old(started) + Starts(root, t, None, |old(started)|)
              && ended == old(ended) + Ends(root, t, |old(started)|)
      ensures emitted == |Walk(root)|
    {
      var t := if givenStart.Some? then givenStart.value else now - Ns(root.durationMs);
      emitted := EmitSpan(root, t, None);
    }
  }

  lemma Unfold(s: SpanData, t: int, parent: Option<nat>, id: nat)
    ensures Starts(s, t, parent, id) == [Started(s, StartNs(s, t), parent)] + StartsAll(s.children[0..], t, Some(id), id + 1)
    ensures Ends(s, t, id) == EndsAll(s.children[0..], t, id + 1) + [Ended(id, EndNs(s, t))]
    ensures |Walk(s)| == 1 + |WalkAll(s.children[0..])|
    ensures s.children[0..] == s.children
  {
    assert s.children[0..] == s.children;
  }

  lemma NextChild(spans: seq<SpanData>, i: nat, t: int, parent: Option<nat>, id: nat)
    requires i < |spans|
    ensures StartsAll(spans[i..], t, parent, id)
            == Starts(spans[i], t, parent, id) + StartsAll(spans[i + 1..], t, parent, id + |Walk(spans[i])|)
    ensures EndsAll(spans[i..], t, id)
            == Ends(spans[i], t, id) + EndsAll(spans[i + 1..], t, id + |Walk(spans[i])|)
    ensures |WalkAll(spans[i..])| == |Walk(spans[i])| + |WalkAll(spans[i + 1..])|
  {
    assert spans[i..][0] == spans[i] && spans[i..][1..] == spans[i + 1..];
  }

  lemma NoMoreChildren(spans: seq<SpanData>, t: int, parent: Option<nat>, id: nat)
    ensures StartsAll(spans[|spans|..], t, parent, id) == []
    ensures EndsAll(spans[|spans|..], t, id) == []
    ensures WalkAll(spans[|spans|..]) == []
  {
  }

  // ---- What the tracer has seen

  /** The spans started are the spans of the tree, parents first, each at its own offset. */
  lemma {:induction false} StartsFollowWalk(s: SpanData, t: int, parent: Option<nat>, id: nat)
    ensures |Starts(s, t, parent, id)| == |Walk(s)|
    ensures forall k :: 0 <= k < |Walk(s)| ==>
                          && Starts(s, t, parent, id)[k].span == Walk(s)[k]
                          && Starts(s, t, parent, id)[k].start == StartNs(Walk(s)[k], t)
    decreases s
  {
    StartsAllFollowWalk(s.children, t, Some(id), id + 1);
  }

  lemma {:induction false} StartsAllFollowWalk(spans: seq<SpanData>, t: int, parent: Option<nat>, id: nat)
    ensures |StartsAll(spans, t, parent, id)| == |WalkAll(spans)|
    ensures forall k :: 0 <= k < |WalkAll(spans)| ==>
                          && StartsAll(spans, t, parent, id)[k].span == WalkAll(spans)[k]
                          && StartsAll(spans, t, parent, id)[k].start == StartNs(WalkAll(spans)[k], t)
    decreases spans
  {
    if spans != [] {
      StartsFollowWalk(spans[0], t, parent, id);
      StartsAllFollowWalk(spans[1..], t, parent, id + |Walk(spans[0])|);
    }
  }

  /** The k-th started span hangs under the span its parent number names, which is one it is a child of. */
  ghost predicate Linked(records: seq<Started>, id: nat, k: nat)
    requires k < |records|
  {
    && records[k].parent.Some?
    && id <= records[k].parent.value < id + k
    && records[k].span in records[records[k].parent.value - id].span.children
  }

  ghost predicate AllLinked(records: seq<Started>, id: nat) {
    forall k :: 0 < k < |records| ==> Linked(records, id, k)
  }

  /** Every span but the first is started after its parent, and under it. */
  lemma {:induction false} ParentsAreLinked(s: SpanData, t: int, parent: Option<nat>, id: nat)
    ensures AllLinked(Starts(s, t, parent, id), id)
    decreases s, |s.children| + 2
  {
    hide Starts, StartsAll, AllLinked;
    var root := [Started(s, StartNs(s, t), parent)];
    OneIsLinked(root, id);
    Unfold(s, t, parent, id);
    ChildrenAreLinked(s, t, id, 0, root, id + 1);
  }

  lemma OneIsLinked(records: seq<Started>, id: nat)
    requires |records| == 1
    ensures AllLinked(records, id)
  {
  }

  lemma {:induction false} ChildrenAreLinked(
    s: SpanData, t: int, id: nat, i: nat, sofar: seq<Started>, next: nat)
    requires i <= |s.children| && |sofar| > 0 && sofar[0].span == s && next == id + |sofar|
    requires AllLinked(sofar, id)
    ensures AllLinked(sofar + StartsAll(s.children[i..], t, Some(id), next), id)
    decreases s, |s.children| - i + 1
  {
    hide Starts, StartsAll, Walk, AllLinked;
    if i < |s.children| {
      var c := s.children[i];
      var here := Starts(c, t, Some(id), next);
      NextChild(s.children, i, t, Some(id), next);
      ParentsAreLinked(c, t, Some(id), next);
      StartsFollowWalk(c, t, Some(id), next);
      Unfold(c, t, Some(id), next);
      Graft(sofar, here, id, next);
      ChildrenAreLinked(s, t, id, i + 1, sofar + here, next + |Walk(c)|);
      assert sofar + StartsAll(s.children[i..], t, Some(id), next)
          == sofar + here + StartsAll(s.children[i + 1..], t, Some(id), next + |Walk(c)|);
    } else {
      NoMoreChildren(s.children, t, Some(id), next);
      assert sofar + StartsAll(s.children[i..], t, Some(id), next) == sofar;
    }
  }

  /** A linked run whose first span hangs under the first span of another extends it. */
  lemma Graft(sofar: seq<Started>, here: seq<Started>, id: nat, next: nat)
    requires |sofar| > 0 && next == id + |sofar| && AllLinked(sofar, id)
    requires |here| > 0 && AllLinked(here, next)
    requires here[0].parent == Some(id) && here[0].span in sofar[0].span.children
    ensures AllLinked(sofar + here, id)
  {
    var all := sofar + here;
    forall k | 0 < k < |all|
      ensures Linked(all, id, k)
    {
      if k < |sofar| {
        assert Linked(sofar, id, k);
      } else if k > |sofar| {
        assert Linked(here, next, k - |sofar|);
      }
    }
  }

  /** The endings the spans call for: each span once, at its own start plus its own duration. */
  function EndList(spans: seq<SpanData>, t: int, id: nat): seq<Ended> {
    if spans == [] then [] else [Ended(id, EndNs(spans[0], t))] + EndList(spans[1..], t, id + 1)
  }

  lemma {:induction false} EndListAppend(a: seq<SpanData>, b: seq<SpanData>, t: int, id: nat)
    ensures EndList(a + b, t, id) == EndList(a, t, id) + EndList(b, t, id + |a|)
    decreases |a|
  {
    if a == [] {
      assert a + b == b;
    } else {
      assert (a + b)[1..] == a[1..] + b;
      EndListAppend(a[1..], b, t, id + 1);
    }
  }

  /** Every started span is ended exactly once, whatever the tree: the endings are a permutation. */
  lemma {:induction false} EachSpanEndsOnce(s: SpanData, t: int, id: nat)
    ensures multiset(Ends(s, t, id)) == multiset(EndList(Walk(s), t, id))
    decreases s
  {
    AllSpansEndOnce(s.children, t, id + 1);
    assert Walk(s)[1..] == WalkAll(s.children);
  }

  lemma {:induction false} AllSpansEndOnce(spans: seq<SpanData>, t: int, id: nat)
    ensures multiset(EndsAll(spans, t, id)) == multiset(EndList(WalkAll(spans), t, id))
    decreases spans
  {
    hide Walk, Ends, EndList, WalkAll, EndsAll;
    if spans == [] {
      NoneEnd(t, id);
    } else {
      var next := id + |Walk(spans[0])|;
      EachSpanEndsOnce(spans[0], t, id);
      AllSpansEndOnce(spans[1..], t, next);
      EndListAppend(Walk(spans[0]), WalkAll(spans[1..]), t, id);
      FirstTree(spans, t, id);
      SameTogether(Ends(spans[0], t, id), EndList(Walk(spans[0]), t, id),
                   EndsAll(spans[1..], t, next), EndList(WalkAll(spans[1..]), t, next));
    }
  }

  lemma NoneEnd(t: int, id: nat)
    ensures EndsAll([], t, id) == [] && WalkAll([]) == [] && EndList([], t, id) == []
  {
  }

  lemma FirstTree(spans: seq<SpanData>, t: int, id: nat)
    requires spans != []
    ensures WalkAll(spans) == Walk(spans[0]) + WalkAll(spans[1..])
    ensures EndsAll(spans, t, id) == Ends(spans[0], t, id) + EndsAll(spans[1..], t, id + |Walk(spans[0])|)
  {
    hide Walk, Ends;
  }

  lemma SameTogether(a: seq<Ended>, b: seq<Ended>, c: seq<Ended>, d: seq<Ended>)
    requires multiset(a) == multiset(b) && multiset(c) == multiset(d)
    ensures multiset(a + c) == multiset(b + d)
  {
  }

  /** A span's tree lies within what is left of the walk. */
  lemma {:induction false} TreesFit(s: SpanData, k: nat)
    requires k < |Walk(s)|
    ensures k + |Walk(Walk(s)[k])| <= |Walk(s)|
    decreases s
  {
    if k > 0 {
      ForestFits(s.children, k - 1);
    }
  }

  lemma {:induction false} ForestFits(spans: seq<SpanData>, k: nat)
    requires k < |WalkAll(spans)|
    ensures k + |Walk(WalkAll(spans)[k])| <= |WalkAll(spans)|
    decreases spans
  {
    hide Walk;
    var n := |Walk(spans[0])|;
    if k < n {
      TreesFit(spans[0], k);
    } else {
      ForestFits(spans[1..], k - n);
    }
  }

  /** Number y is not that of a descendant of the span that number x stands for. */
  ghost predicate NotBelow(walk: seq<SpanData>, id: nat, x: nat, y: nat)
    requires id <= x < id + |walk|
  {
    y < x || y >= x + |Walk(walk[x - id])|
  }

  /** When a span has ended, none of its descendants is still to end. */
  ghost predicate DescendantsFirst(ends: seq<Ended>, walk: seq<SpanData>, id: nat) {
    && (forall i :: 0 <= i < |ends| ==> id <= ends[i].id < id + |walk|)
    && (forall i, j :: 0 <= i < j < |ends| ==> NotBelow(walk, id, ends[i].id, ends[j].id))
  }

  /** Spans end from the inside out: each only after all that were started under it. */
  lemma {:induction false} EndsAreNested(s: SpanData, t: int, id: nat)
    ensures DescendantsFirst(Ends(s, t, id), Walk(s), id)
    decreases s
  {
    hide DescendantsFirst, EndNs;
    AllEndsAreNested(s.children, t, id + 1);
    ClosesLast(EndsAll(s.children, t, id + 1), s, WalkAll(s.children), Ended(id, EndNs(s, t)), id);
  }

  lemma ClosesLast(inner: seq<Ended>, s: SpanData, below: seq<SpanData>, last: Ended, id: nat)
    requires DescendantsFirst(inner, below, id + 1) && last.id == id
    ensures DescendantsFirst(inner + [last], [s] + below, id)
  {
    hide Walk;
    var all, walk := inner + [last], [s] + below;
    forall i, j | 0 <= i < j < |all|
      ensures NotBelow(walk, id, all[i].id, all[j].id)
    {
      assert walk[all[i].id - id] == below[inner[i].id - (id + 1)];
      if j < |inner| {
        assert NotBelow(below, id + 1, inner[i].id, inner[j].id);
      }
    }
  }

  lemma {:induction false} AllEndsAreNested(spans: seq<SpanData>, t: int, id: nat)
    ensures DescendantsFirst(EndsAll(spans, t, id), WalkAll(spans), id)
    decreases spans
  {
    hide Walk, Ends, WalkAll, EndsAll, DescendantsFirst;
    if spans == [] {
      NoneEnd(t, id);
      NoneIsBelow([], id);
    } else {
      var n := |Walk(spans[0])|;
      EndsAreNested(spans[0], t, id);
      AllEndsAreNested(spans[1..], t, id + n);
      FirstTree(spans, t, id);
      OneAfterTheOther(Ends(spans[0], t, id), spans[0], EndsAll(spans[1..], t, id + n), WalkAll(spans[1..]), id);
    }
  }

  lemma NoneIsBelow(walk: seq<SpanData>, id: nat)
    ensures DescendantsFirst([], walk, id)
  {
  }

  lemma OneAfterTheOther(a: seq<Ended>, s: SpanData, b: seq<Ended>, rest: seq<SpanData>, id: nat)
    requires DescendantsFirst(a, Walk(s), id) && DescendantsFirst(b, rest, id + |Walk(s)|)
    ensures DescendantsFirst(a + b, Walk(s) + rest, id)
  {
    hide Walk, NotBelow;
    var all := a + b;
    forall i, j | 0 <= i < j < |all|
      ensures NotBelow(Walk(s) + rest, id, all[i].id, all[j].id)
    {
      if j < |a| {
        InTheFirst(Walk(s), rest, id, a[i].id, a[j].id);
      } else if i < |a| {
        AcrossTrees(s, rest, id, a[i].id, b[j - |a|].id);
      } else {
        InTheRest(Walk(s), rest, id, b[i - |a|].id, b[j - |a|].id);
      }
    }
  }

  lemma InTheFirst(walk: seq<SpanData>, rest: seq<SpanData>, id: nat, x: nat, y: nat)
    requires id <= x < id + |walk| && NotBelow(walk, id, x, y)
    ensures NotBelow(walk + rest, id, x, y)
  {
    hide Walk;
    assert (walk + rest)[x - id] == walk[x - id];
  }

  lemma AcrossTrees(s: SpanData, rest: seq<SpanData>, id: nat, x: nat, y: nat)
    requires id <= x < id + |Walk(s)| <= y
    ensures NotBelow(Walk(s) + rest, id, x, y)
  {
    hide Walk;
    TreesFit(s, x - id);
    assert (Walk(s) + rest)[x - id] == Walk(s)[x - id];
  }

  lemma InTheRest(walk: seq<SpanData>, rest: seq<SpanData>, id: nat, x: nat, y: nat)
    requires id + |walk| <= x < id + |walk| + |rest| && NotBelow(rest, id + |walk|, x, y)
    ensures NotBelow(walk + rest, id, x, y)
  {
    hide Walk;
    assert (walk + rest)[x - id] == rest[x - (id + |walk|)];
  }

  /** Truncating two lengths loses less than truncating their sum, by at most one nanosecond. */
  lemma NsOfSum(a: real, b: real)
    requires a >= 0.0 && b >= 0.0
    ensures 0 <= Ns(a) && Ns(a) + Ns(b) <= Ns(a + b) <= Ns(a) + Ns(b) + 1
  {
    var x, y := a * NS_PER_MS, b * NS_PER_MS;
    assert (a + b) * NS_PER_MS == x + y;
  }

  lemma NsIsMonotone(a: real, b: real)
    requires 0.0 <= a <= b
    ensures Ns(a) <= Ns(b)
  {
    NsOfSum(a, b - a);
    NsOfSum(b - a, 0.0);
  }

  /** Later children of a sequential run start after earlier ones end. */
  lemma {:induction false} SequentialOffsets(cursor: real, spans: seq<SpanData>, i: nat)
    requires Sequential(cursor, spans) && i < |spans|
    ensures cursor <= spans[i].startOffsetMs
    ensures spans[i].startOffsetMs + spans[i].durationMs <= EndOf(cursor, spans)
  {
    OffsetsClimb(cursor, spans, 0, i);
    OffsetsClimb(cursor, spans, i, |spans| - 1);
  }

  lemma {:induction false} OffsetsClimb(cursor: real, spans: seq<SpanData>, i: nat, j: nat)
    requires Sequential(cursor, spans) && i <= j < |spans|
    ensures spans[i].startOffsetMs <= spans[j].startOffsetMs
    ensures spans[i].startOffsetMs + spans[i].durationMs <= spans[j].startOffsetMs + spans[j].durationMs
    decreases j - i
  {
    if i < j {
      OffsetsClimb(cursor, spans, i, j - 1);
      assert spans[j].startOffsetMs == spans[j - 1].startOffsetMs + spans[j - 1].durationMs;
    }
  }

  /**
   After truncation to nanoseconds a drawn trace is still well formed: it ends exactly when it is
   emitted, its children lie at least half a millisecond inside the root, and consecutive children
   never overlap and are never more than a nanosecond apart.
   */
  lemma TruncatedTraceIsWellFormed(root: SpanData, now: int)
    requires IsTrace(root)
    ensures var t := now - Ns(root.durationMs);
            && StartNs(root, t) == t && EndNs(root, t) == now
            && (forall i :: 0 <= i < |root.children| ==>
                 && t + 500000 <= StartNs(root.children[i], t) <= EndNs(root.children[i], t) <= now - 500000)
            && (forall i, j :: 0 <= i && j == i + 1 && j < |root.children| ==>
                 0 <= StartNs(root.children[j], t) - EndNs(root.children[i], t) <= 1)
  {
    hide Ns;
    var t := now - Ns(root.durationMs);
    var cs := root.children;
    var first := cs[0].startOffsetMs;
    NsConstants();
    forall i | 0 <= i < |cs|
      ensures t + 500000 <= StartNs(cs[i], t) <= EndNs(cs[i], t) <= now - 500000
    {
      ChildInside(root, i);
    }
    forall i, j | 0 <= i && j == i + 1 && j < |cs|
      ensures 0 <= StartNs(cs[j], t) - EndNs(cs[i], t) <= 1
    {
      SequentialOffsets(first, cs, i);
      NsOfSum(cs[i].startOffsetMs, cs[i].durationMs);
    }
  }

  lemma NsConstants()
    ensures Ns(0.0) == 0 && Ns(0.5) == 500000
  {
  }

  lemma ChildInside(root: SpanData, i: nat)
    requires IsTrace(root) && i < |root.children|
    ensures var c := root.children[i];
            500000 <= Ns(c.startOffsetMs) && 0 <= Ns(c.durationMs)
            && Ns(c.startOffsetMs) + Ns(c.durationMs) + 500000 <= Ns(root.durationMs)
  {
    hide Ns;
    var c := root.children[i];
    var end := c.startOffsetMs + c.durationMs;
    NsConstants();
    SequentialOffsets(root.children[0].startOffsetMs, root.children, i);
    NsIsMonotone(0.5, c.startOffsetMs);
    NsOfSum(c.durationMs, 0.0);
    NsOfSum(c.startOffsetMs, c.durationMs);
    NsOfSum(end, 0.5);
    NsIsMonotone(end + 0.5, root.durationMs);
  }
}
