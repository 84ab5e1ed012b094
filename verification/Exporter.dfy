/** The exporter as it runs: the lake, its staging area and the watermark table, updated in place. */
module Exporter {
  import opened ExportCore
  import opened Planner
  import opened Timeline
  import opened Wrappers

  const DEFAULT_LAG_MARGIN: Duration := 5 * MINUTE

  /** `FINAL` over ReplacingMergeTree(watermark): the highest version wins. */
  function Highest(log: seq<Instant>): (w: Option<Instant>) {
    if log == [] then None
    else
      match Highest(log[1..])
      case None => Some(log[0])
      case Some(rest) => Some(if log[0] >= rest then log[0] else rest)
  }

  lemma {:induction false} HighestIsTheMaximum(log: seq<Instant>)
    ensures log == [] <==> Highest(log).None?
    ensures log != [] ==> Highest(log).value in log && forall v :: v in log ==> v <= Highest(log).value
  {
    if log != [] {
      HighestIsTheMaximum(log[1..]);
      assert forall v :: v in log ==> v == log[0] || v in log[1..];
    }
  }

  /** The later of two watermarks, either of which may be missing. */
  function Later(x: Option<Instant>, y: Option<Instant>): Option<Instant> {
    if x.None? then y else if y.None? || x.value >= y.value then x else y
  }

  lemma {:induction false} HighestOfConcat(a: seq<Instant>, b: seq<Instant>)
    ensures Highest(a + b) == Later(Highest(a), Highest(b))
    decreases |a|
  {
    if a == [] {
      assert a + b == b;
    } else {
      assert (a + b)[1..] == a[1..] + b;
      HighestOfConcat(a[1..], b);
    }
  }

  /** Python's `windows[:maxWindows]`, applied only when the limit is neither absent nor zero. */
  function Limited(ws: seq<Window>, maxWindows: int): (r: seq<Window>)
    ensures r <= ws
  {
    if maxWindows == 0 then ws
    else if maxWindows > 0 then ws[..Min(maxWindows, |ws|)]
    else ws[..if |ws| + maxWindows < 0 then 0 else |ws| + maxWindows]
  }

  /** How many leading windows the run gets through: it halts at the first result that is not ok. */
  function Completed(ws: seq<Window>, observe: Window -> Observation): (k: nat)
    ensures k <= |ws|
    ensures forall i :: 0 <= i < k ==> Attempt(observe(ws[i])).Ok()
    ensures k < |ws| ==> !Attempt(observe(ws[k])).Ok()
  {
    if ws == [] || !Attempt(observe(ws[0])).Ok() then 0 else 1 + Completed(ws[1..], observe)
  }

  function CommittedAll(lake: map<FileKey, seq<Row>>, ws: seq<Window>, observe: Window -> Observation)
    : map<FileKey, seq<Row>>
  {
    if ws == [] then lake
    else
      var last := ws[|ws| - 1];
      Committed(CommittedAll(lake, ws[..|ws| - 1], observe), last, observe(last))
  }

  /** The watermark rows a run writes: one per completed window, cut to the second. */
  function Marks(ws: seq<Window>): (log: seq<Instant>)
    ensures |log| == |ws|
  {
    seq(|ws|, i requires 0 <= i < |ws| => FloorSecond(ws[i].end))
  }

  /** The lake and the watermark table, as values. */
  datatype Store = Store(lake: map<FileKey, seq<Row>>, log: seq<Instant>)

  /** Where a run begins: the watermark, or without one the oldest row of the hot tier. */
  function StartOf(log: seq<Instant>, oldest: Option<Instant>): Option<Instant> {
    if Highest(log).Some? then Highest(log) else oldest
  }

  /** The windows a run attempts. */
  function Planned(log: seq<Instant>, oldest: Option<Instant>, horizon: Instant, maxWindows: int): seq<Window> {
    match StartOf(log, oldest)
    case None => []
    case Some(start) => Limited(Plan(start, horizon, DEFAULT_WINDOW), maxWindows)
  }

  /** The store after a run whose attempts see `observe`. */
  function RunOf(
    s: Store, oldest: Option<Instant>, horizon: Instant, maxWindows: int, observe: Window -> Observation): Store
  {
    var ws := Planned(s.log, oldest, horizon, maxWindows);
    var done := ws[..Completed(ws, observe)];
    Store(CommittedAll(s.lake, done, observe), s.log + Marks(done))
  }

  class ColdStore {
    var lake: map<FileKey, seq<Row>>
    var staging: map<FileKey, seq<Row>>
    var watermarks: seq<Instant>

    constructor ()
      ensures lake == map[] && staging == map[] && watermarks == []
    {
      lake, staging, watermarks := map[], map[], [];
    }

    method ReadWatermark() returns (w: Option<Instant>)
      ensures w == Highest(watermarks)
    {
      w := Highest(watermarks);
    }

    /** Stored as a formatted string, so to the second. */
    method WriteWatermark(value: Instant)
      modifies this`watermarks
      ensures watermarks == old(watermarks) + [FloorSecond(value)]
    {
      watermarks := watermarks + [FloorSecond(value)];
    }

    /** An insert could not move the watermark back, so every row of the source is deleted first. */
    method RewindWatermark(to: Instant)
      modifies this`watermarks
      ensures watermarks == [FloorSecond(to)]
      ensures Highest(watermarks) == Some(FloorSecond(to))
    {
      watermarks := [];
      WriteWatermark(to);
    }

    /**
     Export one window: count, stream into staging, read back, compare, rename. The lake changes
     only when the attempt commits, and then at this window's file alone; a staging file survives
     only when the window was empty from the start.
     */
    method ExportWindow(w: Window, o: Observation) returns (result: WindowResult)
      modifies this`lake, this`staging
      ensures result == Attempt(o)
      ensures lake == Committed(old(lake), w, o)
      ensures lake == if result.Commits() then old(lake)[KeyOf(w) := o.readBack] else old(lake)
      ensures staging == if o.counted == 0 then old(staging) else old(staging) - {KeyOf(w)}
    {
      var key := KeyOf(w);
      result := WindowResult(o.counted, 0, 0, false, false);
      if result.sourceRows == 0 {
        return result.(skipped := true);
      }
      var writing := false;
      var i := 0;
      while i < |o.batches|
        invariant 0 <= i <= |o.batches|
        invariant result == WindowResult(o.counted, |Flatten(o.batches[..i])|, 0, false, false)
        invariant lake == old(lake)
        invariant writing <==> Flatten(o.batches[..i]) != []
        invariant staging == if writing then old(staging)[key := Flatten(o.batches[..i])] else old(staging)
      {
        var batch := o.batches[i];
        FlattenAppend(o.batches[..i], batch);
        assert o.batches[..i + 1] == o.batches[..i] + [batch];
        assert [] + batch == batch && Flatten(o.batches[..i]) + [] == Flatten(o.batches[..i]);
        if |batch| > 0 {
          staging := staging[key := if writing then staging[key] + batch else batch];
          writing := true;
          result := result.(writtenRows := result.writtenRows + |batch|);
        }
        i := i + 1;
      }
      assert o.batches[..|o.batches|] == o.batches;
      if !writing {
        staging := staging - {key};
        return result.(skipped := true);
      }
      staging := staging[key := o.readBack];
      result := result.(verifiedRows := |staging[key]|);
      result := result.(
        fingerprintMatched := FingerprintsAgree(FingerprintOf(o.scan), FingerprintOf(staging[key])));
      if !result.Ok() {
        staging := staging - {key};
        return;
      }
      lake, staging := lake[key := staging[key]], staging - {key};
    }

    /**
     The run's loop. The lake and the watermark table advance together, one window at a time, and
     stop for good at the first result that is not ok.
     */
    method ExportInOrder(windows: seq<Window>, observe: Window -> Observation)
      returns (results: seq<WindowResult>, after: Option<Instant>)
      modifies this
      ensures var k := Completed(windows, observe);
              && lake == CommittedAll(old(lake), windows[..k], observe)
              && watermarks == old(watermarks) + Marks(windows[..k])
              && |results| == (if k < |windows| then k + 1 else k)
              && (forall i :: 0 <= i < |results| ==> results[i] == Attempt(observe(windows[i])))
              && after == (if k == 0 then None else Some(windows[k - 1].end))
    {
      hide Attempt, Committed, Completed, Marks, CommittedAll, FloorSecond;
      results, after := [], None;
      var i := 0;
      NothingExported(lake, observe);
      assert windows[..0] == [];
      while i < |windows|
        invariant 0 <= i <= |windows| && |results| == i
        invariant forall j :: 0 <= j < i ==> results[j] == Attempt(observe(windows[j])) && results[j].Ok()
        invariant watermarks == old(watermarks) + Marks(windows[..i])
        invariant lake == CommittedAll(old(lake), windows[..i], observe)
        invariant after == if i == 0 then None else Some(windows[i - 1].end)
      {
        var w := windows[i];
        CommittedAllStep(old(lake), windows, i, observe);
        var result := ExportWindow(w, observe(w));
        results := results + [result];
        if !result.Ok() {
          NothingCommitted(CommittedAll(old(lake), windows[..i], observe), w, observe(w));
          CompletedIsUnique(windows, observe, i);
          return;
        }
        MarksStep(windows, i);
        WriteWatermark(w.end);
        after := Some(w.end);
        i := i + 1;
      }
      CompletedIsUnique(windows, observe, i);
      assert windows[..i] == windows;
    }

    /**
     Export every complete window since the watermark. `oldest` is the hot tier's smallest
     timestamp and `observe` what the attempt at each window sees.
     */
    method RunExport(
      now: Instant, lagMargin: Duration, maxWindows: int, since: Option<Instant>,
      oldest: Option<Instant>, observe: Window -> Observation)
      returns (before: Option<Instant>, results: seq<WindowResult>, after: Option<Instant>)
      modifies this
      ensures var log := if since.Some? then [FloorSecond(since.value)] else old(watermarks);
              var ws := Planned(log, oldest, now - lagMargin, maxWindows);
              var k := Completed(ws, observe);
              && Store(lake, watermarks)
                 == RunOf(Store(old(lake), log), oldest, now - lagMargin, maxWindows, observe)
              && before == Highest(log)
              && |results| == (if k < |ws| then k + 1 else k)
              && (forall i :: 0 <= i < |results| ==> results[i] == Attempt(observe(ws[i])))
              && after == (if k == 0 then None else Some(ws[k - 1].end))
      ensures var log := if since.Some? then [FloorSecond(since.value)] else old(watermarks);
              var due := Planned(log, oldest, now - lagMargin, 0);
              var n := if maxWindows > 0 && maxWindows < |due| then maxWindows
                       else if maxWindows < 0 then (if |due| + maxWindows > 0 then |due| + maxWindows else 0)
                       else |due|;
              && |results| <= n
              && (forall i :: 0 <= i < |results| ==> results[i] == Attempt(observe(due[i])))
              && (forall i :: 0 <= i < |results| - 1 ==> results[i].Ok())
              && (|results| < n ==> results != [] && !results[|results| - 1].Ok())
    {
      hide Attempt, Plan, Completed, Limited, Highest, Marks, CommittedAll, FloorSecond;
      results, after := [], None;
      if since.Some? {
        RewindWatermark(since.value);
      }
      before := ReadWatermark();
      var start := if before.Some? then before else oldest;
      var windows := [];
      if start.Some? {
        windows := PlanWindows(start.value, now, DEFAULT_WINDOW, lagMargin);
        windows := Limited(windows, maxWindows);
      }
      assert windows == Planned(watermarks, oldest, now - lagMargin, maxWindows);
      LimitTakes(watermarks, oldest, now - lagMargin, maxWindows);
      results, after := ExportInOrder(windows, observe);
    }
  }

  /** A limit takes that many windows from the front of the whole plan, a negative one drops that many from its end. */
  lemma LimitTakes(log: seq<Instant>, oldest: Option<Instant>, horizon: Instant, maxWindows: int)
    ensures var due, taken := Planned(log, oldest, horizon, 0), Planned(log, oldest, horizon, maxWindows);
            && taken <= due
            && |taken| == if maxWindows > 0 && maxWindows < |due| then maxWindows
                          else if maxWindows < 0 then (if |due| + maxWindows > 0 then |due| + maxWindows else 0)
                          else |due|
  {
    hide Plan, Highest;
  }

  lemma CommittedAllStep(lake: map<FileKey, seq<Row>>, ws: seq<Window>, i: nat, observe: Window -> Observation)
    requires i < |ws|
    ensures CommittedAll(lake, ws[..i + 1], observe)
            == Committed(CommittedAll(lake, ws[..i], observe), ws[i], observe(ws[i]))
  {
    assert ws[..i + 1][..i] == ws[..i];
  }

  lemma NothingExported(lake: map<FileKey, seq<Row>>, observe: Window -> Observation)
    ensures CommittedAll(lake, [], observe) == lake && Marks([]) == []
  {
  }

  lemma MarksStep(ws: seq<Window>, i: nat)
    requires i < |ws|
    ensures Marks(ws[..i + 1]) == Marks(ws[..i]) + [FloorSecond(ws[i].end)]
  {
  }

  lemma NothingCommitted(lake: map<FileKey, seq<Row>>, w: Window, o: Observation)
    requires !Attempt(o).Ok()
    ensures Committed(lake, w, o) == lake
  {
  }

  // ---- What a run achieves

  /** Adding a row that is not below the watermark makes it the watermark. */
  lemma {:induction false} HighestOfAppend(log: seq<Instant>, v: Instant)
    requires Highest(log).Some? ==> Highest(log).value <= v
    ensures Highest(log + [v]) == Some(v)
  {
    if log == [] {
      assert log + [v] == [v];
    } else {
      assert (log + [v])[1..] == log[1..] + [v];
      HighestOfAppend(log[1..], v);
    }
  }

  /** After k completed windows the watermark is the end of the last, cut to the second. */
  lemma {:induction false} WatermarkAfter(log: seq<Instant>, ws: seq<Window>)
    requires ws != []
    requires Highest(log).Some? ==> Highest(log).value <= FloorSecond(ws[0].end)
    requires forall i, j :: 0 <= i < j < |ws| ==> ws[i].end <= ws[j].end
    ensures Highest(log + Marks(ws)) == Some(FloorSecond(ws[|ws| - 1].end))
    decreases |ws|
  {
    var n := |ws| - 1;
    var init := ws[..n];
    assert ws[..n + 1] == ws;
    MarksStep(ws, n);
    assert log + Marks(ws) == (log + Marks(init)) + [FloorSecond(ws[n].end)];
    if n > 0 {
      WatermarkAfter(log, init);
      FloorSecondMonotone(ws[n - 1].end, ws[n].end);
    } else {
      assert log + Marks(init) == log;
    }
    HighestOfAppend(log + Marks(init), FloorSecond(ws[n].end));
  }

  lemma {:induction false} CommittedAllConcat(
    lake: map<FileKey, seq<Row>>, a: seq<Window>, b: seq<Window>, observe: Window -> Observation)
    ensures CommittedAll(lake, a + b, observe) == CommittedAll(CommittedAll(lake, a, observe), b, observe)
    decreases |b|
  {
    if b == [] {
      assert a + b == a;
    } else {
      var m := |b| - 1;
      assert (a + b)[..|a + b| - 1] == a + b[..m];
      CommittedAllConcat(lake, a, b[..m], observe);
    }
  }

  /**
   Starting over from the watermark plans exactly what is left of the interrupted plan, unless the
   run had completed a window that ends within a second: that is the clipped window at the end of
   the plan, the watermark falls behind its end, and what follows it is planned again.
   */
  lemma PlanResumes(log: seq<Instant>, oldest: Option<Instant>, horizon: Instant, k: nat)
    requires k <= |Planned(log, oldest, horizon, 0)|
    ensures var ws := Planned(log, oldest, horizon, 0);
            Planned(log + Marks(ws[..k]), oldest, horizon, 0) == ws[k..]
            <==> k == 0 || WholeSecond(ws[k - 1].end)
  {
    hide WholeSecond, Planned, Highest;
    var ws := Planned(log, oldest, horizon, 0);
    if k == 0 {
      assert Marks(ws[..k]) == [] && log + [] == log;
    } else if WholeSecond(ws[k - 1].end) {
      ResumesOnTheSecond(log, oldest, horizon, k);
    } else {
      FallsBehind(log, oldest, horizon, k);
      assert ws[..k] == ws;
    }
  }

  lemma ResumesOnTheSecond(log: seq<Instant>, oldest: Option<Instant>, horizon: Instant, k: nat)
    requires 0 < k <= |Planned(log, oldest, horizon, 0)|
    requires WholeSecond(Planned(log, oldest, horizon, 0)[k - 1].end)
    ensures var ws := Planned(log, oldest, horizon, 0);
            Planned(log + Marks(ws[..k]), oldest, horizon, 0) == ws[k..]
  {
    hide Completed, CommittedAll;
    var ws := Planned(log, oldest, horizon, 0);
    var start := StartOf(log, oldest).value;
    PlannedRuns(start, horizon);
    PlanTiles(start, horizon, DEFAULT_WINDOW);
    TilesCoverOnce(ws, start, horizon, start);
    PlannedWindows(start, horizon, DEFAULT_WINDOW, 0);
    if ws[0].end % HOUR == 0 {
      HoursAreWholeSeconds(ws[0].end);
    } else {
      assert k == 1;
    }
    FloorSecondBounds(ws[0].end);
    FloorSecondBounds(ws[k - 1].end);
    WatermarkAfter(log, ws[..k]);
    ReplanFromWindow(start, horizon, DEFAULT_WINDOW, k - 1);
  }

  /** A completed window that ends within a second leaves the watermark below the horizon it was clipped at. */
  lemma FallsBehind(log: seq<Instant>, oldest: Option<Instant>, horizon: Instant, k: nat)
    requires 0 < k <= |Planned(log, oldest, horizon, 0)|
    requires !WholeSecond(Planned(log, oldest, horizon, 0)[k - 1].end)
    ensures var ws := Planned(log, oldest, horizon, 0);
            k == |ws| && ws[k - 1].end == horizon && Planned(log + Marks(ws), oldest, horizon, 0) != []
  {
    hide Completed, CommittedAll;
    var ws := Planned(log, oldest, horizon, 0);
    var start := StartOf(log, oldest).value;
    PlannedRuns(start, horizon);
    PlanTiles(start, horizon, DEFAULT_WINDOW);
    TilesCoverOnce(ws, start, horizon, start);
    PlannedWindows(start, horizon, DEFAULT_WINDOW, k - 1);
    if ws[k - 1].end % HOUR == 0 {
      HoursAreWholeSeconds(ws[k - 1].end);
    }
    assert ws[|ws| - 1].start < horizon == ws[k - 1].end;
    var after := log + Marks(ws);
    HighestIsTheMaximum(log);
    HighestIsTheMaximum(after);
    assert after[|log|] == Marks(ws)[0];
    forall v | v in after
      ensures v < horizon
    {
      if v in Marks(ws) {
        var i :| 0 <= i < |ws| && Marks(ws)[i] == v;
        FloorSecondBounds(ws[i].end);
      }
    }
    PlanTiles(Highest(after).value, horizon, DEFAULT_WINDOW);
  }

  lemma WholeEnd(end: Instant, horizon: Instant)
    requires WholeSecond(horizon) && (end % HOUR == 0 || end == horizon)
    ensures WholeSecond(end) && FloorSecond(end) == end
  {
    if end % HOUR == 0 {
      HoursAreWholeSeconds(end);
    }
  }

  /** What two runs together observe: the first run's observations below the cut, the second's from there. */
  function Switched(a: Window -> Observation, b: Window -> Observation, cut: Instant): Window -> Observation {
    (w: Window) => if w.start < cut then a(w) else b(w)
  }

  /** Where the window after the first k starts. */
  function StartAfter(ws: seq<Window>, k: nat, horizon: Instant): Instant {
    if k < |ws| then ws[k].start else horizon
  }

  lemma {:induction false} CommittedAllSame(
    lake: map<FileKey, seq<Row>>, ws: seq<Window>, a: Window -> Observation, b: Window -> Observation)
    requires forall i :: 0 <= i < |ws| ==> a(ws[i]) == b(ws[i])
    ensures CommittedAll(lake, ws, a) == CommittedAll(lake, ws, b)
    decreases |ws|
  {
    hide Committed;
    if ws != [] {
      CommittedAllSame(lake, ws[..|ws| - 1], a, b);
    }
  }

  /** In a plan the cut separates the first m windows from the rest. */
  lemma CutSeparates(log: seq<Instant>, oldest: Option<Instant>, horizon: Instant, m: nat)
    requires m <= |Planned(log, oldest, horizon, 0)|
    ensures var ws := Planned(log, oldest, horizon, 0);
            forall i :: 0 <= i < |ws| ==> (ws[i].start < StartAfter(ws, m, horizon) <==> i < m)
  {
    hide Plan, Highest;
    var ws := Planned(log, oldest, horizon, 0);
    if ws != [] {
      var start := StartOf(log, oldest).value;
      PlannedRuns(start, horizon);
      PlanTiles(start, horizon, DEFAULT_WINDOW);
      TilesCoverOnce(ws, start, horizon, start);
    }
  }

  lemma PlannedRuns(start: Instant, horizon: Instant)
    requires Plan(start, horizon, DEFAULT_WINDOW) != []
    ensures start < horizon
  {
  }

  /**
   Runs compose. However a run is cut short, by a window limit or by halting at a window that fails
   verification, and whatever a second run with the same horizon then observes, the two leave the
   store that one full run leaves which observes what the first did up to the first window not
   completed, and from there on what the second did. The one exception is a run that completes a
   window clipped within a second: the second run plans the rest of that second again, and the
   stores differ if and only if it completes a window of that plan.
   */
  lemma RunsCompose(
    s: Store, oldest: Option<Instant>, horizon: Instant, maxWindows: int,
    a: Window -> Observation, b: Window -> Observation)
    ensures var limited := Planned(s.log, oldest, horizon, maxWindows);
            var m := Completed(limited, a);
            var cut := StartAfter(Planned(s.log, oldest, horizon, 0), m, horizon);
            var between := RunOf(s, oldest, horizon, maxWindows, a);
            (RunOf(between, oldest, horizon, 0, b) == RunOf(s, oldest, horizon, 0, Switched(a, b, cut))
             <==> m == 0 || WholeSecond(limited[m - 1].end)
                  || Completed(Planned(between.log, oldest, horizon, 0), b) == 0)
  {
    hide Planned, Completed, CommittedAll, Marks, Attempt, Highest, WholeSecond;
    var ws := Planned(s.log, oldest, horizon, 0);
    var limited := Planned(s.log, oldest, horizon, maxWindows);
    var m := Completed(limited, a);
    LimitedIsPrefix(s.log, oldest, horizon, maxWindows);
    assert limited[..m] == ws[..m];
    assert m > 0 ==> limited[m - 1] == ws[m - 1];
    if m == 0 || WholeSecond(ws[m - 1].end) {
      PlanResumes(s.log, oldest, horizon, m);
      ResumedRun(s, oldest, horizon, maxWindows, a, b);
    } else {
      FallsBehind(s.log, oldest, horizon, m);
      assert ws[..m] == ws && limited == ws;
      WholeRun(s, oldest, horizon, a, b);
      RunAgain(RunOf(s, oldest, horizon, maxWindows, a), oldest, horizon, b);
    }
  }

  /** A run changes the store if and only if it completes a window. */
  lemma RunAgain(s: Store, oldest: Option<Instant>, horizon: Instant, observe: Window -> Observation)
    ensures RunOf(s, oldest, horizon, 0, observe) == s
            <==> Completed(Planned(s.log, oldest, horizon, 0), observe) == 0
  {
    hide Planned, Completed, Attempt, Highest;
    var ws := Planned(s.log, oldest, horizon, 0);
    if Completed(ws, observe) == 0 {
      NothingExported(s.lake, observe);
      assert ws[..0] == [] && s.log + [] == s.log;
    }
  }

  /** A run that got through its whole plan left nothing for the second run's observations to change. */
  lemma WholeRun(
    s: Store, oldest: Option<Instant>, horizon: Instant, a: Window -> Observation, b: Window -> Observation)
    requires var ws := Planned(s.log, oldest, horizon, 0);
             Completed(ws, a) == |ws|
    ensures RunOf(s, oldest, horizon, 0, Switched(a, b, horizon)) == RunOf(s, oldest, horizon, 0, a)
  {
    hide Planned, CommittedAll, Marks, Attempt, Highest;
    var ws := Planned(s.log, oldest, horizon, 0);
    var both := Switched(a, b, horizon);
    CutSeparates(s.log, oldest, horizon, |ws|);
    assert forall i :: 0 <= i < |ws| ==> both(ws[i]) == a(ws[i]);
    CompletedIsUnique(ws, both, |ws|);
    CommittedAllSame(s.lake, ws, a, both);
    assert ws[..|ws|] == ws;
  }

  lemma ResumedRun(
    s: Store, oldest: Option<Instant>, horizon: Instant, maxWindows: int,
    a: Window -> Observation, b: Window -> Observation)
    requires var ws := Planned(s.log, oldest, horizon, 0);
             var limited := Planned(s.log, oldest, horizon, maxWindows);
             var m := Completed(limited, a);
             limited <= ws && Planned(s.log + Marks(ws[..m]), oldest, horizon, 0) == ws[m..]
    ensures var ws := Planned(s.log, oldest, horizon, 0);
            var m := Completed(Planned(s.log, oldest, horizon, maxWindows), a);
            RunOf(RunOf(s, oldest, horizon, maxWindows, a), oldest, horizon, 0, b)
            == RunOf(s, oldest, horizon, 0, Switched(a, b, StartAfter(ws, m, horizon)))
  {
    hide Planned, Completed, CommittedAll, Marks, Attempt, Highest;
    var ws := Planned(s.log, oldest, horizon, 0);
    var limited := Planned(s.log, oldest, horizon, maxWindows);
    var m := Completed(limited, a);
    assert limited[..m] == ws[..m];
    var both := Switched(a, b, StartAfter(ws, m, horizon));
    CutSeparates(s.log, oldest, horizon, m);
    var k := Completed(ws[m..], b);
    var rest := ws[m..][..k];
    assert ws[..m + k] == ws[..m] + rest;
    SwitchedCompletes(ws, m, a, b, both);
    CommittedAllSame(s.lake, ws[..m], a, both);
    CommittedAllSame(CommittedAll(s.lake, ws[..m], both), rest, b, both);
    CommittedAllConcat(s.lake, ws[..m], rest, both);
    MarksConcat(ws[..m], rest);
    assert s.log + Marks(ws[..m]) + Marks(rest) == s.log + Marks(ws[..m + k]);
  }

  lemma SwitchedCompletes(
    ws: seq<Window>, m: nat, a: Window -> Observation, b: Window -> Observation, both: Window -> Observation)
    requires m <= |ws|
    requires forall i :: 0 <= i < m ==> both(ws[i]) == a(ws[i]) && Attempt(a(ws[i])).Ok()
    requires forall i :: m <= i < |ws| ==> both(ws[i]) == b(ws[i])
    ensures Completed(ws, both) == m + Completed(ws[m..], b)
  {
    hide Attempt;
    var k := Completed(ws[m..], b);
    forall i | 0 <= i < m + k
      ensures Attempt(both(ws[i])).Ok()
    {
      if i >= m {
        assert ws[i] == ws[m..][i - m];
      }
    }
    CompletedIsUnique(ws, both, m + k);
  }

  lemma MarksConcat(a: seq<Window>, b: seq<Window>)
    ensures Marks(a + b) == Marks(a) + Marks(b)
  {
  }

  lemma LimitedIsPrefix(log: seq<Instant>, oldest: Option<Instant>, horizon: Instant, maxWindows: int)
    ensures Planned(log, oldest, horizon, maxWindows) <= Planned(log, oldest, horizon, 0)
  {
  }

  /** Background merges of the watermark table never show: the maximum survives. */
  lemma MergeKeepsWatermark(log: seq<Instant>, drop: nat, keep: nat)
    requires drop < |log| && keep < |log| && drop != keep && log[drop] <= log[keep]
    ensures Highest(log[..drop] + log[drop + 1..]) == Highest(log)
  {
    hide Highest;
    var merged := log[..drop] + log[drop + 1..];
    assert log[keep] in merged by {
      assert log[keep] == if keep < drop then merged[keep] else merged[keep - 1];
    }
    forall v | v in log
      ensures v in merged || v == log[drop]
    {
      var i :| 0 <= i < |log| && log[i] == v;
      if i != drop {
        assert v == if i < drop then merged[i] else merged[i - 1];
      }
    }
    HighestIsTheMaximum(log);
    HighestIsTheMaximum(merged);
    var top := Highest(log).value;
    assert Highest(merged).value in log;
    if top == log[drop] {
      assert log[keep] == top;
    }
  }

  /** What a plan looks like, to whoever works through it. */
  lemma PlannedIsSound(log: seq<Instant>, oldest: Option<Instant>, horizon: Instant, maxWindows: int)
    ensures var ws := Planned(log, oldest, horizon, maxWindows);
            && (forall i :: 0 <= i < |ws| ==> ws[i].start < ws[i].end <= horizon)
            && (forall i :: 0 < i < |ws| ==> ws[i].start == ws[i - 1].end && WholeSecond(ws[i].start))
            && (ws != [] ==> StartOf(log, oldest) == Some(ws[0].start))
  {
    hide Highest, WindowEnd, Plan, WholeSecond;
    var ws := Planned(log, oldest, horizon, maxWindows);
    forall i | 0 <= i < |ws|
      ensures ws[i].start < ws[i].end <= horizon
    {
      PlannedWindows(StartOf(log, oldest).value, horizon, DEFAULT_WINDOW, i);
    }
    forall i | 0 < i < |ws|
      ensures ws[i].start == ws[i - 1].end && WholeSecond(ws[i].start)
    {
      PlanAbuts(StartOf(log, oldest).value, horizon, i);
      HoursAreWholeSeconds(ws[i].start);
    }
    if ws != [] {
      PlanBegins(StartOf(log, oldest).value, horizon);
    }
  }

  lemma PlanBegins(start: Instant, horizon: Instant)
    requires Plan(start, horizon, DEFAULT_WINDOW) != []
    ensures Plan(start, horizon, DEFAULT_WINDOW)[0].start == start
  {
  }

  lemma {:induction false} PlanAbuts(start: Instant, horizon: Instant, i: nat)
    requires 0 < i < |Plan(start, horizon, DEFAULT_WINDOW)|
    ensures var ws := Plan(start, horizon, DEFAULT_WINDOW);
            ws[i].start == ws[i - 1].end && ws[i - 1].end % HOUR == 0
  {
    var ws := Plan(start, horizon, DEFAULT_WINDOW);
    ReplanFromWindow(start, horizon, DEFAULT_WINDOW, i - 1);
    assert Plan(ws[i - 1].end, horizon, DEFAULT_WINDOW)[0] == ws[i..][0];
    PlanBegins(ws[i - 1].end, horizon);
    PlannedWindows(start, horizon, DEFAULT_WINDOW, i - 1);
    PlannedWindows(start, horizon, DEFAULT_WINDOW, i);
  }

  /** The halting point is determined by the results. */
  lemma {:induction false} CompletedIsUnique(ws: seq<Window>, observe: Window -> Observation, k: nat)
    requires k <= |ws|
    requires forall i :: 0 <= i < k ==> Attempt(observe(ws[i])).Ok()
    requires k < |ws| ==> !Attempt(observe(ws[k])).Ok()
    ensures Completed(ws, observe) == k
  {
    if k > 0 {
      assert ws[1..][..k - 1] == ws[1..k];
      CompletedIsUnique(ws[1..], observe, k - 1);
    }
  }
}
