/** Concrete runs of the protocol in which a condition of the theorems is missing, and the promise with it. */
module Witnesses {
  import opened ExportCore
  import opened Exporter
  import opened NoDuplicates
  import opened NoLoss
  import opened Planner
  import opened Protocol
  import opened ProtocolRuns
  import opened Timeline
  import opened Wrappers

  const LAG: Duration := DEFAULT_LAG_MARGIN

  function RowAt(ts: Instant): Row {
    Row(ts, "tenant-0000", "trace", 1, 1, 1.0, "")
  }

  function Faithful(rows: seq<Row>): Observation {
    Observation(|rows|, [rows], rows, rows)
  }

  lemma FaithfulCommits(hot: multiset<Row>, w: Window, rows: seq<Row>)
    requires rows != [] && multiset(rows) == Within(hot, w)
    ensures Sees(hot, w, Faithful(rows)) && Attempt(Faithful(rows)).Commits()
    ensures Flatten([rows]) == rows
  {
    hide Within, FingerprintOf;
    assert Flatten([rows][1..]) == [];
    assert Flatten([rows]) == rows;
    SeqSize(rows);
  }

  /** From a ready state, a faithful attempt at a window that holds `rows`. */
  lemma ExportRows(s: State, steps: seq<Step>, rows: seq<Row>) returns (more: seq<Step>)
    requires Follows(s, steps, Healthy)
    requires var t := Run(s, steps);
             t.phase.Ready? && t.phase.todo != [] && rows != [] && multiset(rows) == Within(t.hot, t.phase.todo[0])
    ensures Follows(s, more, Healthy)
    ensures var t := Run(s, steps);
            Run(s, more) == t.(lake := t.lake[KeyOf(t.phase.todo[0]) := rows], phase := Settled(t.phase.todo, true))
  {
    hide Enabled, Apply, Follows, Run, Within, KeyOf, FingerprintOf, FingerprintsAgree, Sees, Highest;
    var t := Run(s, steps);
    FaithfulCommits(t.hot, t.phase.todo[0], rows);
    more := AttemptIsProtocol(t, Faithful(rows), Healthy);
    Join(s, steps, more, Healthy);
    more := steps + more;
  }

  lemma PlanOneWindow(start: Instant, horizon: Instant)
    requires start < horizon <= FloorHour(start) + HOUR
    ensures Plan(start, horizon, DEFAULT_WINDOW) == [Window(start, horizon)]
  {
    HourlyEnd(start, horizon);
  }

  lemma OneMark()
    ensures Highest([HOUR]) == Some(HOUR)
  {
    assert Highest([HOUR][1..]) == None;
  }

  /** One row arrives on time, and an hour and the lag margin go by. */
  lemma OneRowHot(a: Row, p: (State, Step) -> bool) returns (steps: seq<Step>)
    requires a.ts >= 0
    requires forall t, step: Step :: step.Arrive? || step.Tick? ==> p(t, step)
    ensures Follows(Init(LAG, 0), steps, p)
    ensures Run(Init(LAG, 0), steps)
            == State(LAG, HOUR + LAG, multiset{a}, [], map[], Idle, multiset{a}, multiset{a}, multiset{})
  {
    hide Follows, Run, Highest, FloorSecond;
    var s0 := Init(LAG, 0);
    steps := [Arrive(a)];
    OneStep(s0, Arrive(a), p);
    Then(s0, steps, Tick(HOUR + LAG), p);
    steps := steps + [Tick(HOUR + LAG)];
  }

  // ---- A window that holds a row streams none

  /**
   A nonempty window whose stream delivers nothing is skipped, and the watermark passes it: the row
   below the watermark is in no file, though the TTL has removed nothing.
   */
  lemma EmptyStreamLosesARow() returns (steps: seq<Step>, r: Row)
    ensures Follows(Init(LAG, 0), steps, ExpirySparesTheStream)
    ensures var s := Run(Init(LAG, 0), steps);
            && !s.AtOrAbove(r.ts) && s.punctual[r] == 1
            && Copies(CommittedFiles(s), r) + s.lost[r] == 0
  {
    hide Copies, Run, Follows, WindowEnd;
    var p := ExpirySparesTheStream;
    r := RowAt(0);
    var s0 := Init(LAG, 0);
    steps := OneRowHot(r, p);
    var s2 := Run(s0, steps);
    PlanOneWindow(0, HOUR);
    Then(s0, steps, Start(Some(0), 0), p);
    steps := steps + [Start(Some(0), 0)];
    var w := Window(0, HOUR);
    assert Run(s0, steps) == s2.(phase := Ready([w]));
    assert Within(multiset{r}, w) == multiset{r};
    Then(s0, steps, Count, p);
    steps := steps + [Count];
    assert Run(s0, steps) == s2.(phase := Counted([w], 1));
    Then(s0, steps, Stream([]), p);
    steps := steps + [Stream([])];
    assert Run(s0, steps) == s2.(phase := Settled([w], false));
    Then(s0, steps, Advance, p);
    steps := steps + [Advance];
    assert Run(s0, steps) == s2.(log := [HOUR]);
    OneMark();
    NoFilesNoCopies(CommittedFiles(Run(s0, steps)), r);
  }

  lemma NoFilesNoCopies(lake: map<FileKey, seq<Row>>, r: Row)
    requires lake == map[]
    ensures Copies(lake, r) == 0
  {
  }

  // ---- A crash after the rename of a window the horizon clipped

  lemma TwoFilesTwoCopies(lake: map<FileKey, seq<Row>>, j: FileKey, k: FileKey, r: Row)
    requires j in lake && k in lake && j != k && r in lake[j] && r in lake[k]
    ensures Copies(lake, r) >= 2
  {
    CopiesSplit(lake, r, j);
    CopiesSplit(lake - {j}, r, k);
  }

  /** Row a in the first hour, row b in the second, and a run that has planned both. */
  lemma TwoRowsReady(a: Row, b: Row) returns (steps: seq<Step>)
    requires a.ts == 0 && b.ts == HOUR + 10 * MINUTE
    ensures Follows(Init(LAG, 0), steps, Healthy)
    ensures Run(Init(LAG, 0), steps) == State(
              LAG, HOUR + 35 * MINUTE, multiset{a, b}, [], map[],
              Ready([Window(0, HOUR), Window(HOUR, HOUR + 30 * MINUTE)]),
              multiset{a, b}, multiset{a, b}, multiset{})
  {
    hide LakeRows, Within, Flatten, Attempt, WindowEnd, FloorHour;
    var s0 := Init(LAG, 0);
    steps := [Arrive(a)];
    OneStep(s0, Arrive(a), Healthy);
    Then(s0, steps, Tick(HOUR + 10 * MINUTE), Healthy);
    steps := steps + [Tick(HOUR + 10 * MINUTE)];
    Then(s0, steps, Arrive(b), Healthy);
    steps := steps + [Arrive(b)];
    Then(s0, steps, Tick(HOUR + 35 * MINUTE), Healthy);
    steps := steps + [Tick(HOUR + 35 * MINUTE)];
    var s4 := State(LAG, HOUR + 35 * MINUTE, multiset{a, b}, [], map[], Idle,
                    multiset{a, b}, multiset{a, b}, multiset{});
    assert Run(s0, steps) == s4;
    assert s4.Horizon() == HOUR + 30 * MINUTE;
    PlanTwoWindows();
    Then(s0, steps, Start(Some(0), 0), Healthy);
    steps := steps + [Start(Some(0), 0)];
  }

  lemma PlanTwoWindows()
    ensures Plan(0, HOUR + 30 * MINUTE, DEFAULT_WINDOW) == [Window(0, HOUR), Window(HOUR, HOUR + 30 * MINUTE)]
  {
    HourlyEnd(0, HOUR + 30 * MINUTE);
    PlanOneWindow(HOUR, HOUR + 30 * MINUTE);
  }

  /** A new run from a watermark, with a single window to plan that holds the one row b. */
  lemma RunOneWindow(s: State, oldest: Option<Instant>, w: Window, rows: seq<Row>) returns (steps: seq<Step>)
    requires s.phase.Idle? && Enabled(s, Start(oldest, 0))
    requires StartOf(s.log, oldest) == Some(w.start) && w.end == s.Horizon()
    requires w.start < w.end <= FloorHour(w.start) + HOUR
    requires rows != [] && multiset(rows) == Within(s.hot, w)
    ensures Follows(s, steps, Healthy)
    ensures Run(s, steps) == s.(lake := s.lake[KeyOf(w) := rows], phase := Settled([w], true))
  {
    hide Highest, KeyOf, FloorSecond, Within, FloorHour, Plan;
    steps := [Start(oldest, 0)];
    OneStep(s, Start(oldest, 0), Healthy);
    PlanOneWindow(w.start, w.end);
    assert Run(s, steps) == s.(phase := Ready([w]));
    steps := ExportRows(s, steps, rows);
  }

  /**
   In good health, a crash between rename and watermark of a window that ends at the horizon puts
   the row in the lake twice once the next run has exported its longer window.
   */
  lemma ClippedCrashDuplicatesARow() returns (steps: seq<Step>, b: Row)
    ensures Follows(Init(LAG, 0), steps, Healthy)
    ensures var s := Run(Init(LAG, 0), steps); s.arrived[b] == 1 && Copies(s.lake, b) >= 2
  {
    hide Copies, LakeRows, Enabled, Apply, Follows, Run;
    b := RowAt(HOUR + 10 * MINUTE);
    var s0 := Init(LAG, 0);
    var longer := Window(HOUR, HOUR + 40 * MINUTE);
    steps := ClippedCrash(b);
    var crashed := Run(s0, steps);
    OneMark();
    assert crashed.Watermark() == Some(HOUR);
    StartIsEnabled(crashed);
    assert Within(crashed.hot, longer) == multiset([b]);
    var more := RunOneWindow(crashed, None, longer, [b]);
    Join(s0, steps, more, Healthy);
    steps := steps + more;
    TwoFilesTwoCopies(Run(s0, steps).lake, FileKey(HOUR, HOUR + 30 * MINUTE), KeyOf(longer), b);
  }

  lemma StartIsEnabled(s: State)
    requires s.phase.Idle? && s.Watermark().Some?
    ensures Enabled(s, Start(None, 0))
  {
  }

  // ---- The same from any state in which a window off the hour has just been renamed

  lemma {:induction false} RowsOf(m: multiset<Row>) returns (rows: seq<Row>)
    ensures multiset(rows) == m
    decreases |m|
  {
    if m == multiset{} {
      rows := [];
    } else {
      var r :| r in m;
      var others := RowsOf(m - multiset{r});
      rows := [r] + others;
    }
  }

  /** A second after the crash a run has started, and its first window goes past the file left behind. */
  lemma RestartPastTheFile(s: State) returns (steps: seq<Step>)
    requires Renamed(s) && s.Watermark().Some?
    ensures s.phase.todo != [] && Follows(s, steps, Healthy)
    ensures s.phase.todo[0].end % HOUR != 0 ==>
              var w, t := s.phase.todo[0], Run(s, steps);
              && t.phase.Ready? && t.phase.todo != [] && t == s.(phase := t.phase, now := t.now)
              && t.phase.todo[0].start == w.start && t.phase.todo[0].end > w.end && WholeSecond(t.phase.todo[0].end)
  {
    hide Highest, FloorHour, FloorSecond, WholeSecond, Tidy, Enabled, Apply, Follows, Run, Planned, Healthy;
    RenamedWindow(s);
    ASecondLater(s);
    var between := [Tick(s.now + SECOND)];
    var crashed, t := Apply(s, Crash), s.(phase := Idle, now := s.now + SECOND);
    HealthyUnless(s, Crash);
    OneStep(s, Crash, Healthy);
    HealthyUnless(crashed, Tick(s.now + SECOND));
    RestartsMeans(s, between);
    OneStep(crashed, Tick(s.now + SECOND), OnlyEnvironment);
    Then(s, [Crash], Tick(s.now + SECOND), Healthy);
    HealthyUnless(t, Start(None, 0));
    steps := [Crash] + between;
    Then(s, steps, Start(None, 0), Healthy);
    steps := steps + [Start(None, 0)];
    StartedState(t);
    CrashedState(s, between);
    PlannedIsSound(t.log, None, t.Horizon(), 0);
    PlannedIsExact(t.log, None, t.Horizon(), 0, 0);
    SameEndExactly(s.phase.todo[0].start, s.phase.todo[0].end, t.Horizon());
    if s.phase.todo[0].end % HOUR != 0 {
      EarlierThanTheHour(s);
    }
  }

  lemma HealthyUnless(s: State, step: Step)
    requires !step.Expire? && !step.Stream?
    ensures Healthy(s, step)
  {
  }

  lemma RestartsMeans(s: State, between: seq<Step>)
    requires Restarts(s, between, None, 0)
    ensures Enabled(s, Crash) && Follows(Apply(s, Crash), between, OnlyEnvironment)
    ensures Enabled(Run(Apply(s, Crash), between), Start(None, 0))
    ensures between != [] ==> Enabled(Apply(s, Crash), between[0])
    ensures var t := Run(Apply(s, Crash), between); Planned(t.log, None, t.Horizon(), 0) != []
  {
    hide Highest, Planned, Enabled, Apply;
  }

  lemma StartedState(t: State)
    requires Enabled(t, Start(None, 0)) && Planned(t.log, None, t.Horizon(), 0) != []
    ensures Apply(t, Start(None, 0)) == t.(phase := Ready(Planned(t.log, None, t.Horizon(), 0)))
  {
    hide Highest, Planned, FloorSecond;
  }

  lemma EarlierThanTheHour(s: State)
    requires Renamed(s) && s.phase.todo != [] && s.phase.todo[0].end % HOUR != 0
    ensures s.phase.todo[0].end < FloorHour(s.phase.todo[0].start) + HOUR
  {
    hide Highest, FilesSound, FilesDisjoint, FilesPlaced, HandSound;
    HourParts(s.phase.todo[0].start);
  }

  /**
   From any state in which a window that ends off the hour has been renamed and not recorded, and a
   row of its file is still hot, a healthy run in which the exporter crashes there puts the row in
   the lake twice.
   */
  lemma CrashOffTheHourDuplicates(s: State, r: Row) returns (steps: seq<Step>)
    requires Renamed(s) && s.Watermark().Some? && s.phase.todo != [] && s.phase.todo[0].end % HOUR != 0
    requires KeyOf(s.phase.todo[0]) in s.lake && r in s.lake[KeyOf(s.phase.todo[0])] && r in s.hot
    ensures Follows(s, steps, Healthy) && Copies(Run(s, steps).lake, r) >= 2
  {
    hide Tidy, Enabled, Apply, Follows, Run, Copies, Highest, Healthy;
    var w := s.phase.todo[0];
    steps := RestartPastTheFile(s);
    var t := Run(s, steps);
    var v := t.phase.todo[0];
    FileHoldsItsWindow(s, r);
    var rows := RowsOf(Within(t.hot, v));
    assert r in Within(t.hot, v);
    assert r in multiset(rows);
    steps := ExportRows(s, steps, rows);
    FloorSecondBounds(v.end);
    FloorSecondBounds(w.end);
    TwoFilesTwoCopies(Run(s, steps).lake, KeyOf(w), KeyOf(v), r);
  }

  lemma FileHoldsItsWindow(s: State, r: Row)
    requires Renamed(s) && s.Watermark().Some? && s.phase.todo != []
    requires KeyOf(s.phase.todo[0]) in s.lake && r in s.lake[KeyOf(s.phase.todo[0])]
    ensures var w := s.phase.todo[0]; w.start <= r.ts < w.end && WholeSecond(w.end)
  {
    hide Highest, FloorHour, FilesDisjoint, FilesPlaced, HandSound;
    var w := s.phase.todo[0];
    FloorSecondBounds(w.start);
    FloorSecondBounds(w.end);
    assert r in multiset(s.lake[KeyOf(w)]);
  }

  lemma ClippedCrash(b: Row) returns (steps: seq<Step>)
    requires b == RowAt(HOUR + 10 * MINUTE)
    ensures Follows(Init(LAG, 0), steps, Healthy)
    ensures var a := RowAt(0);
            Run(Init(LAG, 0), steps) == State(
              LAG, HOUR + 45 * MINUTE, multiset{a, b}, [HOUR],
              map[FileKey(0, HOUR) := [a], FileKey(HOUR, HOUR + 30 * MINUTE) := [b]], Idle,
              multiset{a, b}, multiset{a, b}, multiset{})
  {
    hide Follows, Run, Enabled, Apply, Healthy, Within;
    var a := RowAt(0);
    var s0 := Init(LAG, 0);
    steps := TwoRowsReady(a, b);
    TheirOwnWindows(a, b);
    steps := ExportRows(s0, steps, [a]);
    AdvanceAction(Run(s0, steps));
    HealthyUnless(Run(s0, steps), Advance);
    Then(s0, steps, Advance, Healthy);
    steps := steps + [Advance];
    steps := ExportRows(s0, steps, [b]);
    CrashAction(Run(s0, steps));
    HealthyUnless(Run(s0, steps), Crash);
    Then(s0, steps, Crash, Healthy);
    steps := steps + [Crash];
    TickAction(Run(s0, steps), HOUR + 45 * MINUTE);
    HealthyUnless(Run(s0, steps), Tick(HOUR + 45 * MINUTE));
    Then(s0, steps, Tick(HOUR + 45 * MINUTE), Healthy);
    steps := steps + [Tick(HOUR + 45 * MINUTE)];
  }

  lemma TheirOwnWindows(a: Row, b: Row)
    requires a == RowAt(0) && b == RowAt(HOUR + 10 * MINUTE)
    ensures Within(multiset{a, b}, Window(0, HOUR)) == multiset([a])
    ensures Within(multiset{a, b}, Window(HOUR, HOUR + 30 * MINUTE)) == multiset([b])
  {
  }

  lemma CrashAction(s: State)
    requires !s.phase.Idle?
    ensures Enabled(s, Crash) && Apply(s, Crash) == s.(phase := Idle)
  {
    hide Highest;
  }

  // ---- A crash in the very first window

  /** The first window is exported and renamed; nothing is recorded yet. */
  lemma FirstRename(a: Row) returns (steps: seq<Step>)
    requires a == RowAt(10 * MINUTE)
    ensures Follows(Init(LAG, 0), steps, Healthy)
    ensures Run(Init(LAG, 0), steps) == State(
              LAG, HOUR + LAG, multiset{a}, [], map[FileKey(10 * MINUTE, HOUR) := [a]],
              Settled([Window(10 * MINUTE, HOUR)], true), multiset{a}, multiset{a}, multiset{})
  {
    hide LakeRows, Follows, Run, Attempt, Flatten, Plan, WindowEnd, Apply;
    var s0 := Init(LAG, 0);
    steps := OneRowHot(a, Healthy);
    var s2 := Run(s0, steps);
    assert Within(multiset{a}, Window(10 * MINUTE, HOUR)) == multiset([a]);
    var more := RunOneWindow(s2, Some(10 * MINUTE), Window(10 * MINUTE, HOUR), [a]);
    Join(s0, steps, more, Healthy);
    steps := steps + more;
  }

  /** Then the exporter crashes, and an older row arrives late. */
  lemma FirstCrash(a: Row, late: Row) returns (steps: seq<Step>)
    requires a == RowAt(10 * MINUTE) && late == RowAt(5 * MINUTE)
    ensures Follows(Init(LAG, 0), steps, Healthy)
    ensures Run(Init(LAG, 0), steps) == State(
              LAG, HOUR + LAG, multiset{a, late}, [],
              map[FileKey(10 * MINUTE, HOUR) := [a]], Idle,
              multiset{a, late}, multiset{a}, multiset{})
  {
    hide LakeRows, Follows, Run, Within, Flatten;
    var s0 := Init(LAG, 0);
    steps := FirstRename(a);
    Then(s0, steps, Crash, Healthy);
    steps := steps + [Crash];
    Then(s0, steps, Arrive(late), Healthy);
    steps := steps + [Arrive(late)];
  }

  /**
   In good health, a crash in the same place before any watermark exists also duplicates a row: a
   late arrival moves the oldest timestamp, and with it the file name, though the window ends on the hour.
   */
  lemma FirstCrashDuplicatesARow() returns (steps: seq<Step>, a: Row)
    ensures Follows(Init(LAG, 0), steps, Healthy)
    ensures var s := Run(Init(LAG, 0), steps); s.arrived[a] == 1 && Copies(s.lake, a) >= 2
  {
    hide Copies, Apply, Enabled, Follows, Run;
    a := RowAt(10 * MINUTE);
    var late := RowAt(5 * MINUTE);
    var s0 := Init(LAG, 0);
    steps := FirstCrash(a, late);
    var s3 := Run(s0, steps);
    LateRowIsOldest(s3, a, late);
    var more := RunOneWindow(s3, Some(5 * MINUTE), Window(5 * MINUTE, HOUR), [a, late]);
    Join(s0, steps, more, Healthy);
    steps := steps + more;
    TwoFilesTwoCopies(Run(s0, steps).lake, FileKey(10 * MINUTE, HOUR), FileKey(5 * MINUTE, HOUR), a);
  }

  /** After the crash the late row is the oldest, and both rows are in the window that starts there. */
  lemma LateRowIsOldest(s: State, a: Row, late: Row)
    requires a == RowAt(10 * MINUTE) && late == RowAt(5 * MINUTE)
    requires s.hot == multiset{a, late} && s.log == [] && s.phase.Idle? && s.lag == LAG && s.now == HOUR + LAG
    ensures Enabled(s, Start(Some(5 * MINUTE), 0)) && StartOf(s.log, Some(5 * MINUTE)) == Some(5 * MINUTE)
    ensures s.Horizon() == HOUR && FloorHour(5 * MINUTE) == 0
    ensures multiset([a, late]) == Within(s.hot, Window(5 * MINUTE, HOUR))
  {
    assert late in s.hot;
  }

  // ---- The TTL at work in the window being exported

  lemma PlanFirstWindow(horizon: Instant)
    requires horizon > HOUR
    ensures Limited(Plan(0, horizon, DEFAULT_WINDOW), 1) == [Window(0, HOUR)]
  {
    HourlyEnd(0, horizon);
  }

  lemma SameFingerprint(a: Row, b: Row, c: Row)
    requires a == RowAt(0) && b == RowAt(SECOND) && c == RowAt(2 * SECOND)
    ensures FingerprintOf([a, c]) == FingerprintOf([a, b])
    ensures Flatten([[a, c]]) == [a, c]
  {
    SameTotals(a, b);
    SameTotals(a, c);
    assert (set r | r in [a, c] :: r.tenantId) == {a.tenantId} == (set r | r in [a, b] :: r.tenantId);
    assert (set r | r in [a, c] :: r.traceId) == {a.traceId} == (set r | r in [a, b] :: r.traceId);
    assert Flatten([[a, c]][1..]) == [];
  }

  lemma SameTotals(a: Row, b: Row)
    ensures TotalsOf([a, b]) == AddRow(a, AddRow(b, Totals(0, 0, 0.0)))
  {
    assert TotalsOf([b][1..]) == Totals(0, 0, 0.0);
    assert TotalsOf([b]) == AddRow(b, Totals(0, 0, 0.0));
    assert [a, b][1..] == [b];
  }

  /** Two days after rows a and b arrived: what is hot, how far the exporter is, and what has arrived. */
  function TwoDaysLater(hot: multiset<Row>, phase: Phase, arrived: multiset<Row>): State {
    State(LAG, TTL + HOUR, hot, [], map[], phase, arrived, multiset{RowAt(0), RowAt(SECOND)}, multiset{})
  }

  lemma TwoOldRows(a: Row, b: Row) returns (steps: seq<Step>)
    requires a == RowAt(0) && b == RowAt(SECOND)
    ensures Follows(Init(LAG, 0), steps, StreamDelivers)
    ensures Run(Init(LAG, 0), steps) == TwoDaysLater(multiset{a, b}, Idle, multiset{a, b})
  {
    hide Follows, Run, Within, Flatten, Highest;
    var p := StreamDelivers;
    var s0 := Init(LAG, 0);
    steps := [Arrive(a)];
    OneStep(s0, Arrive(a), p);
    Then(s0, steps, Arrive(b), p);
    steps := steps + [Arrive(b)];
    Then(s0, steps, Tick(TTL + HOUR), p);
    steps := steps + [Tick(TTL + HOUR)];
  }

  /** The first window is planned and counted, and then a late row of that window arrives. */
  lemma TwoOldRowsCounted(a: Row, b: Row, c: Row) returns (steps: seq<Step>)
    requires a == RowAt(0) && b == RowAt(SECOND) && c == RowAt(2 * SECOND)
    ensures Follows(Init(LAG, 0), steps, StreamDelivers)
    ensures Run(Init(LAG, 0), steps)
            == TwoDaysLater(multiset{a, b, c}, Counted([Window(0, HOUR)], 2), multiset{a, b, c})
  {
    hide Follows, Run, Within, Flatten, WindowEnd, Plan, Limited;
    var p := StreamDelivers;
    var s0 := Init(LAG, 0);
    steps := TwoOldRows(a, b);
    PlanFirstWindow(TTL + HOUR - LAG);
    Then(s0, steps, Start(Some(0), 1), p);
    steps := steps + [Start(Some(0), 1)];
    assert Run(s0, steps) == TwoDaysLater(multiset{a, b}, Ready([Window(0, HOUR)]), multiset{a, b});
    assert Within(multiset{a, b}, Window(0, HOUR)) == multiset{a, b};
    Then(s0, steps, Count, p);
    steps := steps + [Count];
    Then(s0, steps, Arrive(c), p);
    steps := steps + [Arrive(c)];
  }

  /** The late row is streamed in place of b, and expires before the fingerprint is taken. */
  lemma WrongRowStreamed(a: Row, b: Row, c: Row) returns (steps: seq<Step>)
    requires a == RowAt(0) && b == RowAt(SECOND) && c == RowAt(2 * SECOND)
    ensures Follows(Init(LAG, 0), steps, StreamDelivers)
    ensures Run(Init(LAG, 0), steps)
            == TwoDaysLater(multiset{a, b}, Streamed([Window(0, HOUR)], 2, [[a, c]]), multiset{a, b, c}).(
              lost := multiset{c})
  {
    hide Follows, Run, Enabled, Apply;
    var p := StreamDelivers;
    var s0 := Init(LAG, 0);
    steps := TwoOldRowsCounted(a, b, c);
    StreamWrongRow(a, b, c);
    Then(s0, steps, Stream([[a, c]]), p);
    steps := steps + [Stream([[a, c]])];
    ExpireLateRow(a, b, c);
    Then(s0, steps, Expire(c), p);
    steps := steps + [Expire(c)];
  }

  lemma StreamWrongRow(a: Row, b: Row, c: Row)
    requires a == RowAt(0) && b == RowAt(SECOND) && c == RowAt(2 * SECOND)
    ensures var s := TwoDaysLater(multiset{a, b, c}, Counted([Window(0, HOUR)], 2), multiset{a, b, c});
            && Enabled(s, Stream([[a, c]])) && StreamDelivers(s, Stream([[a, c]]))
            && Apply(s, Stream([[a, c]])) == s.(phase := Streamed([Window(0, HOUR)], 2, [[a, c]]))
  {
    hide Within, Flatten, FingerprintOf, Highest;
    assert Within(multiset{a, b, c}, Window(0, HOUR)) == multiset{a, b, c};
    SameFingerprint(a, b, c);
  }

  lemma ExpireLateRow(a: Row, b: Row, c: Row)
    requires a == RowAt(0) && b == RowAt(SECOND) && c == RowAt(2 * SECOND)
    ensures var s := TwoDaysLater(multiset{a, b, c}, Streamed([Window(0, HOUR)], 2, [[a, c]]), multiset{a, b, c});
            && Enabled(s, Expire(c)) && StreamDelivers(s, Expire(c))
            && Apply(s, Expire(c)) == s.(hot := multiset{a, b}, lost := multiset{c})
  {
    hide Within, Flatten;
    assert multiset{a, b, c} - multiset{c} == multiset{a, b};
  }

  lemma VerifyWrongRow(s: State, a: Row, b: Row, c: Row)
    requires a == RowAt(0) && b == RowAt(SECOND) && c == RowAt(2 * SECOND)
    requires s.hot == multiset{a, b} && s.phase == Streamed([Window(0, HOUR)], 2, [[a, c]])
    ensures Enabled(s, Verify([a, c], [a, b])) && StreamDelivers(s, Verify([a, c], [a, b]))
    ensures Apply(s, Verify([a, c], [a, b])) == s.(phase := Verified([Window(0, HOUR)], [a, c]))
  {
    hide Within, Flatten, FingerprintOf, Highest;
    SameFingerprint(a, b, c);
    assert Within(multiset{a, b}, Window(0, HOUR)) == multiset([a, b]);
  }

  /**
   The TTL may not take a streamed row before the fingerprint: a late row that is streamed in place
   of b and then expires leaves every count and total in agreement, and b, which the
   TTL has not touched, is below the watermark and in no file.
   */
  lemma ExpiryDuringExportLosesARow() returns (steps: seq<Step>, b: Row)
    ensures Follows(Init(LAG, 0), steps, StreamDelivers)
    ensures var s := Run(Init(LAG, 0), steps);
            && !s.AtOrAbove(b.ts) && s.punctual[b] == 1
            && Copies(CommittedFiles(s), b) + s.lost[b] == 0
  {
    hide Copies, Run, Follows, Enabled, Apply;
    var a, c := RowAt(0), RowAt(2 * SECOND);
    b := RowAt(SECOND);
    var p := StreamDelivers;
    var s0 := Init(LAG, 0);
    steps := WrongRowStreamed(a, b, c);
    var s := Run(s0, steps);
    VerifyWrongRow(s, a, b, c);
    Then(s0, steps, Verify([a, c], [a, b]), p);
    steps := steps + [Verify([a, c], [a, b])];
    RenameAction(Run(s0, steps));
    Then(s0, steps, Rename, p);
    steps := steps + [Rename];
    AdvanceAction(Run(s0, steps));
    Then(s0, steps, Advance, p);
    steps := steps + [Advance];
    OneMark();
    assert Run(s0, steps) == s.(lake := map[FileKey(0, HOUR) := [a, c]], log := [HOUR], phase := Idle);
    OneFileOnly(CommittedFiles(Run(s0, steps)), FileKey(0, HOUR), b);
  }

  lemma OneFileOnly(lake: map<FileKey, seq<Row>>, k: FileKey, r: Row)
    requires lake.Keys == {k} && r !in lake[k]
    ensures Copies(lake, r) == 0
  {
    CopiesSplit(lake, r, k);
    assert lake - {k} == map[];
    NoFilesNoCopies(lake - {k}, r);
  }

  // ---- A report that warns too late

  /** Streams deliver, and the TTL removes rows only while the report for that setting is clean. */
  ghost predicate HealthyStepAt(s: State, step: Step, ttlHours: int) {
    StreamDelivers(s, step) && (step.Expire? ==> !HealthOf(s, ttlHours).AtRisk())
  }

  ghost function HealthyAt(ttlHours: int): (State, Step) -> bool {
    (s: State, step: Step) => HealthyStepAt(s, step, ttlHours)
  }

  lemma HealthyAtUnless(ttlHours: int, s: State, step: Step)
    requires !step.Expire? && (step.Stream? ==> Flatten(step.delivered) != [])
    ensures HealthyAt(ttlHours)(s, step)
  {
  }

  /** Rows a and b arrive at 0 and at HOUR, and the first hour is over. */
  lemma TwoHoursBegun(a: Row, b: Row, ttlHours: int) returns (steps: seq<Step>)
    requires a == RowAt(0) && b == RowAt(HOUR)
    ensures Follows(Init(LAG, 0), steps, HealthyAt(ttlHours))
    ensures Run(Init(LAG, 0), steps) == State(
              LAG, HOUR + LAG, multiset{a, b}, [], map[], Ready([Window(0, HOUR)]),
              multiset{a, b}, multiset{a, b}, multiset{})
  {
    hide Follows, Run, Within, WindowEnd, Plan, HealthyAt;
    var p, s0 := HealthyAt(ttlHours), Init(LAG, 0);
    steps := [Arrive(a)];
    HealthyAtUnless(ttlHours, s0, Arrive(a));
    OneStep(s0, Arrive(a), p);
    HealthyAtUnless(ttlHours, Run(s0, steps), Tick(HOUR));
    Then(s0, steps, Tick(HOUR), p);
    steps := steps + [Tick(HOUR)];
    HealthyAtUnless(ttlHours, Run(s0, steps), Arrive(b));
    Then(s0, steps, Arrive(b), p);
    steps := steps + [Arrive(b)];
    HealthyAtUnless(ttlHours, Run(s0, steps), Tick(HOUR + LAG));
    Then(s0, steps, Tick(HOUR + LAG), p);
    steps := steps + [Tick(HOUR + LAG)];
    var s4 := Run(s0, steps);
    PlanOneWindow(0, HOUR);
    assert a in s4.hot;
    HealthyAtUnless(ttlHours, s4, Start(Some(0), 0));
    Then(s0, steps, Start(Some(0), 0), p);
    steps := steps + [Start(Some(0), 0)];
  }

  /** The first hour is exported, and its watermark written. */
  lemma FirstHourFiled(a: Row, b: Row, ttlHours: int) returns (steps: seq<Step>)
    requires a == RowAt(0) && b == RowAt(HOUR)
    ensures Follows(Init(LAG, 0), steps, HealthyAt(ttlHours))
    ensures Run(Init(LAG, 0), steps) == State(
              LAG, HOUR + TTL, multiset{a, b}, [HOUR], map[FileKey(0, HOUR) := [a]], Idle,
              multiset{a, b}, multiset{a, b}, multiset{})
  {
    hide Follows, Run, Within, Enabled, Apply, HealthyAt, Sees, Attempt;
    var p, s0, w := HealthyAt(ttlHours), Init(LAG, 0), Window(0, HOUR);
    steps := TwoHoursBegun(a, b, ttlHours);
    var s := Run(s0, steps);
    assert Within(multiset{a, b}, w) == multiset([a]);
    FaithfulCommits(s.hot, w, [a]);
    forall t, step | AttemptAction(step, Faithful([a]))
      ensures p(t, step)
    {
      HealthyAtUnless(ttlHours, t, step);
    }
    var more := AttemptIsProtocol(s, Faithful([a]), p);
    Join(s0, steps, more, p);
    steps := steps + more;
    AdvanceAction(Run(s0, steps));
    HealthyAtUnless(ttlHours, Run(s0, steps), Advance);
    Then(s0, steps, Advance, p);
    steps := steps + [Advance];
    HealthyAtUnless(ttlHours, Run(s0, steps), Tick(HOUR + TTL));
    TickAction(Run(s0, steps), HOUR + TTL);
    Then(s0, steps, Tick(HOUR + TTL), p);
    steps := steps + [Tick(HOUR + TTL)];
  }

  lemma TickAction(s: State, to: Instant)
    requires s.now <= to
    ensures Enabled(s, Tick(to)) && Apply(s, Tick(to)) == s.(now := to)
  {
    hide Highest;
  }

  /**
   With a TTL setting of 64 hours or more the report is still clean when the schema's TTL takes the
   second row, exactly two days after the only export: the row is neither in the table nor in a file.
   */
  lemma LateWarningLosesARow(ttlHours: int) returns (steps: seq<Step>, b: Row)
    requires !WarnsInTime(ttlHours)
    ensures Follows(Init(LAG, 0), steps, HealthyAt(ttlHours))
    ensures var s := Run(Init(LAG, 0), steps); s.punctual[b] == 1 && s.hot[b] == 0 && Copies(s.lake, b) == 0
  {
    hide Follows, Run, Copies, Enabled, Apply;
    var a, p, s0 := RowAt(0), HealthyAt(ttlHours), Init(LAG, 0);
    b := RowAt(HOUR);
    steps := FirstHourFiled(a, b, ttlHours);
    var s := Run(s0, steps);
    OneMark();
    CleanAfterTwoDays(s, ttlHours);
    ExpireAction(s, b);
    Then(s0, steps, Expire(b), p);
    steps := steps + [Expire(b)];
    OneFileOnly(s.lake, FileKey(0, HOUR), b);
  }

  lemma CleanAfterTwoDays(s: State, ttlHours: int)
    requires !WarnsInTime(ttlHours) && s.log == [HOUR] && s.now == HOUR + TTL
    requires s.lake.Keys == {FileKey(0, HOUR)} && |s.lake[FileKey(0, HOUR)]| == 1
    ensures !HealthOf(s, ttlHours).AtRisk()
  {
    OneMark();
    assert s.lake - {FileKey(0, HOUR)} == map[];
    assert LakeRows(s.lake) == 1;
    assert HealthOf(s, ttlHours).HoursBehind() == 48.0;
  }

  lemma ExpireAction(s: State, r: Row)
    requires r in s.hot && FloorSecond(r.ts) + TTL <= s.now
    ensures Enabled(s, Expire(r)) && Apply(s, Expire(r)).hot == s.hot - multiset{r}
    ensures var t := Apply(s, Expire(r)); t.lake == s.lake && t.punctual == s.punctual
  {
    hide Highest;
  }

  /**
   For which setting the report can be relied on: in every run in which the TTL removes rows only
   while the report is clean, and streams deliver, nothing is lost, if and only if the report warns
   in time.
   */
  lemma CleanReportsSufficeExactly(ttlHours: int)
    ensures (forall lag, begin, steps, r: Row :: Follows(Init(lag, begin), steps, HealthyAt(ttlHours)) ==>
               var s := Run(Init(lag, begin), steps);
               s.hot[r] + Copies(CommittedFiles(s), r) >= s.punctual[r])
            <==> WarnsInTime(ttlHours)
  {
    hide Follows, Run, Copies, CommittedFiles;
    if WarnsInTime(ttlHours) {
      forall lag, begin, steps, r: Row | Follows(Init(lag, begin), steps, HealthyAt(ttlHours))
        ensures var s := Run(Init(lag, begin), steps);
                s.hot[r] + Copies(CommittedFiles(s), r) >= s.punctual[r]
      {
        HealthyInTime(Init(lag, begin), steps, ttlHours);
        NothingIsLost(lag, begin, steps, r);
      }
    } else {
      var steps, b := LateWarningLosesARow(ttlHours);
      var s := Run(Init(LAG, 0), steps);
      CommittedAreFewer(s, b);
    }
  }

  lemma {:induction false} HealthyInTime(s: State, steps: seq<Step>, ttlHours: int)
    requires Follows(s, steps, HealthyAt(ttlHours)) && WarnsInTime(ttlHours)
    ensures Follows(s, steps, Healthy)
    decreases steps
  {
    hide Enabled, Apply, StreamDelivers;
    if steps != [] {
      HealthyInTime(Apply(s, steps[0]), steps[1..], ttlHours);
    }
  }

  lemma CommittedAreFewer(s: State, r: Row)
    ensures Copies(CommittedFiles(s), r) <= Copies(s.lake, r)
  {
    FewerFilesFewerCopies(CommittedFiles(s), s.lake, r);
  }
}
