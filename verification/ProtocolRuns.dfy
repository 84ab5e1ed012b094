/** Runs of the protocol: how they are put together, and that the exporter's own run is one of them. */
module ProtocolRuns {
  import opened ExportCore
  import opened Exporter
  import opened NoDuplicates
  import opened Planner
  import opened Protocol
  import opened Timeline
  import opened Wrappers

  lemma {:induction false} Join(s: State, a: seq<Step>, b: seq<Step>, p: (State, Step) -> bool)
    requires Follows(s, a, p) && Follows(Run(s, a), b, p)
    ensures Follows(s, a + b, p) && Run(s, a + b) == Run(Run(s, a), b)
    decreases a
  {
    hide Enabled, Apply;
    if a == [] {
      assert a + b == b;
    } else {
      assert (a + b)[1..] == a[1..] + b;
      Join(Apply(s, a[0]), a[1..], b, p);
    }
  }

  lemma OneStep(s: State, step: Step, p: (State, Step) -> bool)
    requires Enabled(s, step) && p(s, step)
    ensures Follows(s, [step], p) && Run(s, [step]) == Apply(s, step)
  {
    hide Enabled, Apply;
    var t := Apply(s, step);
    assert [step][1..] == [];
    assert Follows(t, [], p) && Run(t, []) == t;
  }

  lemma Then(s: State, steps: seq<Step>, step: Step, p: (State, Step) -> bool)
    requires Follows(s, steps, p)
    requires Enabled(Run(s, steps), step) && p(Run(s, steps), step)
    ensures Follows(s, steps + [step], p) && Run(s, steps + [step]) == Apply(Run(s, steps), step)
  {
    hide Enabled, Apply;
    OneStep(Run(s, steps), step, p);
    Join(s, steps, [step], p);
  }

  lemma {:induction false} Prefix(s: State, steps: seq<Step>, n: nat, p: (State, Step) -> bool)
    requires Follows(s, steps, p) && n <= |steps|
    ensures Follows(s, steps[..n], p)
    decreases n
  {
    hide Enabled, Apply;
    if n > 0 {
      assert steps[..n][1..] == steps[1..][..n - 1];
      Prefix(Apply(s, steps[0]), steps[1..], n - 1, p);
    }
  }

  /**
   A run may be cut off anywhere: after any of its steps at which the exporter is at work, a crash may
   follow, and it changes nothing but what the exporter had in hand.
   */
  lemma CrashAnywhere(s: State, steps: seq<Step>, n: nat)
    requires Follows(s, steps, Anything) && n <= |steps| && !Run(s, steps[..n]).phase.Idle?
    ensures Follows(s, steps[..n] + [Crash], Anything)
    ensures Run(s, steps[..n] + [Crash]) == Run(s, steps[..n]).(phase := Idle)
  {
    hide Follows, Run;
    Prefix(s, steps, n, Anything);
    Then(s, steps[..n], Crash, Anything);
  }

  function ArriveAll(rows: seq<Row>): seq<Step> {
    if rows == [] then [] else [Arrive(rows[0])] + ArriveAll(rows[1..])
  }

  /**
   The environment is free: in any state any rows may arrive, whatever their timestamps, the clock may
   then move on to any later moment, and the TTL may remove any row of the table that is old enough.
   */
  lemma EnvironmentIsFree(s: State, rows: seq<Row>, to: Instant, r: Row)
    requires s.now <= to && r in s.hot + multiset(rows) && FloorSecond(r.ts) + 48 * HOUR <= to
    ensures var steps := ArriveAll(rows) + [Tick(to)] + [Expire(r)];
            && Follows(s, steps, Anything)
            && Run(s, steps).hot == s.hot + multiset(rows) - multiset{r}
            && Run(s, steps).now == to && Run(s, steps).phase == s.phase
  {
    hide Follows, Run, FloorSecond;
    RowsArrive(s, rows);
    var steps := ArriveAll(rows);
    Then(s, steps, Tick(to), Anything);
    Then(s, steps + [Tick(to)], Expire(r), Anything);
  }

  lemma {:induction false} RowsArrive(s: State, rows: seq<Row>)
    ensures Follows(s, ArriveAll(rows), Anything)
    ensures var t := Run(s, ArriveAll(rows));
            t.hot == s.hot + multiset(rows) && t.now == s.now && t.phase == s.phase
    decreases rows
  {
    hide Follows, Run, Highest;
    if rows == [] {
      NoStep(s);
    } else {
      var t := Apply(s, Arrive(rows[0]));
      OneStep(s, Arrive(rows[0]), Anything);
      RowsArrive(t, rows[1..]);
      Join(s, [Arrive(rows[0])], ArriveAll(rows[1..]), Anything);
      assert rows == [rows[0]] + rows[1..];
    }
  }

  lemma NoStep(s: State)
    ensures Follows(s, [], Anything) && Run(s, []) == s
  {
  }

  // ---- What the history variables say

  /** How often a row arrives in a run, and how often no later than the lag margin after its timestamp. */
  ghost function Arrivals(s: State, steps: seq<Step>, r: Row): nat
    decreases steps
  {
    if steps == [] || !Enabled(s, steps[0]) then 0
    else (if steps[0] == Arrive(r) then 1 else 0) + Arrivals(Apply(s, steps[0]), steps[1..], r)
  }

  ghost function TimelyArrivals(s: State, steps: seq<Step>, r: Row): nat
    decreases steps
  {
    if steps == [] || !Enabled(s, steps[0]) then 0
    else
      (if steps[0] == Arrive(r) && s.now <= r.ts + s.lag then 1 else 0)
      + TimelyArrivals(Apply(s, steps[0]), steps[1..], r)
  }

  /** How often the TTL removes it while no watermark lies above it. */
  ghost function EarlyRemovals(s: State, steps: seq<Step>, r: Row): nat
    decreases steps
  {
    if steps == [] || !Enabled(s, steps[0]) then 0
    else
      (if steps[0] == Expire(r) && (s.log == [] || r.ts >= Highest(s.log).value) then 1 else 0)
      + EarlyRemovals(Apply(s, steps[0]), steps[1..], r)
  }

  lemma HistoryStep(s: State, step: Step, r: Row)
    requires Enabled(s, step)
    ensures var t := Apply(s, step);
            && t.lag == s.lag
            && t.arrived[r] == s.arrived[r] + (if step == Arrive(r) then 1 else 0)
            && t.punctual[r] == s.punctual[r] + (if step == Arrive(r) && s.now <= r.ts + s.lag then 1 else 0)
            && t.lost[r] == s.lost[r]
                            + (if step == Expire(r) && (s.log == [] || r.ts >= Highest(s.log).value) then 1 else 0)
  {
    hide Highest;
    HighestIsTheMaximum(s.log);
  }

  /**
   What the theorems count. In every run from the start the arrivals of a row, those in time and the
   removals above the watermark are as many as the run has steps of that kind.
   */
  lemma {:induction false} HistoryCounts(s: State, steps: seq<Step>, r: Row)
    requires Follows(s, steps, Anything)
    ensures var t := Run(s, steps);
            && t.arrived[r] == s.arrived[r] + Arrivals(s, steps, r)
            && t.punctual[r] == s.punctual[r] + TimelyArrivals(s, steps, r)
            && t.lost[r] == s.lost[r] + EarlyRemovals(s, steps, r)
    decreases steps
  {
    hide Enabled, Apply, Highest;
    if steps != [] {
      HistoryStep(s, steps[0], r);
      HistoryCounts(Apply(s, steps[0]), steps[1..], r);
    }
  }

  // ---- The exporter's run is a run of the protocol

  /** An attempt sees the table as it is, through a stream and a disk that may lose rows. */
  ghost predicate Sees(hot: multiset<Row>, w: Window, o: Observation) {
    o.counted == |Within(hot, w)| && Lossy(o, Within(hot, w), Within(hot, w))
  }

  /** The actions of one attempt that observes o. */
  predicate AttemptAction(step: Step, o: Observation) {
    || step == Count
    || step == Stream(o.batches)
    || step == Verify(o.readBack, o.scan)
    || step == Rename
  }

  /** Where an attempt that observes o leaves the protocol. */
  ghost function AfterAttempt(s: State, o: Observation): State
    requires s.phase.Ready? && s.phase.todo != []
  {
    if Attempt(o).Ok() then
      s.(lake := Committed(s.lake, s.phase.todo[0], o), phase := Settled(s.phase.todo, Attempt(o).Commits()))
    else
      s.(phase := Idle)
  }

  lemma CountAction(s: State, o: Observation)
    requires s.phase.Ready? && s.phase.todo != [] && Sees(s.hot, s.phase.todo[0], o)
    ensures Enabled(s, Count)
    ensures Apply(s, Count) == s.(
              phase := if o.counted == 0 then Settled(s.phase.todo, false) else Counted(s.phase.todo, o.counted))
  {
    hide Lossy, Within, Highest, FloorSecond;
  }

  lemma StreamAction(s: State, o: Observation)
    requires s.phase.Counted? && s.phase.todo != [] && Sees(s.hot, s.phase.todo[0], o)
    requires s.phase.counted == o.counted
    ensures Enabled(s, Stream(o.batches))
    ensures Apply(s, Stream(o.batches)) == s.(
              phase := if Flatten(o.batches) == [] then Settled(s.phase.todo, false)
                       else Streamed(s.phase.todo, o.counted, o.batches))
  {
    hide Within, Highest, FloorSecond, Flatten;
  }

  lemma VerifyAction(s: State, o: Observation)
    requires s.phase.Streamed? && s.phase.todo != []
    requires s.phase.counted == o.counted && s.phase.batches == o.batches
    requires Sees(s.hot, s.phase.todo[0], o)
    ensures Enabled(s, Verify(o.readBack, o.scan))
    ensures Apply(s, Verify(o.readBack, o.scan)) == s.(
              phase := if Attempt(o).Ok() then Verified(s.phase.todo, o.readBack) else Idle)
  {
    hide Within, Highest, FloorSecond, Flatten, FingerprintsAgree, FingerprintOf, Attempt;
  }

  lemma AttemptIsProtocol(s: State, o: Observation, p: (State, Step) -> bool) returns (steps: seq<Step>)
    requires s.phase.Ready? && s.phase.todo != [] && Sees(s.hot, s.phase.todo[0], o)
    requires forall t, step :: AttemptAction(step, o) ==> p(t, step)
    ensures Follows(s, steps, p) && Run(s, steps) == AfterAttempt(s, o)
  {
    hide FingerprintsAgree, FingerprintOf, KeyOf, Highest, FloorSecond, Enabled, Apply, Sees, Follows, Run;
    CountAction(s, o);
    steps := [Count];
    OneStep(s, Count, p);
    if o.counted > 0 {
      StreamAction(Run(s, steps), o);
      Then(s, steps, Stream(o.batches), p);
      steps := steps + [Stream(o.batches)];
      if Flatten(o.batches) != [] {
        VerifyAction(Run(s, steps), o);
        Then(s, steps, Verify(o.readBack, o.scan), p);
        steps := steps + [Verify(o.readBack, o.scan)];
        if Attempt(o).Ok() {
          RenameAction(Run(s, steps));
          Then(s, steps, Rename, p);
          steps := steps + [Rename];
        }
      }
    }
  }

  lemma RenameAction(s: State)
    requires s.phase.Verified? && s.phase.todo != []
    ensures Enabled(s, Rename)
    ensures Apply(s, Rename)
            == s.(lake := s.lake[KeyOf(s.phase.todo[0]) := s.phase.file], phase := Settled(s.phase.todo, true))
  {
    hide KeyOf, Highest, FloorSecond;
  }

  /** Any step. */
  predicate Anything(s: State, step: Step) {
    true
  }

  lemma CompletedStep(todo: seq<Window>, observe: Window -> Observation)
    requires todo != [] && Attempt(observe(todo[0])).Ok()
    ensures todo[..Completed(todo, observe)] == [todo[0]] + todo[1..][..Completed(todo[1..], observe)]
  {
    hide Attempt;
  }

  lemma OneDone(lake: map<FileKey, seq<Row>>, w: Window, observe: Window -> Observation)
    ensures CommittedAll(lake, [w], observe) == Committed(lake, w, observe(w))
    ensures Marks([w]) == [FloorSecond(w.end)]
  {
    hide Committed;
    assert [w][..0] == [];
    assert CommittedAll(lake, [], observe) == lake;
  }

  /** The completed prefix of a plan is its first window, if that is ok, and then the completed rest. */
  lemma DoneSplit(store: Store, todo: seq<Window>, observe: Window -> Observation)
    requires todo != [] && Attempt(observe(todo[0])).Ok()
    ensures var done, rest := todo[..Completed(todo, observe)], todo[1..][..Completed(todo[1..], observe)];
            && CommittedAll(store.lake, done, observe)
               == CommittedAll(Committed(store.lake, todo[0], observe(todo[0])), rest, observe)
            && store.log + Marks(done) == store.log + [FloorSecond(todo[0].end)] + Marks(rest)
  {
    hide Attempt, Committed, FloorSecond, Completed, CommittedAll, Marks;
    var rest := todo[1..][..Completed(todo[1..], observe)];
    CompletedStep(todo, observe);
    OneDone(store.lake, todo[0], observe);
    CommittedAllConcat(store.lake, [todo[0]], rest, observe);
    MarksConcat([todo[0]], rest);
  }

  lemma NothingDone(store: Store, todo: seq<Window>, observe: Window -> Observation)
    requires todo == [] || !Attempt(observe(todo[0])).Ok()
    ensures var done := todo[..Completed(todo, observe)];
            CommittedAll(store.lake, done, observe) == store.lake && store.log + Marks(done) == store.log
  {
    hide Attempt;
    assert todo[..0] == [];
    NothingExported(store.lake, observe);
  }

  /** What the exporter does once its run has started, other than crash. */
  predicate ExportAction(step: Step) {
    step.Count? || step.Stream? || step.Verify? || step.Rename? || step.Advance?
  }

  lemma {:induction false} TodoIsProtocol(s: State, observe: Window -> Observation, p: (State, Step) -> bool)
    returns (steps: seq<Step>)
    requires s.phase.Ready? && s.phase.todo != []
    requires forall t, step: Step :: ExportAction(step) ==> p(t, step)
    requires forall w :: w in s.phase.todo ==> Sees(s.hot, w, observe(w))
    ensures Follows(s, steps, p)
    ensures var done := s.phase.todo[..Completed(s.phase.todo, observe)];
            Run(s, steps) == s.(lake := CommittedAll(s.lake, done, observe), log := s.log + Marks(done), phase := Idle)
    decreases |s.phase.todo|
  {
    hide Enabled, Apply, Follows, Run, Attempt, Committed, CommittedAll, Marks, Completed, FloorSecond, Sees, Highest;
    var todo := s.phase.todo;
    var o := observe(todo[0]);
    steps := AttemptIsProtocol(s, o, p);
    if !Attempt(o).Ok() {
      NothingDone(Store(s.lake, s.log), todo, observe);
    } else {
      DoneSplit(Store(s.lake, s.log), todo, observe);
      AdvanceAction(Run(s, steps));
      Then(s, steps, Advance, p);
      steps := steps + [Advance];
      var t := Run(s, steps);
      if todo[1..] == [] {
        NothingDone(Store(t.lake, t.log), todo[1..], observe);
      } else {
        var more := TodoIsProtocol(t, observe, p);
        Join(s, steps, more, p);
        steps := steps + more;
      }
    }
  }

  lemma AdvanceAction(s: State)
    requires s.phase.Settled? && s.phase.todo != []
    ensures Enabled(s, Advance)
    ensures Apply(s, Advance)
            == s.(log := s.log + [FloorSecond(s.phase.todo[0].end)], phase := ReadyFor(s.phase.todo[1..]))
  {
    hide Highest, FloorSecond;
  }

  /**
   Refinement. What `run_export` does to the lake and to the watermark table while nothing else
   happens is a run of the protocol, from idle to idle.
   */
  lemma RunExportIsProtocol(
    s: State, oldest: Option<Instant>, maxWindows: int, observe: Window -> Observation) returns (steps: seq<Step>)
    requires s.phase.Idle? && (s.Watermark().None? ==> IsOldest(s.hot, oldest))
    requires forall w :: Sees(s.hot, w, observe(w))
    ensures Follows(s, steps, Anything)
    ensures var after := RunOf(Store(s.lake, s.log), oldest, s.Horizon(), maxWindows, observe);
            Run(s, steps) == s.(lake := after.lake, log := after.log)
  {
    hide Planned, Sees, Completed, CommittedAll, Marks, Highest;
    var todo := Planned(s.log, oldest, s.Horizon(), maxWindows);
    steps := [Start(oldest, maxWindows)];
    OneStep(s, steps[0], Anything);
    if todo == [] {
      NothingExported(s.lake, observe);
      assert todo[..Completed(todo, observe)] == [];
      assert s.log + Marks([]) == s.log;
    } else {
      var more := TodoIsProtocol(Run(s, steps), observe, Anything);
      Join(s, steps, more, Anything);
      steps := steps + more;
    }
  }

  // ---- Exactly which crash is harmless

  /** Arrivals, clock ticks, TTL deletions and merges of the watermark table. */
  predicate OnlyEnvironment(s: State, step: Step) {
    step.Tick? || step.Arrive? || step.Expire? || step.MergeLog?
  }

  lemma EnvironmentStep(s: State, step: Step)
    requires Enabled(s, step) && OnlyEnvironment(s, step)
    ensures var t := Apply(s, step);
            && t.phase == s.phase && t.lake == s.lake && t.lag == s.lag
            && t.Watermark() == s.Watermark() && t.Horizon() >= s.Horizon()
  {
    hide Highest;
    if step.Tick? {
      FloorSecondMonotone(s.now, step.to);
    }
    if step.MergeLog? {
      MergeKeepsWatermark(s.log, step.drop, step.keep);
    }
  }

  lemma {:induction false} EnvironmentRun(s: State, steps: seq<Step>)
    requires Follows(s, steps, OnlyEnvironment)
    ensures var t := Run(s, steps);
            && t.phase == s.phase && t.lake == s.lake && t.lag == s.lag
            && t.Watermark() == s.Watermark() && t.Horizon() >= s.Horizon()
    decreases steps
  {
    hide Enabled, Apply, Highest, FloorSecond;
    if steps != [] {
      EnvironmentStep(s, steps[0]);
      EnvironmentRun(Apply(s, steps[0]), steps[1..]);
    }
  }

  /** The exporter has renamed a window's file and not yet recorded it. */
  ghost predicate Renamed(s: State) {
    Tidy(s) && s.phase.Settled? && s.phase.renamed
  }

  /** The exporter crashes, the environment goes on, and a run starts. */
  ghost predicate Restarts(s: State, between: seq<Step>, oldest: Option<Instant>, maxWindows: int) {
    && Enabled(s, Crash) && Follows(Apply(s, Crash), between, OnlyEnvironment)
    && var t := Run(Apply(s, Crash), between);
       Enabled(t, Start(oldest, maxWindows)) && Planned(t.log, oldest, t.Horizon(), maxWindows) != []
  }

  /** The first window of the new run. */
  ghost function FirstWindow(s: State, between: seq<Step>, oldest: Option<Instant>, maxWindows: int): Window
    requires Restarts(s, between, oldest, maxWindows)
  {
    var t := Run(Apply(s, Crash), between);
    Apply(t, Start(oldest, maxWindows)).phase.todo[0]
  }

  lemma CrashedState(s: State, between: seq<Step>)
    requires Renamed(s) && Follows(Apply(s, Crash), between, OnlyEnvironment)
    ensures var t := Run(Apply(s, Crash), between);
            && t.phase.Idle? && t.lag == s.lag && t.lake == s.lake
            && t.Watermark() == s.Watermark() && t.Horizon() >= s.Horizon()
            && WholeSecond(t.lag) && WholeSecond(t.Horizon())
  {
    hide Highest, FloorSecond, FilesSound, FilesDisjoint, FilesPlaced, HandSound, PlanExact;
    EnvironmentRun(Apply(s, Crash), between);
    HorizonIsWhole(Run(Apply(s, Crash), between));
  }

  lemma RenamedWindow(s: State)
    requires Renamed(s)
    ensures s.phase.todo != []
    ensures var w := s.phase.todo[0];
            && w.start < w.end <= s.Horizon() && w.end <= FloorHour(w.start) + HOUR && WholeSecond(w.end)
            && (s.Watermark().Some? ==> w.start == s.Watermark().value && WholeSecond(w.start))
  {
    hide Highest, FloorHour, FilesSound, FilesDisjoint, FilesPlaced, HandSound;
  }

  /**
   After a crash between rename and watermark, whatever the environment does meanwhile, the next run
   begins with the file left behind if and only if its window ends on the hour or the horizon has
   not moved past it, and, while there is no watermark, the oldest row is in the second it was in.
   That is also exactly when the run finds no other file above the watermark.
   */
  lemma RestartBeginsAtTheFileExactly(s: State, between: seq<Step>, oldest: Option<Instant>, maxWindows: int)
    requires Renamed(s) && Restarts(s, between, oldest, maxWindows)
    ensures var w, t := s.phase.todo[0], Run(Apply(s, Crash), between);
            KeyOf(FirstWindow(s, between, oldest, maxWindows)) == KeyOf(w)
            <==> && (w.end % HOUR == 0 || t.Horizon() == w.end)
                 && (s.Watermark().None? ==> oldest.Some? && FloorSecond(oldest.value) == FloorSecond(w.start))
    ensures KeyOf(s.phase.todo[0]) in s.lake ==>
              (RestartsAtTheFile(Run(Apply(s, Crash), between), Start(oldest, maxWindows))
               <==> KeyOf(FirstWindow(s, between, oldest, maxWindows)) == KeyOf(s.phase.todo[0]))
  {
    hide Highest, Planned, FloorHour, FloorSecond, Tidy, Follows, Run, WholeSecond;
    RenamedWindow(s);
    var w, t := s.phase.todo[0], Run(Apply(s, Crash), between);
    CrashedState(s, between);
    PlannedIsSound(t.log, oldest, t.Horizon(), maxWindows);
    FloorSecondBounds(w.start);
    FloorSecondBounds(w.end);
    HourOfSecond(w.start);
    LeftoverIsPlannedAgain(t, oldest, maxWindows, KeyOf(w));
    assert Planned(t.log, oldest, t.Horizon(), maxWindows)[0] == FirstWindow(s, between, oldest, maxWindows);
    OtherFilesAreBelow(s);
  }

  /** Besides the file just renamed every file lies below the watermark, and that one does not. */
  lemma OtherFilesAreBelow(s: State)
    requires Renamed(s)
    ensures s.phase.todo != []
    ensures forall k :: k in s.lake ==> (BelowWatermark(s, k) <==> k != KeyOf(s.phase.todo[0]))
  {
    hide Highest, FloorHour, FilesDisjoint, HandSound;
    var w := s.phase.todo[0];
    FloorSecondBounds(w.start);
    FloorSecondBounds(w.end);
  }

  /** The new run, if it plans anything, begins with the file left behind. */
  ghost predicate BeginsAtTheFile(s: State, between: seq<Step>, oldest: Option<Instant>, maxWindows: int)
    requires !s.phase.Idle? && s.phase.todo != []
  {
    Restarts(s, between, oldest, maxWindows) ==>
      KeyOf(FirstWindow(s, between, oldest, maxWindows)) == KeyOf(s.phase.todo[0])
  }

  /** Once there is a watermark, every later run does if and only if the window ends on the hour. */
  lemma LeftBehindFileIsPlannedAgain(s: State)
    requires Renamed(s) && s.Watermark().Some?
    ensures s.phase.todo != []
    ensures (forall between, oldest, maxWindows :: BeginsAtTheFile(s, between, oldest, maxWindows))
            <==> s.phase.todo[0].end % HOUR == 0
  {
    hide Highest, Tidy, Restarts, FirstWindow, FloorHour, FloorSecond, Follows, Run;
    RenamedWindow(s);
    var w := s.phase.todo[0];
    forall between, oldest, maxWindows | Restarts(s, between, oldest, maxWindows)
      ensures KeyOf(FirstWindow(s, between, oldest, maxWindows)) == KeyOf(w)
              <==> w.end % HOUR == 0 || Run(Apply(s, Crash), between).Horizon() == w.end
    {
      RestartBeginsAtTheFileExactly(s, between, oldest, maxWindows);
    }
    ASecondLater(s);
    assert BeginsAtTheFile(s, [Tick(s.now + SECOND)], None, 0)
           <==> KeyOf(FirstWindow(s, [Tick(s.now + SECOND)], None, 0)) == KeyOf(w);
  }

  /** A second after the crash a run can start whose horizon has moved. */
  lemma ASecondLater(s: State)
    requires Renamed(s) && s.Watermark().Some?
    ensures s.phase.todo != [] && Enabled(s, Crash)
    ensures Restarts(s, [Tick(s.now + SECOND)], None, 0)
    ensures Run(Apply(s, Crash), [Tick(s.now + SECOND)]) == s.(phase := Idle, now := s.now + SECOND)
    ensures Run(Apply(s, Crash), [Tick(s.now + SECOND)]).Horizon() > s.phase.todo[0].end
  {
    hide Highest, FloorHour, Tidy, WindowEnd, Follows, Run;
    RenamedWindow(s);
    OneStep(Apply(s, Crash), Tick(s.now + SECOND), OnlyEnvironment);
    FloorSecondBounds(s.now);
    FloorSecondBounds(s.now + SECOND);
    PlanIsNotEmpty(s.Watermark().value, FloorSecond(s.now + SECOND) - s.lag);
  }

  lemma PlanIsNotEmpty(start: Instant, horizon: Instant)
    requires start < horizon
    ensures Plan(start, horizon, DEFAULT_WINDOW) != []
  {
    HourlyEnd(start, horizon);
    HourParts(start);
  }
}
