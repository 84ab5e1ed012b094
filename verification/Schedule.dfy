/** How often the exporter must run: the longest gap between complete runs in which the TTL loses nothing. */
module Schedule {
  import opened ExportCore
  import opened Exporter
  import opened NoLoss
  import opened Planner
  import opened Protocol
  import opened ProtocolRuns
  import opened Timeline
  import opened Witnesses
  import opened Wrappers

  /** When the run in progress started, if it plans all it can, and when the last such run started that got through. */
  datatype Runs = Runs(started: Option<Instant>, finished: Option<Instant>)

  const NO_RUNS := Runs(None, None)

  /** The window limit cuts nothing off this run. */
  predicate PlansAll(s: State, oldest: Option<Instant>, maxWindows: int) {
    Planned(s.log, oldest, s.Horizon(), maxWindows) == Planned(s.log, oldest, s.Horizon(), 0)
  }

  /** A run has got through with its last advance; one with nothing to do at once, if there is a watermark. */
  function Noted(n: Runs, s: State, step: Step): Runs {
    match step
    case Start(oldest, maxWindows) =>
      var all := PlansAll(s, oldest, maxWindows);
      if Planned(s.log, oldest, s.Horizon(), maxWindows) != [] then
        Runs(if all then Some(s.now) else None, n.finished)
      else
        Runs(None, if all && s.Watermark().Some? then Some(s.now) else n.finished)
    case Advance =>
      if s.phase.Settled? && |s.phase.todo| == 1 && n.started.Some? then Runs(None, n.started) else n
    case _ => n
  }

  /** When the TTL removes a row, a complete run has got through that started at most `gap` ago. */
  predicate Timely(s: State, n: Runs, step: Step, gap: Duration) {
    step.Expire? ==> n.finished.Some? && s.now - n.finished.value <= gap
  }

  ghost predicate Allowed(s: State, n: Runs, step: Step, gap: Duration) {
    Enabled(s, step) && StreamDelivers(s, step) && Timely(s, n, step, gap)
  }

  ghost predicate OnSchedule(s: State, n: Runs, steps: seq<Step>, gap: Duration)
    decreases steps
  {
    steps == [] || (
      && Allowed(s, n, steps[0], gap)
      && OnSchedule(Apply(s, steps[0]), Noted(n, s, steps[0]), steps[1..], gap))
  }

  ghost function NotedAll(n: Runs, s: State, steps: seq<Step>): Runs
    decreases steps
  {
    if steps == [] || !Enabled(s, steps[0]) then n
    else NotedAll(Noted(n, s, steps[0]), Apply(s, steps[0]), steps[1..])
  }

  /** The next whole second. */
  function UpToSecond(d: Duration): Duration {
    -FloorSecond(-d)
  }

  // ---- A complete run brings the watermark up to its horizon

  ghost predicate Kept(s: State, n: Runs) {
    && (n.finished.Some? ==>
          && n.finished.value <= s.now
          && s.Watermark().Some? && FloorSecond(FloorSecond(n.finished.value) - s.lag) <= s.Watermark().value)
    && (n.started.Some? && !s.phase.Idle? ==>
          && n.started.value <= s.now && s.phase.todo != []
          && s.phase.todo[|s.phase.todo| - 1].end == FloorSecond(n.started.value) - s.lag)
  }

  lemma StartKept(s: State, n: Runs, oldest: Option<Instant>, maxWindows: int)
    requires Kept(s, n) && Enabled(s, Start(oldest, maxWindows))
    ensures Kept(Apply(s, Start(oldest, maxWindows)), Noted(n, s, Start(oldest, maxWindows)))
  {
    hide Highest, FloorSecond;
    var ws := Planned(s.log, oldest, s.Horizon(), maxWindows);
    if PlansAll(s, oldest, maxWindows) {
      if ws == [] && s.Watermark().Some? {
        NothingPlanned(s.Watermark().value, s.Horizon());
        FloorSecondBounds(s.Horizon());
      } else if ws != [] {
        PlannedToHorizon(s.log, oldest, s.Horizon());
      }
    }
  }

  lemma NothingPlanned(start: Instant, horizon: Instant)
    requires Plan(start, horizon, DEFAULT_WINDOW) == []
    ensures start >= horizon
  {
    if start < horizon {
      PlanTiles(start, horizon, DEFAULT_WINDOW);
    }
  }

  lemma PlannedToHorizon(log: seq<Instant>, oldest: Option<Instant>, horizon: Instant)
    requires Planned(log, oldest, horizon, 0) != []
    ensures var ws := Planned(log, oldest, horizon, 0); ws[|ws| - 1].end == horizon
  {
    hide Highest, Plan;
    var start := StartOf(log, oldest).value;
    var ws := Plan(start, horizon, DEFAULT_WINDOW);
    PlannedRuns(start, horizon);
    PlanTiles(start, horizon, DEFAULT_WINDOW);
    TilesEnd(ws, start, horizon);
  }

  lemma {:induction false} TilesEnd(ws: seq<Window>, a: Instant, b: Instant)
    requires Tiles(ws, a, b) && ws != []
    ensures ws[|ws| - 1].end == b
    decreases |ws|
  {
    if |ws| > 1 {
      TilesEnd(ws[1..], ws[0].end, b);
    }
  }

  lemma AdvanceKept(s: State, n: Runs)
    requires Kept(s, n) && Enabled(s, Advance)
    ensures Kept(Apply(s, Advance), Noted(n, s, Advance))
  {
    hide Highest, FloorSecond;
    HighestOfAtLeast(s.log, FloorSecond(s.Current().end));
  }

  lemma HighestOfAtLeast(log: seq<Instant>, v: Instant)
    ensures var h := Highest(log + [v]);
            h.Some? && h.value >= v && (Highest(log).Some? ==> h.value >= Highest(log).value)
  {
    HighestOfConcat(log, [v]);
    assert [v][1..] == [];
  }

  lemma StepKept(s: State, n: Runs, step: Step)
    requires Kept(s, n) && Enabled(s, step)
    ensures Kept(Apply(s, step), Noted(n, s, step))
  {
    hide Highest, FloorSecond, Planned, Kept, Apply, Noted;
    match step
    case Start(oldest, maxWindows) => StartKept(s, n, oldest, maxWindows);
    case Advance => AdvanceKept(s, n);
    case _ => OtherStepKept(s, n, step);
  }

  lemma OtherStepKept(s: State, n: Runs, step: Step)
    requires Kept(s, n) && Enabled(s, step) && !step.Start? && !step.Advance?
    ensures Kept(Apply(s, step), Noted(n, s, step))
  {
    hide Highest, FloorSecond, Planned, Within, Attempt, Flatten;
    if step.MergeLog? {
      MergeKeepsWatermark(s.log, step.drop, step.keep);
    }
  }

  // ---- How far behind the watermark can be

  lemma ShiftSeconds(t: Instant, d: Duration)
    requires WholeSecond(t)
    ensures FloorSecond(t - d) == t - UpToSecond(d)
  {
    var c, q := t / SECOND, (-d) / SECOND;
    assert t == c * SECOND;
    assert -d == q * SECOND + (-d) % SECOND;
    assert t - d == (c + q) * SECOND + (-d) % SECOND;
    SecondParts(c + q, (-d) % SECOND);
  }

  lemma SecondParts(q: int, rest: int)
    requires 0 <= rest < SECOND
    ensures FloorSecond(q * SECOND + rest) == q * SECOND
  {
  }

  /** At most `gap` after the start of the last complete run the watermark is this far behind the clock. */
  lemma BehindAtMost(s: State, n: Runs, gap: Duration)
    requires Kept(s, n) && n.finished.Some? && s.now - n.finished.value <= gap
    ensures s.Watermark().Some?
    ensures FloorSecond(n.finished.value) - UpToSecond(s.lag) <= s.Watermark().value
    ensures FloorSecond(s.now) - s.Watermark().value <= UpToSecond(gap) + UpToSecond(s.lag)
  {
    hide Highest, FloorSecond, UpToSecond;
    var began := n.finished.value;
    FloorSecondBounds(began);
    ShiftSeconds(FloorSecond(began), s.lag);
    ReachesNoFurther(began, s.now, gap);
  }

  lemma ReachesNoFurther(began: Instant, now: Instant, gap: Duration)
    requires now - began <= gap
    ensures FloorSecond(now) - FloorSecond(began) <= UpToSecond(gap)
  {
    hide FloorSecond, WholeSecond;
    var whole := UpToSecond(gap);
    FloorSecondBounds(-gap);
    WholeNegates(FloorSecond(-gap));
    FloorSecondMonotone(now, began + whole);
    FloorAddsWhole(began, whole);
  }

  lemma WholeNegates(t: int)
    requires WholeSecond(t)
    ensures WholeSecond(-t)
  {
    assert -t == (-(t / SECOND)) * SECOND;
  }

  lemma FloorAddsWhole(t: Instant, d: Duration)
    requires WholeSecond(d)
    ensures FloorSecond(t + d) == FloorSecond(t) + d
  {
    var q, k := t / SECOND, d / SECOND;
    assert t == q * SECOND + t % SECOND;
    assert d == k * SECOND;
    assert t + d == (q + k) * SECOND + t % SECOND;
    SecondParts(q + k, t % SECOND);
  }

  /** On a schedule that is tight enough a row old enough for the TTL is below the watermark. */
  lemma TimelyExpiryIsBelow(s: State, n: Runs, gap: Duration, row: Row)
    requires Kept(s, n) && Enabled(s, Expire(row)) && Timely(s, n, Expire(row), gap)
    requires gap < 0 || UpToSecond(gap) + UpToSecond(s.lag) < TTL
    ensures s.Watermark().Some? && row.ts < s.Watermark().value
  {
    hide Highest, UpToSecond, FloorSecond, WholeSecond;
    BehindAtMost(s, n, gap);
    TtlOnTheSecond(row.ts, s.now);
    var reached := FloorSecond(n.finished.value) - UpToSecond(s.lag);
    ReachesNoFurther(n.finished.value, s.now, gap);
    assert FloorSecond(row.ts) < reached;
    ShiftSeconds(FloorSecond(n.finished.value), s.lag) by {
      FloorSecondBounds(n.finished.value);
    }
    BelowAWholeSecond(row.ts, FloorSecond(n.finished.value) - s.lag);
  }

  lemma BelowAWholeSecond(t: Instant, u: Instant)
    requires FloorSecond(t) < FloorSecond(u)
    ensures t < FloorSecond(u)
  {
    var a, b := t / SECOND, u / SECOND;
    assert FloorSecond(t) == a * SECOND && FloorSecond(u) == b * SECOND;
    assert a + 1 <= b;
    assert t < (a + 1) * SECOND <= b * SECOND;
  }

  lemma {:induction false} ScheduledRunLosesNothing(s: State, n: Runs, steps: seq<Step>, gap: Duration)
    requires Inv(s) && s.lost == multiset{} && Kept(s, n) && OnSchedule(s, n, steps, gap)
    requires gap < 0 || UpToSecond(gap) + UpToSecond(s.lag) < TTL
    ensures Inv(Run(s, steps)) && Run(s, steps).lost == multiset{}
    decreases steps
  {
    hide Inv, Apply, Enabled, StreamDelivers, ExpirySparesTheStream, Kept, Noted, UpToSecond, Timely;
    if steps != [] {
      var step := steps[0];
      if step.Expire? {
        TimelyExpiryIsBelow(s, n, gap, step.row);
      }
      BelowLosesNothing(s, step);
      NoLoss.StepKeeps(s, step);
      StepKept(s, n, step);
      ScheduledRunLosesNothing(Apply(s, step), Noted(n, s, step), steps[1..], gap);
    }
  }

  lemma BelowLosesNothing(s: State, step: Step)
    requires Inv(s) && s.lost == multiset{} && Enabled(s, step) && StreamDelivers(s, step)
    requires step.Expire? ==> s.Watermark().Some? && step.row.ts < s.Watermark().value
    ensures Careful(s, step) && Apply(s, step).lost == multiset{} && Apply(s, step).lag == s.lag
  {
    hide Highest;
  }

  lemma TimelyReportIsClean(s: State, n: Runs, gap: Duration, ttlHours: int)
    requires Kept(s, n) && n.finished.Some? && s.now - n.finished.value <= gap
    requires (UpToSecond(gap) + UpToSecond(s.lag)) as real <= ttlHours as real * 0.75 * HOUR as real
    ensures HealthOf(s, ttlHours).AtRisk() <==> LakeRows(s.lake) == 0
  {
    hide Highest, UpToSecond, FloorSecond, LakeRows;
    BehindAtMost(s, n, gap);
    var behind := FloorSecond(s.now) - s.Watermark().value;
    assert behind as real <= ttlHours as real * 0.75 * HOUR as real;
  }

  lemma {:induction false} RunKept(s: State, n: Runs, steps: seq<Step>, gap: Duration)
    requires Kept(s, n) && OnSchedule(s, n, steps, gap)
    ensures Kept(Run(s, steps), NotedAll(n, s, steps)) && Run(s, steps).lag == s.lag
    decreases steps
  {
    hide Apply, Enabled, StreamDelivers, Kept, Noted, Timely;
    if steps != [] {
      StepKept(s, n, steps[0]);
      LagStays(s, steps[0]);
      RunKept(Apply(s, steps[0]), Noted(n, s, steps[0]), steps[1..], gap);
    }
  }

  lemma LagStays(s: State, step: Step)
    requires Enabled(s, step)
    ensures Apply(s, step).lag == s.lag
  {
    hide Highest;
  }

  /**
   What the health report says meanwhile: while a complete run has got through that started at most
   `gap` ago, and gap and lag margin together stay within three quarters of the TTL setting, the
   report is clean as soon as the lake holds a row.
   */
  lemma ScheduledReportIsClean(
    lag: Duration, begin: Instant, steps: seq<Step>, gap: Duration, ttlHours: int)
    requires OnSchedule(Init(lag, begin), NO_RUNS, steps, gap)
    requires (UpToSecond(gap) + UpToSecond(lag)) as real <= ttlHours as real * 0.75 * HOUR as real
    ensures var s, n := Run(Init(lag, begin), steps), NotedAll(NO_RUNS, Init(lag, begin), steps);
            n.finished.Some? && s.now - n.finished.value <= gap ==>
              (HealthOf(s, ttlHours).AtRisk() <==> forall k :: k in s.lake ==> s.lake[k] == [])
  {
    hide Kept, OnSchedule, NotedAll, Run, UpToSecond, LakeRows, ExportHealth.AtRisk;
    NothingNoted(lag, begin);
    RunKept(Init(lag, begin), NO_RUNS, steps, gap);
    var s, n := Run(Init(lag, begin), steps), NotedAll(NO_RUNS, Init(lag, begin), steps);
    if n.finished.Some? && s.now - n.finished.value <= gap {
      TimelyReportIsClean(s, n, gap, ttlHours);
      NoLakeRows(s.lake);
    }
  }

  lemma NothingNoted(lag: Duration, begin: Instant)
    ensures Kept(Init(lag, begin), NO_RUNS)
  {
  }

  // ---- A schedule that is not tight enough

  lemma Then(s: State, n: Runs, steps: seq<Step>, step: Step, gap: Duration)
    requires OnSchedule(s, n, steps, gap)
    requires Allowed(Run(s, steps), NotedAll(n, s, steps), step, gap)
    ensures OnSchedule(s, n, steps + [step], gap)
    ensures Run(s, steps + [step]) == Apply(Run(s, steps), step)
    ensures NotedAll(n, s, steps + [step]) == Noted(NotedAll(n, s, steps), Run(s, steps), step)
    decreases steps
  {
    hide Apply, Enabled, StreamDelivers, Timely, Noted;
    if steps == [] {
      assert [] + [step] == [step];
      assert [step][1..] == [];
      var t, m := Apply(s, step), Noted(n, s, step);
      assert OnSchedule(t, m, [], gap) && Run(t, []) == t && NotedAll(m, t, []) == m;
    } else {
      assert (steps + [step])[1..] == steps[1..] + [step];
      Then(Apply(s, steps[0]), Noted(n, s, steps[0]), steps[1..], step, gap);
    }
  }

  /** Steps that neither remove rows nor start or end runs. */
  ghost predicate Quiet(s: State, step: Step) {
    && !step.Expire? && !step.Start? && !step.Advance?
    && (step.Stream? ==> Flatten(step.delivered) != [])
  }

  lemma {:induction false} ThenQuiet(s: State, n: Runs, steps: seq<Step>, more: seq<Step>, gap: Duration)
    requires OnSchedule(s, n, steps, gap) && Follows(Run(s, steps), more, Quiet)
    ensures OnSchedule(s, n, steps + more, gap)
    ensures Run(s, steps + more) == Run(Run(s, steps), more)
    ensures NotedAll(n, s, steps + more) == NotedAll(n, s, steps)
    decreases more
  {
    hide Apply, Enabled, OnSchedule, NotedAll, Noted;
    if more == [] {
      assert steps + more == steps;
    } else {
      var step := more[0];
      QuietNotes(NotedAll(n, s, steps), Run(s, steps), step, gap);
      Then(s, n, steps, step, gap);
      assert steps + [step] + more[1..] == steps + more;
      ThenQuiet(s, n, steps + [step], more[1..], gap);
    }
  }

  lemma QuietNotes(n: Runs, s: State, step: Step, gap: Duration)
    requires Enabled(s, step) && Quiet(s, step)
    ensures Allowed(s, n, step, gap) && Noted(n, s, step) == n
  {
    hide Enabled, Flatten;
  }

  lemma ArrivePunctually(s: State, r: Row)
    requires s.now - r.ts <= s.lag
    ensures Enabled(s, Arrive(r)) && Quiet(s, Arrive(r))
    ensures Apply(s, Arrive(r))
            == s.(hot := s.hot + multiset{r}, arrived := s.arrived + multiset{r}, punctual := s.punctual + multiset{r})
  {
    hide Highest;
  }

  /** What the environment does before the run: two rows arrive and the clock moves on. */
  lemma TwoRowsArrive(lag: Duration, begin: Instant, a: Row, b: Row, now: Instant) returns (steps: seq<Step>)
    requires begin - a.ts <= lag && begin - b.ts <= lag && begin <= now
    ensures Follows(Init(lag, begin), steps, Quiet)
    ensures Run(Init(lag, begin), steps) == State(
              lag, now, multiset{a, b}, [], map[], Idle, multiset{a, b}, multiset{a, b}, multiset{})
  {
    hide Follows, Run, Enabled, Apply;
    var s0 := Init(lag, begin);
    ArrivePunctually(s0, a);
    OneStep(s0, Arrive(a), Quiet);
    steps := [Arrive(a)];
    ArrivePunctually(Run(s0, steps), b);
    ProtocolRuns.Then(s0, steps, Arrive(b), Quiet);
    steps := steps + [Arrive(b)];
    TickAction(Run(s0, steps), now);
    ProtocolRuns.Then(s0, steps, Tick(now), Quiet);
    steps := steps + [Tick(now)];
    assert multiset{a} + multiset{b} == multiset{a, b} && multiset{} + multiset{a} == multiset{a};
  }

  /** The moment at which the one run starts: its horizon is ten minutes, or less than a second more. */
  function StartTime(lag: Duration): Instant {
    10 * MINUTE + UpToSecond(lag) + SECOND - 1
  }

  function RunHorizon(lag: Duration): Instant {
    10 * MINUTE + UpToSecond(lag) - lag
  }

  lemma HorizonOfStart(lag: Duration)
    ensures FloorSecond(StartTime(lag)) - lag == RunHorizon(lag)
    ensures 10 * MINUTE <= RunHorizon(lag) < 10 * MINUTE + SECOND && FloorSecond(RunHorizon(lag)) == 10 * MINUTE
  {
    var q := FloorSecond(-lag) / SECOND;
    FloorSecondBounds(-lag);
    assert FloorSecond(-lag) == q * SECOND;
    assert StartTime(lag) == (600 - q) * SECOND + (SECOND - 1);
    SecondParts(600 - q, SECOND - 1);
    SecondParts(600, RunHorizon(lag) - 600 * SECOND);
  }

  /** The start is as late in its second as it can be, so that `gap` later as many seconds have begun as can. */
  lemma StartIsLate(lag: Duration, gap: Duration)
    ensures FloorSecond(StartTime(lag) + gap) == FloorSecond(StartTime(lag)) + UpToSecond(gap)
  {
    var q, k := FloorSecond(-lag) / SECOND, FloorSecond(-gap) / SECOND;
    FloorSecondBounds(-lag);
    FloorSecondBounds(-gap);
    assert FloorSecond(-lag) == q * SECOND && FloorSecond(-gap) == k * SECOND;
    assert StartTime(lag) == (600 - q) * SECOND + (SECOND - 1);
    SecondParts(600 - q, SECOND - 1);
    var rest := gap - k * -SECOND;
    assert gap == -k * SECOND + rest && -SECOND < rest <= 0;
    assert StartTime(lag) + gap == (600 - q - k) * SECOND + (SECOND - 1 + rest);
    SecondParts(600 - q - k, SECOND - 1 + rest);
  }

  lemma NoSteps(s: State, n: Runs, gap: Duration)
    ensures OnSchedule(s, n, [], gap) && Run(s, []) == s && NotedAll(n, s, []) == n
  {
  }

  lemma StartsAtTheEnd(s: State, lag: Duration, gap: Duration)
    requires s.phase.Idle? && s.log == [] && s.now == StartTime(lag) && s.lag == lag
    requires s.hot == multiset{RowAt(0), RowAt(RunHorizon(lag))}
    ensures var start := Start(Some(0), 0);
            && Allowed(s, NO_RUNS, start, gap)
            && Apply(s, start) == s.(phase := Ready([Window(0, RunHorizon(lag))]))
            && Noted(NO_RUNS, s, start) == Runs(Some(StartTime(lag)), None)
  {
    hide StartTime, RunHorizon, FloorSecond, Plan, Within;
    HorizonOfStart(lag);
    assert RowAt(0) in s.hot;
    assert FloorHour(0) == 0;
    PlanOneWindow(0, RunHorizon(lag));
  }

  lemma AdvanceEnds(s: State, n: Runs, gap: Duration)
    requires s.phase.Settled? && |s.phase.todo| == 1 && n.started.Some?
    ensures Allowed(s, n, Advance, gap) && Noted(n, s, Advance) == Runs(None, n.started)
    ensures Apply(s, Advance) == s.(log := s.log + [FloorSecond(s.phase.todo[0].end)], phase := Idle)
  {
    hide FloorSecond, Highest;
    AdvanceAction(s);
  }

  /** A row at 0 and one just past the horizon of the only run, which files the first and is then over. */
  lemma OneRunFinished(lag: Duration, begin: Instant, gap: Duration) returns (steps: seq<Step>)
    requires begin <= 0 && begin <= lag && begin <= StartTime(lag)
    ensures OnSchedule(Init(lag, begin), NO_RUNS, steps, gap)
    ensures NotedAll(NO_RUNS, Init(lag, begin), steps) == Runs(None, Some(StartTime(lag)))
    ensures var a, b, w := RowAt(0), RowAt(RunHorizon(lag)), Window(0, RunHorizon(lag));
            Run(Init(lag, begin), steps) == State(
              lag, StartTime(lag), multiset{a, b}, [10 * MINUTE], map[KeyOf(w) := [a]], Idle,
              multiset{a, b}, multiset{a, b}, multiset{})
  {
    hide OnSchedule, NotedAll, Run, Follows, Enabled, Apply, StartTime, RunHorizon, Within, Sees, Attempt, KeyOf;
    var s0, h := Init(lag, begin), RunHorizon(lag);
    var a, b, w := RowAt(0), RowAt(h), Window(0, h);
    HorizonOfStart(lag);
    var arrivals := TwoRowsArrive(lag, begin, a, b, StartTime(lag));
    NoSteps(s0, NO_RUNS, gap);
    ThenQuiet(s0, NO_RUNS, [], arrivals, gap);
    steps := [] + arrivals;
    StartsAtTheEnd(Run(s0, steps), lag, gap);
    Then(s0, NO_RUNS, steps, Start(Some(0), 0), gap);
    steps := steps + [Start(Some(0), 0)];
    var s := Run(s0, steps);
    assert Within(s.hot, w) == multiset([a]);
    FaithfulCommits(s.hot, w, [a]);
    var attempt := AttemptIsProtocol(s, Faithful([a]), Quiet);
    ThenQuiet(s0, NO_RUNS, steps, attempt, gap);
    steps := steps + attempt;
    AdvanceEnds(Run(s0, steps), NotedAll(NO_RUNS, s0, steps), gap);
    Then(s0, NO_RUNS, steps, Advance, gap);
    steps := steps + [Advance];
  }

  /** When the schedule lets the gap grow that far, the TTL takes a row that no run has exported. */
  lemma LateRunLosesARow(lag: Duration, gap: Duration) returns (begin: Instant, steps: seq<Step>, b: Row)
    requires gap >= 0 && UpToSecond(gap) + UpToSecond(lag) >= TTL
    ensures OnSchedule(Init(lag, begin), NO_RUNS, steps, gap)
    ensures var s := Run(Init(lag, begin), steps); s.punctual[b] == 1 && s.hot[b] == 0 && Copies(s.lake, b) == 0
  {
    hide OnSchedule, NotedAll, Run, Enabled, Apply, StartTime, RunHorizon, Copies, KeyOf;
    begin := if lag < 0 then lag else 0;
    BeginsBefore(lag);
    var s0, h, later := Init(lag, begin), RunHorizon(lag), StartTime(lag) + gap;
    var a, w := RowAt(0), Window(0, RunHorizon(lag));
    b := RowAt(h);
    steps := OneRunFinished(lag, begin, gap);
    TickAction(Run(s0, steps), later);
    Then(s0, NO_RUNS, steps, Tick(later), gap);
    steps := steps + [Tick(later)];
    var s := Run(s0, steps);
    HorizonOfStart(lag);
    OldEnough(lag, gap);
    ExpireAction(s, b);
    Then(s0, NO_RUNS, steps, Expire(b), gap);
    steps := steps + [Expire(b)];
    OneFileOnly(s.lake, KeyOf(w), b);
  }

  lemma BeginsBefore(lag: Duration)
    ensures (if lag < 0 then lag else 0) <= StartTime(lag)
  {
    FloorSecondBounds(-lag);
  }

  lemma OldEnough(lag: Duration, gap: Duration)
    requires UpToSecond(gap) + UpToSecond(lag) >= TTL
    ensures FloorSecond(RunHorizon(lag)) + TTL <= StartTime(lag) + gap
  {
    hide StartTime, RunHorizon, FloorSecond;
    HorizonOfStart(lag);
    StartIsLate(lag, gap);
    FloorSecondBounds(StartTime(lag) + gap);
    HorizonMeans(lag);
  }

  lemma HorizonMeans(lag: Duration)
    ensures RunHorizon(lag) == 10 * MINUTE + UpToSecond(lag) - lag
  {
  }

  /**
   How often the exporter must run. Suppose that whenever the TTL removes a row, a complete run has
   got through that started at most `gap` earlier, and that no window that holds rows streams none;
   runs may be cut off, limited or crash otherwise. Then every row that arrived within the lag margin
   is always in the hot tier or in a file below the watermark if and only if gap and lag margin, each
   taken up to the second, are together less than the TTL.
   */
  lemma RunsOftenEnoughExactly(lag: Duration, gap: Duration)
    ensures (forall begin, steps, r: Row :: OnSchedule(Init(lag, begin), NO_RUNS, steps, gap) ==>
               var s := Run(Init(lag, begin), steps);
               s.hot[r] + Copies(CommittedFiles(s), r) >= s.punctual[r])
            <==> gap < 0 || UpToSecond(gap) + UpToSecond(lag) < TTL
  {
    hide OnSchedule, Run, Copies, CommittedFiles, UpToSecond, Inv;
    if gap < 0 || UpToSecond(gap) + UpToSecond(lag) < TTL {
      forall begin, steps, r: Row | OnSchedule(Init(lag, begin), NO_RUNS, steps, gap)
        ensures var s := Run(Init(lag, begin), steps);
                s.hot[r] + Copies(CommittedFiles(s), r) >= s.punctual[r]
      {
        InitHolds(lag, begin);
        NothingNoted(lag, begin);
        ScheduledRunLosesNothing(Init(lag, begin), NO_RUNS, steps, gap);
        HotOrFiled(Run(Init(lag, begin), steps), r);
      }
    } else {
      var begin, steps, b := LateRunLosesARow(lag, gap);
      CommittedAreFewer(Run(Init(lag, begin), steps), b);
    }
  }

  lemma HotOrFiled(s: State, r: Row)
    requires Inv(s) && s.lost == multiset{}
    ensures s.hot[r] + Copies(CommittedFiles(s), r) >= s.punctual[r]
  {
    hide Copies, CommittedFiles, Highest;
    if !s.AtOrAbove(r.ts) {
      HeldCopiesCount(s, r);
    }
  }
}
