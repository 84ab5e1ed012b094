/** An export while the engine goes on: the exporter's run, with the environment's steps between its actions. */
module LiveExport {
  import opened ExportCore
  import opened Exporter
  import opened Planner
  import opened Protocol
  import opened ProtocolRuns
  import opened Timeline
  import opened Wrappers

  /** What the environment does before each action of an attempt, and before its watermark is written. */
  datatype Interlude = Interlude(
    beforeCount: seq<Step>, beforeStream: seq<Step>, beforeVerify: seq<Step>,
    beforeRename: seq<Step>, beforeAdvance: seq<Step>)
  {
    predicate Environmental() {
      forall step :: step in beforeCount + beforeStream + beforeVerify + beforeRename + beforeAdvance ==>
                       step.Tick? || step.Arrive? || step.Expire? || step.MergeLog?
    }
  }

  /** The actions of an attempt that observes o, with the environment's steps in between. */
  function AttemptSteps(o: Observation, e: Interlude): seq<Step> {
    e.beforeCount + [Count] + StreamSteps(o, e)
  }

  function StreamSteps(o: Observation, e: Interlude): seq<Step> {
    if o.counted == 0 then [] else e.beforeStream + [Stream(o.batches)] + VerifySteps(o, e)
  }

  function VerifySteps(o: Observation, e: Interlude): seq<Step> {
    if Flatten(o.batches) == [] then [] else e.beforeVerify + [Verify(o.readBack, o.scan)] + RenameSteps(o, e)
  }

  function RenameSteps(o: Observation, e: Interlude): seq<Step> {
    if Attempt(o).Ok() then e.beforeRename + [Rename] else []
  }

  lemma {:induction false} Split(s: State, a: seq<Step>, b: seq<Step>)
    requires Follows(s, a + b, Anything)
    ensures Follows(s, a, Anything) && Follows(Run(s, a), b, Anything)
    ensures Run(s, a + b) == Run(Run(s, a), b)
    decreases a
  {
    hide Enabled, Apply;
    if a == [] {
      assert a + b == b;
    } else {
      assert (a + b)[1..] == a[1..] + b;
      Split(Apply(s, a[0]), a[1..], b);
    }
  }

  lemma {:induction false} EnvironmentOnly(s: State, steps: seq<Step>)
    requires Follows(s, steps, Anything)
    requires forall step :: step in steps ==> step.Tick? || step.Arrive? || step.Expire? || step.MergeLog?
    ensures Follows(s, steps, OnlyEnvironment)
    decreases steps
  {
    hide Enabled, Apply;
    if steps != [] {
      EnvironmentOnly(Apply(s, steps[0]), steps[1..]);
    }
  }

  /** The same exporter, to whom only the environment has happened. */
  ghost predicate SameExporter(s: State, t: State) {
    t.phase == s.phase && t.lake == s.lake && t.lag == s.lag && t.Watermark() == s.Watermark()
  }

  /** After some environment steps, an action; then the rest. */
  lemma ThenAction(s: State, between: seq<Step>, action: Step, rest: seq<Step>) returns (t: State)
    requires Follows(s, between + [action] + rest, Anything)
    requires forall step :: step in between ==> step.Tick? || step.Arrive? || step.Expire? || step.MergeLog?
    ensures t == Run(s, between) && SameExporter(s, t) && Enabled(t, action)
    ensures Follows(Apply(t, action), rest, Anything)
    ensures Run(s, between + [action] + rest) == Run(Apply(t, action), rest)
  {
    hide Enabled, Apply, Follows, Run, Highest;
    t := Run(s, between);
    assert between + [action] + rest == between + ([action] + rest);
    Split(s, between, [action] + rest);
    EnvironmentOnly(s, between);
    EnvironmentRun(s, between);
    FirstStep(t, action, rest);
  }

  lemma FirstStep(t: State, action: Step, rest: seq<Step>)
    requires Follows(t, [action] + rest, Anything)
    ensures Enabled(t, action) && Follows(Apply(t, action), rest, Anything)
    ensures Run(t, [action] + rest) == Run(Apply(t, action), rest)
  {
    hide Enabled, Apply;
    assert ([action] + rest)[1..] == rest;
  }

  /** Where an attempt leaves the exporter, whatever has happened to the table. */
  ghost predicate Attempted(s: State, t: State, o: Observation)
    requires !s.phase.Idle? && s.phase.todo != []
  {
    && t.lake == Committed(s.lake, s.phase.todo[0], o)
    && t.lag == s.lag && t.Watermark() == s.Watermark()
    && t.phase == if Attempt(o).Ok() then Settled(s.phase.todo, Attempt(o).Commits()) else Idle
  }

  lemma LiveRename(s: State, o: Observation, e: Interlude)
    requires Follows(s, RenameSteps(o, e), Anything) && e.Environmental() && !Attempt(o).skipped
    requires if Attempt(o).Ok() then s.phase.Verified? && s.phase.todo != [] && s.phase.file == o.readBack else s.phase.Idle?
    ensures var t := Run(s, RenameSteps(o, e));
            && t.lag == s.lag && t.Watermark() == s.Watermark()
            && (if Attempt(o).Ok() then
                  t.phase == Settled(s.phase.todo, true) && t.lake == s.lake[KeyOf(s.phase.todo[0]) := o.readBack]
                else
                  t.phase == Idle && t.lake == s.lake)
  {
    hide Enabled, Apply, Highest, KeyOf, FloorSecond, Follows;
    if Attempt(o).Ok() {
      hide Attempt, Run;
      assert e.beforeRename + [Rename] == e.beforeRename + [Rename] + [];
      var t := ThenAction(s, e.beforeRename, Rename, []);
      RenameAction(t);
      NoSteps(Apply(t, Rename));
    }
  }

  lemma NoSteps(s: State)
    ensures Run(s, []) == s
  {
  }

  lemma VerifyOutcome(t: State, o: Observation)
    requires t.phase.Streamed? && t.phase.todo != [] && Enabled(t, Verify(o.readBack, o.scan))
    requires t.phase.counted == o.counted && t.phase.batches == o.batches
    requires o.counted > 0 && Flatten(o.batches) != []
    ensures !Attempt(o).skipped
    ensures Apply(t, Verify(o.readBack, o.scan)) == t.(
              phase := if Attempt(o).Ok() then Verified(t.phase.todo, o.readBack) else Idle)
  {
    hide Within, Highest, FloorSecond, Flatten, FingerprintsAgree, FingerprintOf;
  }

  lemma LiveVerify(s: State, o: Observation, e: Interlude)
    requires Follows(s, VerifySteps(o, e), Anything) && e.Environmental()
    requires o.counted > 0
    requires if Flatten(o.batches) == [] then s.phase.Settled? && !s.phase.renamed && s.phase.todo != []
             else s.phase.Streamed? && s.phase.todo != [] && s.phase.counted == o.counted && s.phase.batches == o.batches
    ensures Attempted(s, Run(s, VerifySteps(o, e)), o)
  {
    hide Enabled, Apply, Highest, KeyOf, FloorSecond, Follows, Run, RenameSteps, Flatten, FingerprintsAgree, FingerprintOf;
    if Flatten(o.batches) == [] {
      NoSteps(s);
    } else {
      var t := ThenAction(s, e.beforeVerify, Verify(o.readBack, o.scan), RenameSteps(o, e));
      VerifyOutcome(t, o);
      LiveRename(Apply(t, Verify(o.readBack, o.scan)), o, e);
    }
  }

  lemma StreamOutcome(t: State, o: Observation)
    requires t.phase.Counted? && t.phase.todo != [] && Enabled(t, Stream(o.batches))
    ensures Apply(t, Stream(o.batches)) == t.(
              phase := if Flatten(o.batches) == [] then Settled(t.phase.todo, false)
                       else Streamed(t.phase.todo, t.phase.counted, o.batches))
  {
    hide Within, Highest, FloorSecond, Flatten;
  }

  lemma LiveStream(s: State, o: Observation, e: Interlude)
    requires Follows(s, StreamSteps(o, e), Anything) && e.Environmental()
    requires if o.counted == 0 then s.phase.Settled? && !s.phase.renamed && s.phase.todo != []
             else s.phase.Counted? && s.phase.todo != [] && s.phase.counted == o.counted
    ensures Attempted(s, Run(s, StreamSteps(o, e)), o)
  {
    hide Enabled, Apply, Highest, KeyOf, FloorSecond, Follows, Run, VerifySteps, Flatten, FingerprintsAgree, FingerprintOf;
    if o.counted == 0 {
      NoSteps(s);
    } else {
      var t := ThenAction(s, e.beforeStream, Stream(o.batches), VerifySteps(o, e));
      StreamOutcome(t, o);
      LiveVerify(Apply(t, Stream(o.batches)), o, e);
    }
  }

  /**
   The attempt is possible where the run stands, what it counts is what the table held at that
   moment, and the rest of what it observes is possible when it is observed.
   */
  ghost predicate LiveAttempt(s: State, o: Observation, e: Interlude) {
    && s.phase.Ready? && s.phase.todo != [] && e.Environmental()
    && Follows(s, AttemptSteps(o, e), Anything)
    && o.counted == |Within(Run(s, e.beforeCount).hot, s.phase.todo[0])|
  }

  lemma CountOutcome(t: State, n: nat)
    requires t.phase.Ready? && t.phase.todo != [] && Enabled(t, Count) && n == |Within(t.hot, t.phase.todo[0])|
    ensures Apply(t, Count) == t.(phase := if n == 0 then Settled(t.phase.todo, false) else Counted(t.phase.todo, n))
  {
    hide Within, Highest, FloorSecond;
  }

  lemma LiveAttemptOutcome(s: State, o: Observation, e: Interlude)
    requires LiveAttempt(s, o, e)
    ensures Attempted(s, Run(s, AttemptSteps(o, e)), o)
  {
    hide Enabled, Apply, Highest, KeyOf, FloorSecond, Follows, Run, StreamSteps, Attempt, Within;
    var t := ThenAction(s, e.beforeCount, Count, StreamSteps(o, e));
    CountOutcome(t, o.counted);
    LiveStream(Apply(t, Count), o, e);
  }

  /** The actions of a run over a plan, halting at the first attempt that is not ok. */
  function RunSteps(todo: seq<Window>, observe: Window -> Observation, live: Window -> Interlude): seq<Step> {
    if todo == [] then []
    else
      var o, e := observe(todo[0]), live(todo[0]);
      AttemptSteps(o, e) +
      if Attempt(o).Ok() then e.beforeAdvance + [Advance] + RunSteps(todo[1..], observe, live) else []
  }

  /** Every attempt of the run is possible where the run then stands. */
  ghost predicate LiveRun(s: State, todo: seq<Window>, observe: Window -> Observation, live: Window -> Interlude)
    decreases |todo|
  {
    todo == [] || (
      var o, e := observe(todo[0]), live(todo[0]);
      && s.phase == Ready(todo) && LiveAttempt(s, o, e)
      && (Attempt(o).Ok() ==>
            var next := AttemptSteps(o, e) + (e.beforeAdvance + [Advance]);
            Follows(s, next, Anything) && LiveRun(Run(s, next), todo[1..], observe, live)))
  }

  /** One window of a run that goes on: the attempt, and the watermark after it. */
  lemma LiveWindow(s: State, o: Observation, e: Interlude)
    requires LiveAttempt(s, o, e) && Attempt(o).Ok()
    requires Follows(s, AttemptSteps(o, e) + (e.beforeAdvance + [Advance]), Anything)
    ensures var t := Run(s, AttemptSteps(o, e) + (e.beforeAdvance + [Advance]));
            && t.lake == Committed(s.lake, s.phase.todo[0], o) && t.phase == ReadyFor(s.phase.todo[1..])
            && t.Watermark() == Highest(s.log + [FloorSecond(s.phase.todo[0].end)])
  {
    hide Enabled, Apply, Highest, KeyOf, FloorSecond, Follows, Run, AttemptSteps, Attempt, Within, Committed;
    Split(s, AttemptSteps(o, e), e.beforeAdvance + [Advance]);
    LiveAttemptOutcome(s, o, e);
    var t := Run(s, AttemptSteps(o, e));
    assert e.beforeAdvance + [Advance] == e.beforeAdvance + [Advance] + [];
    var u := ThenAction(t, e.beforeAdvance, Advance, []);
    AdvanceAction(u);
    NoSteps(Apply(u, Advance));
    AppendedHighest(u.log, s.log, [FloorSecond(s.phase.todo[0].end)]);
  }

  /** Logs with the same maximum still have the same maximum after the same entries. */
  lemma AppendedHighest(a: seq<Instant>, b: seq<Instant>, more: seq<Instant>)
    requires Highest(a) == Highest(b)
    ensures Highest(a + more) == Highest(b + more)
  {
    HighestOfConcat(a, more);
    HighestOfConcat(b, more);
  }

  /** The first window of a plan, and then the rest. */
  lemma LiveRunGoesOn(s: State, t: State, u: State, todo: seq<Window>, observe: Window -> Observation)
    requires todo != [] && Attempt(observe(todo[0])).Ok()
    requires t.lake == Committed(s.lake, todo[0], observe(todo[0]))
    requires t.Watermark() == Highest(s.log + [FloorSecond(todo[0].end)])
    requires var rest := todo[1..][..Completed(todo[1..], observe)];
             u.lake == CommittedAll(t.lake, rest, observe) && u.Watermark() == Highest(t.log + Marks(rest))
    ensures var done := todo[..Completed(todo, observe)];
            u.lake == CommittedAll(s.lake, done, observe) && u.Watermark() == Highest(s.log + Marks(done))
  {
    hide Highest, FloorSecond, Attempt, Committed, CommittedAll, Marks, Completed;
    DoneSplit(Store(s.lake, s.log), todo, observe);
    AppendedHighest(t.log, s.log + [FloorSecond(todo[0].end)], Marks(todo[1..][..Completed(todo[1..], observe)]));
  }

  lemma LiveRunHalts(s: State, todo: seq<Window>, observe: Window -> Observation, live: Window -> Interlude)
    requires LiveRun(s, todo, observe, live) && todo != [] && !Attempt(observe(todo[0])).Ok()
    ensures Follows(s, RunSteps(todo, observe, live), Anything)
    ensures var t := Run(s, RunSteps(todo, observe, live));
            t.phase.Idle? && t.lake == s.lake && t.Watermark() == s.Watermark()
  {
    hide Enabled, Apply, Highest, KeyOf, FloorSecond, Follows, Run, AttemptSteps, Attempt, Within, Committed, LiveAttempt;
    var o, e := observe(todo[0]), live(todo[0]);
    assert AttemptSteps(o, e) + [] == AttemptSteps(o, e);
    LiveIsPossible(s, o, e);
    LiveAttemptOutcome(s, o, e);
    NothingCommitted(s.lake, todo[0], o);
  }

  lemma LiveRunUnfolds(s: State, todo: seq<Window>, observe: Window -> Observation, live: Window -> Interlude)
    requires LiveRun(s, todo, observe, live) && todo != [] && Attempt(observe(todo[0])).Ok()
    ensures var o, e := observe(todo[0]), live(todo[0]);
            var next := AttemptSteps(o, e) + (e.beforeAdvance + [Advance]);
            && s.phase == Ready(todo) && LiveAttempt(s, o, e)
            && Follows(s, next, Anything) && LiveRun(Run(s, next), todo[1..], observe, live)
            && RunSteps(todo, observe, live) == next + RunSteps(todo[1..], observe, live)
  {
    hide Follows, Run, AttemptSteps, Attempt, LiveAttempt;
  }

  lemma {:induction false} LiveRunOutcome(
    s: State, todo: seq<Window>, observe: Window -> Observation, live: Window -> Interlude)
    requires LiveRun(s, todo, observe, live) && (todo == [] ==> s.phase.Idle?)
    ensures Follows(s, RunSteps(todo, observe, live), Anything)
    ensures var t, done := Run(s, RunSteps(todo, observe, live)), todo[..Completed(todo, observe)];
            && t.phase.Idle? && t.lake == CommittedAll(s.lake, done, observe)
            && t.Watermark() == Highest(s.log + Marks(done))
    decreases |todo|
  {
    hide Highest, FloorSecond, Follows, Run, AttemptSteps, Attempt, Committed;
    hide CommittedAll, Marks, Completed, LiveAttempt, RunSteps, LiveRun;
    if todo == [] {
      NothingDone(Store(s.lake, s.log), todo, observe);
      NoRun(s, observe, live);
    } else if !Attempt(observe(todo[0])).Ok() {
      NothingDone(Store(s.lake, s.log), todo, observe);
      LiveRunHalts(s, todo, observe, live);
    } else {
      var o, e := observe(todo[0]), live(todo[0]);
      var next, rest := AttemptSteps(o, e) + (e.beforeAdvance + [Advance]), todo[1..];
      LiveRunUnfolds(s, todo, observe, live);
      LiveWindow(s, o, e);
      var t := Run(s, next);
      LiveRunOutcome(t, rest, observe, live);
      Join(s, next, RunSteps(rest, observe, live), Anything);
      LiveRunGoesOn(s, t, Run(t, RunSteps(rest, observe, live)), todo, observe);
    }
  }

  lemma LiveIsPossible(s: State, o: Observation, e: Interlude)
    requires LiveAttempt(s, o, e)
    ensures s.phase.Ready? && s.phase.todo != [] && Follows(s, AttemptSteps(o, e), Anything)
  {
  }

  lemma NoRun(s: State, observe: Window -> Observation, live: Window -> Interlude)
    ensures RunSteps([], observe, live) == [] && Follows(s, [], Anything) && Run(s, []) == s
  {
  }

  /**
   Refinement while the engine goes on. Rows may arrive and expire, the clock may advance and the
   watermark table may be merged before every action of the run: what the run does to the lake and
   to the watermark is what `run_export` does with the observations it made.
   */
  lemma RunExportRefines(
    s: State, oldest: Option<Instant>, maxWindows: int, observe: Window -> Observation, live: Window -> Interlude)
    requires s.phase.Idle? && (s.Watermark().None? ==> IsOldest(s.hot, oldest))
    requires LiveRun(Apply(s, Start(oldest, maxWindows)), Planned(s.log, oldest, s.Horizon(), maxWindows), observe, live)
    ensures var steps := [Start(oldest, maxWindows)]
                         + RunSteps(Planned(s.log, oldest, s.Horizon(), maxWindows), observe, live);
            var after := RunOf(Store(s.lake, s.log), oldest, s.Horizon(), maxWindows, observe);
            && Follows(s, steps, Anything)
            && Run(s, steps).lake == after.lake && Run(s, steps).Watermark() == Highest(after.log)
            && Run(s, steps).phase.Idle?
  {
    hide Planned, LiveRun, RunSteps, Completed, CommittedAll, Marks, Highest, FloorSecond, Follows, Run;
    var todo := Planned(s.log, oldest, s.Horizon(), maxWindows);
    OneStep(s, Start(oldest, maxWindows), Anything);
    LiveRunOutcome(Apply(s, Start(oldest, maxWindows)), todo, observe, live);
    Join(s, [Start(oldest, maxWindows)], RunSteps(todo, observe, live), Anything);
  }
}
