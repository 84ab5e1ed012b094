/** No row is in the lake twice: files cover disjoint ranges, and a crash leaves at most one to overwrite. */
module NoDuplicates {
  import opened ExportCore
  import opened Exporter
  import opened Planner
  import opened Protocol
  import opened Timeline
  import opened Wrappers

  ghost predicate BelowWatermark(s: State, k: FileKey) {
    s.Watermark().Some? && k.end <= s.Watermark().value
  }

  /** The file the exporter has renamed and not yet recorded. */
  predicate Pending(s: State, k: FileKey) {
    s.phase.Settled? && s.phase.renamed && s.phase.todo != [] && k == KeyOf(s.phase.todo[0])
  }

  /** A file a crash left behind: it starts at the watermark, if there is one. */
  predicate Leftover(s: State, k: FileKey) {
    (s.Watermark().Some? ==> k.start == s.Watermark().value) && k.end <= s.Horizon()
  }

  /** Every file holds rows of its own range, none more often than it arrived. */
  ghost predicate FilesSound(s: State) {
    forall k :: k in s.lake ==>
      && k.start < k.end
      && forall r: Row :: r in multiset(s.lake[k]) ==>
           multiset(s.lake[k])[r] <= s.arrived[r] && k.start <= r.ts < k.end
  }

  ghost predicate FilesDisjoint(s: State) {
    forall j, k :: j in s.lake && k in s.lake && j != k ==> j.end <= k.start || k.end <= j.start
  }

  /** At most one file does not lie below the watermark. */
  ghost predicate OneFileAbove(s: State) {
    forall j, k :: j in s.lake && k in s.lake && !BelowWatermark(s, j) && !BelowWatermark(s, k) ==> j == k
  }

  /** Apart from the files below the watermark there is at most the one about to be recorded or overwritten. */
  ghost predicate FilesPlaced(s: State) {
    && OneFileAbove(s)
    && (forall k :: k in s.lake ==> BelowWatermark(s, k) || Pending(s, k) || Leftover(s, k))
    && (!s.phase.Idle? && s.phase.todo != [] ==>
          forall k :: k in s.lake ==> BelowWatermark(s, k) || k == KeyOf(s.phase.todo[0]))
  }

  /** The rows in hand are the current window's. */
  ghost predicate InHand(s: State, rows: multiset<Row>) {
    && !s.phase.Idle? && s.phase.todo != []
    && forall r: Row :: r in rows ==> rows[r] <= s.arrived[r] && s.phase.todo[0].Contains(r.ts)
  }

  ghost predicate HandSound(s: State) {
    && (s.phase.Streamed? ==> InHand(s, multiset(Flatten(s.phase.batches))))
    && (s.phase.Verified? ==> InHand(s, multiset(s.phase.file)))
    && (forall r: Row :: s.hot[r] <= s.arrived[r])
  }

  /** The windows to export, to the second. */
  ghost predicate PlanExact(s: State) {
    !s.phase.Idle? ==>
      var todo := s.phase.todo;
      && todo != []
      && (forall i :: 0 <= i < |todo| ==>
            && todo[i].start < todo[i].end <= s.Horizon()
            && todo[i].end <= FloorHour(todo[i].start) + HOUR
            && WholeSecond(todo[i].end))
      && (forall i :: 0 < i < |todo| ==> todo[i].start == todo[i - 1].end)
      && (s.Watermark().Some? ==> todo[0].start == s.Watermark().value)
  }

  ghost predicate WholeSeconds(s: State) {
    WholeSecond(s.lag) && (s.Watermark().Some? ==> WholeSecond(s.Watermark().value))
  }

  ghost predicate Tidy(s: State) {
    FilesSound(s) && FilesDisjoint(s) && FilesPlaced(s) && HandSound(s) && PlanExact(s) && WholeSeconds(s)
  }

  // ---- Steps that leave lake, watermark and plan alone

  /** The environment's steps: more arrivals, a later clock, fewer hot rows. */
  lemma EnvironmentKeeps(s: State, t: State)
    requires Tidy(s)
    requires t.phase == s.phase && t.lake == s.lake && t.lag == s.lag
    requires t.Watermark() == s.Watermark() && t.Horizon() >= s.Horizon()
    requires forall r: Row :: t.arrived[r] >= s.arrived[r] && t.hot[r] <= t.arrived[r]
    ensures Tidy(t)
  {
    hide Highest, FloorSecond, FloorHour, WholeSecond, KeyOf, Flatten;
    EnvironmentKeepsFiles(s, t);
    EnvironmentKeepsPlan(s, t);
  }

  lemma EnvironmentKeepsFiles(s: State, t: State)
    requires FilesSound(s) && FilesPlaced(s)
    requires t.phase == s.phase && t.lake == s.lake
    requires t.Watermark() == s.Watermark() && t.Horizon() >= s.Horizon()
    requires forall r: Row :: t.arrived[r] >= s.arrived[r]
    ensures FilesSound(t) && FilesPlaced(t)
  {
    hide Highest, FloorSecond, FloorHour, KeyOf;
  }

  lemma EnvironmentKeepsPlan(s: State, t: State)
    requires PlanExact(s) && HandSound(s)
    requires t.phase == s.phase && t.Watermark() == s.Watermark() && t.Horizon() >= s.Horizon()
    requires forall r: Row :: t.arrived[r] >= s.arrived[r] && t.hot[r] <= t.arrived[r]
    ensures PlanExact(t) && HandSound(t)
  {
    hide Highest, FloorSecond, FloorHour, WholeSecond, Flatten;
  }

  lemma EnvironmentStepKeeps(s: State, step: Step)
    requires Tidy(s) && Enabled(s, step)
    requires step.Tick? || step.Arrive? || step.Expire? || step.MergeLog?
    ensures Tidy(Apply(s, step))
  {
    hide Highest, Tidy;
    var t := Apply(s, step);
    HotRowsArrived(s);
    if step.Tick? {
      FloorSecondMonotone(s.now, step.to);
    }
    if step.MergeLog? {
      MergeKeepsWatermark(s.log, step.drop, step.keep);
    }
    EnvironmentKeeps(s, t);
  }

  lemma HotRowsArrived(s: State)
    requires Tidy(s)
    ensures forall r: Row :: s.hot[r] <= s.arrived[r]
  {
  }

  // ---- The exporter's steps

  lemma PlannedIsExact(log: seq<Instant>, oldest: Option<Instant>, horizon: Instant, maxWindows: int, i: nat)
    requires WholeSecond(horizon)
    requires i < |Planned(log, oldest, horizon, maxWindows)|
    ensures var w := Planned(log, oldest, horizon, maxWindows)[i];
            && w.end == Min(FloorHour(w.start) + HOUR, horizon)
            && WholeSecond(w.end)
  {
    hide Highest, WindowEnd, Plan, FloorHour;
    var start := StartOf(log, oldest).value;
    PlannedWindows(start, horizon, DEFAULT_WINDOW, i);
    var w := Planned(log, oldest, horizon, maxWindows)[i];
    HourlyEnd(w.start, horizon);
    WholeEnd(w.end, horizon);
  }

  lemma HorizonIsWhole(s: State)
    requires WholeSecond(s.lag)
    ensures WholeSecond(s.Horizon())
  {
    FloorSecondBounds(s.now);
  }

  lemma StartKeepsTidy(s: State, oldest: Option<Instant>, maxWindows: int)
    requires Tidy(s) && Enabled(s, Start(oldest, maxWindows)) && RestartsAtTheFile(s, Start(oldest, maxWindows))
    ensures Tidy(Apply(s, Start(oldest, maxWindows)))
  {
    hide Highest, Planned, FloorSecond, FloorHour, WholeSecond, KeyOf, PlanExact, FilesPlaced;
    StartPlansExactly(s, oldest, maxWindows);
    StartPlaces(s, oldest, maxWindows);
  }

  lemma StartPlansExactly(s: State, oldest: Option<Instant>, maxWindows: int)
    requires WholeSeconds(s) && Enabled(s, Start(oldest, maxWindows))
    ensures PlanExact(Apply(s, Start(oldest, maxWindows)))
  {
    hide Highest, Planned, FloorSecond, FloorHour, WholeSecond;
    HorizonIsWhole(s);
    PlannedIsSound(s.log, oldest, s.Horizon(), maxWindows);
    var ws := Planned(s.log, oldest, s.Horizon(), maxWindows);
    forall i | 0 <= i < |ws|
      ensures ws[i].end <= FloorHour(ws[i].start) + HOUR && WholeSecond(ws[i].end)
    {
      PlannedIsExact(s.log, oldest, s.Horizon(), maxWindows, i);
    }
  }

  lemma StartPlaces(s: State, oldest: Option<Instant>, maxWindows: int)
    requires WholeSeconds(s) && FilesPlaced(s) && Enabled(s, Start(oldest, maxWindows))
    requires RestartsAtTheFile(s, Start(oldest, maxWindows))
    ensures FilesPlaced(Apply(s, Start(oldest, maxWindows)))
  {
    hide Highest, Planned, FloorSecond, WholeSecond, KeyOf;
  }

  /**
   The run after a crash begins with the very window whose file was left behind if and only if that
   file ends on the hour or at the horizon, and, while there is no watermark, the oldest row is in
   the file's first second.
   */
  lemma LeftoverIsPlannedAgain(s: State, oldest: Option<Instant>, maxWindows: int, k: FileKey)
    requires WholeSeconds(s) && Leftover(s, k) && WholeSecond(k.start) && WholeSecond(k.end)
    requires k.start < k.end <= FloorHour(k.start) + HOUR
    requires Planned(s.log, oldest, s.Horizon(), maxWindows) != []
    ensures k == KeyOf(Planned(s.log, oldest, s.Horizon(), maxWindows)[0])
            <==> && (k.end % HOUR == 0 || k.end == s.Horizon())
                 && (s.Watermark().None? ==> oldest.Some? && FloorSecond(oldest.value) == k.start)
  {
    hide Highest, Planned, FloorHour;
    PlannedIsSound(s.log, oldest, s.Horizon(), maxWindows);
    HorizonIsWhole(s);
    PlannedIsExact(s.log, oldest, s.Horizon(), maxWindows, 0);
    var w := Planned(s.log, oldest, s.Horizon(), maxWindows)[0];
    FloorSecondBounds(w.start);
    FloorSecondBounds(w.end);
    FloorSecondBounds(k.start);
    HourOfSecond(w.start);
    SameEndExactly(k.start, k.end, s.Horizon());
  }

  /** A window that ends within its hour keeps its end under a horizon not below it exactly then. */
  lemma SameEndExactly(start: Instant, end: Instant, horizon: Instant)
    requires start < end <= horizon && end <= FloorHour(start) + HOUR
    ensures Min(FloorHour(start) + HOUR, horizon) == end <==> end % HOUR == 0 || horizon == end
  {
    HourParts(start);
    if end < FloorHour(start) + HOUR {
      NotAFullHour(start / HOUR, end);
    }
  }

  /** A step within the plan that leaves the lake alone. */
  lemma WithinPlanKeeps(s: State, t: State)
    requires Tidy(s)
    requires t == s.(phase := t.phase) && !s.phase.Settled?
    requires !s.phase.Idle? && s.phase.todo != [] && (t.phase.Idle? || t.phase.todo == s.phase.todo)
    requires HandSound(t)
    ensures Tidy(t)
  {
    hide Highest, FloorSecond, FloorHour, WholeSecond, KeyOf, HandSound, OneFileAbove, FilesSound, FilesDisjoint;
    SameFilesSound(s, t);
    SameFilesDisjoint(s, t);
    SameFilesAbove(s, t);
  }

  lemma SameFilesSound(s: State, t: State)
    requires t.lake == s.lake && t.arrived == s.arrived && FilesSound(s)
    ensures FilesSound(t)
  {
  }

  lemma SameFilesDisjoint(s: State, t: State)
    requires t.lake == s.lake && FilesDisjoint(s)
    ensures FilesDisjoint(t)
  {
  }

  lemma SameFilesAbove(s: State, t: State)
    requires t.lake == s.lake && t.log == s.log && OneFileAbove(s)
    ensures OneFileAbove(t)
  {
    hide Highest;
    assert t.Watermark() == s.Watermark();
    forall j, k | j in t.lake && k in t.lake && !BelowWatermark(t, j) && !BelowWatermark(t, k)
      ensures j == k
    {
      assert !BelowWatermark(s, j) && !BelowWatermark(s, k);
    }
  }

  lemma AttemptKeepsTidy(s: State, step: Step)
    requires Tidy(s) && Enabled(s, step)
    requires step.Count? || step.Stream? || step.Verify?
    ensures Tidy(Apply(s, step))
  {
    hide Highest, FloorSecond, Attempt, Tidy, HandSound;
    TidyPlan(s);
    AttemptKeepsHand(s, step);
    WithinPlanKeeps(s, Apply(s, step));
  }

  lemma TidyPlan(s: State)
    requires Tidy(s)
    ensures HandSound(s) && PlanExact(s)
  {
  }

  lemma AttemptKeepsHand(s: State, step: Step)
    requires HandSound(s) && Enabled(s, step)
    requires step.Count? || step.Stream? || step.Verify?
    ensures HandSound(Apply(s, step))
  {
    hide Highest, FloorSecond, Attempt, Flatten;
  }

  lemma RenameKeepsTidy(s: State)
    requires Tidy(s) && Enabled(s, Rename)
    ensures Tidy(Apply(s, Rename))
  {
    hide Highest, FloorHour, FloorSecond, WholeSecond, KeyOf, FilesSound, FilesDisjoint, FilesPlaced;
    RenameKeepsFiles(s);
  }

  lemma RenameKeepsFiles(s: State)
    requires Tidy(s) && Enabled(s, Rename)
    ensures var t := Apply(s, Rename); FilesSound(t) && FilesDisjoint(t) && FilesPlaced(t)
  {
    hide Highest, FloorHour, FloorSecond, WholeSecond, KeyOf, FilesSound, FilesDisjoint, FilesPlaced;
    RenamedFileIsSound(s);
    RenamedFileIsApart(s);
    RenamePlaces(s);
  }

  lemma RenamedFileIsSound(s: State)
    requires Tidy(s) && Enabled(s, Rename)
    ensures FilesSound(Apply(s, Rename))
  {
    hide Highest, FloorHour, FloorSecond, WholeSecond, KeyOf, FilesDisjoint, FilesPlaced, PlanExact;
    FilesBesides(s, s.Current());
  }

  lemma RenamedFileIsApart(s: State)
    requires Tidy(s) && Enabled(s, Rename)
    ensures FilesDisjoint(Apply(s, Rename))
  {
    hide Highest, FloorHour, FloorSecond, WholeSecond, KeyOf, FilesSound, FilesPlaced, PlanExact, HandSound;
    FilesBesides(s, s.Current());
  }

  lemma RenamePlaces(s: State)
    requires FilesPlaced(s) && Enabled(s, Rename)
    ensures FilesPlaced(Apply(s, Rename))
  {
    hide Highest, FloorHour, FloorSecond, KeyOf;
  }

  /** Every file but the current window's ends where that window starts, or earlier. */
  lemma FilesBesides(s: State, w: Window)
    requires Tidy(s) && Exporting(s, w)
    ensures forall k :: k in s.lake && k != KeyOf(w) ==> k.end <= KeyOf(w).start
    ensures KeyOf(w).end == w.end && KeyOf(w).start <= w.start < w.end
  {
    hide Highest, FloorHour;
    FloorSecondBounds(w.start);
    FloorSecondBounds(w.end);
  }

  lemma AdvanceKeepsTidy(s: State)
    requires Tidy(s) && Enabled(s, Advance)
    ensures Tidy(Apply(s, Advance))
  {
    hide Highest, FloorHour, Flatten;
    var t := Apply(s, Advance);
    var w := s.Current();
    FloorSecondBounds(w.end);
    HighestOfAppend(s.log, FloorSecond(w.end));
    assert t.Watermark() == Some(w.end);
    forall k | k in t.lake
      ensures BelowWatermark(t, k)
    {
      assert BelowWatermark(s, k) || k == KeyOf(w);
    }
    if !t.phase.Idle? {
      assert t.phase.todo == s.phase.todo[1..];
      assert s.phase.todo[1].start == w.end;
      assert forall i :: 0 <= i < |t.phase.todo| ==> t.phase.todo[i] == s.phase.todo[i + 1];
    }
  }

  lemma CrashKeepsTidy(s: State)
    requires Tidy(s) && Enabled(s, Crash)
    ensures Tidy(Apply(s, Crash))
  {
    hide Highest, FloorHour, FloorSecond, WholeSecond, KeyOf, FilesPlaced;
    CrashLeavesOneFile(s);
  }

  lemma CrashLeavesOneFile(s: State)
    requires Tidy(s) && Enabled(s, Crash)
    ensures FilesPlaced(Apply(s, Crash))
  {
    hide Highest, FloorHour, WholeSecond, FloorSecond, HandSound, FilesSound, FilesDisjoint;
    var w := s.phase.todo[0];
    if Pending(s, KeyOf(w)) {
      FilesBesides(s, w);
      FloorSecondBounds(w.start);
    }
  }

  lemma StepKeepsTidy(s: State, step: Step)
    requires Tidy(s) && Enabled(s, step) && RestartsAtTheFile(s, step)
    ensures Tidy(Apply(s, step))
  {
    hide Tidy, Apply, Enabled, RestartsAtTheFile;
    match step
    case Tick(_) => EnvironmentStepKeeps(s, step);
    case Arrive(_) => EnvironmentStepKeeps(s, step);
    case Expire(_) => EnvironmentStepKeeps(s, step);
    case MergeLog(_, _) => EnvironmentStepKeeps(s, step);
    case Start(oldest, maxWindows) => StartKeepsTidy(s, oldest, maxWindows);
    case Count => AttemptKeepsTidy(s, step);
    case Stream(_) => AttemptKeepsTidy(s, step);
    case Verify(_, _) => AttemptKeepsTidy(s, step);
    case Rename => RenameKeepsTidy(s);
    case Advance => AdvanceKeepsTidy(s);
    case Crash => CrashKeepsTidy(s);
  }

  lemma {:induction false} RunKeepsTidy(s: State, steps: seq<Step>)
    requires Tidy(s) && Follows(s, steps, RestartsAtTheFile)
    ensures Tidy(Run(s, steps))
    decreases steps
  {
    hide Tidy, Apply, Enabled, RestartsAtTheFile;
    if steps != [] {
      StepKeepsTidy(s, steps[0]);
      RunKeepsTidy(Apply(s, steps[0]), steps[1..]);
    }
  }

  // ---- The theorems

  lemma TidyLakeHoldsOnce(s: State, r: Row)
    requires Tidy(s)
    ensures Copies(s.lake, r) <= s.arrived[r]
  {
    hide Highest, FilesPlaced, HandSound, PlanExact, WholeSeconds;
    DisjointFilesHoldOnce(s.lake, r, s.arrived[r]);
  }

  /**
   No duplicates across crashes. With a whole-second lag margin, over every interleaving in which no
   run finds a file above the watermark but that of the window it begins with, the files of the lake
   cover pairwise disjoint ranges, at most one does not lie below the watermark and then starts at
   it, and no row is in the lake more often than it arrived.
   */
  lemma NothingIsDuplicated(lag: Duration, begin: Instant, steps: seq<Step>, r: Row)
    requires WholeSecond(lag) && Follows(Init(lag, begin), steps, RestartsAtTheFile)
    ensures var s := Run(Init(lag, begin), steps);
            && Copies(s.lake, r) <= s.arrived[r]
            && FilesDisjoint(s)
            && (forall k :: k in s.lake ==> BelowWatermark(s, k) || Pending(s, k) || Leftover(s, k))
            && (forall j, k :: j in s.lake && k in s.lake && !BelowWatermark(s, j) && !BelowWatermark(s, k) ==> j == k)
  {
    hide Apply, Enabled, RestartsAtTheFile, Copies;
    var s0 := Init(lag, begin);
    assert Tidy(s0);
    RunKeepsTidy(s0, steps);
    TidyLakeHoldsOnce(Run(s0, steps), r);
  }
}
