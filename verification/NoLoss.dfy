/** No row that arrived in time is lost: the watermark promises coverage, and the TTL keeps behind it. */
module NoLoss {
  import opened ExportCore
  import opened Exporter
  import opened Planner
  import opened Protocol
  import opened Timeline
  import opened Wrappers

  /** File k lies below the watermark, covers r's time, and holds r as often as it arrived in time. */
  ghost predicate HeldBy(s: State, r: Row, k: FileKey) {
    && s.Watermark().Some?
    && k in s.lake && k.start <= r.ts < k.end <= s.Watermark().value
    && multiset(s.lake[k])[r] + s.lost[r] >= s.punctual[r]
  }

  ghost predicate Accounted(s: State, r: Row) {
    s.punctual[r] <= s.lost[r] || exists k :: HeldBy(s, r, k)
  }

  /** History and hot tier agree; above the watermark every arrival is still hot, or was lost. */
  ghost predicate RowsConserved(s: State) {
    && (forall r: Row :: s.hot[r] <= s.arrived[r] && s.punctual[r] <= s.arrived[r])
    && (forall r: Row :: s.AtOrAbove(r.ts) ==> s.hot[r] + s.lost[r] == s.arrived[r])
  }

  /** Below the watermark every punctual row is accounted for. */
  ghost predicate BelowAccounted(s: State) {
    && (forall r: Row :: !s.AtOrAbove(r.ts) ==> Accounted(s, r))
    && (s.Watermark().Some? ==> s.Watermark().value <= s.Horizon())
  }

  /** The windows still to export abut, start at the watermark and end at or below the horizon. */
  ghost predicate PlanSound(s: State) {
    !s.phase.Idle? ==>
      var todo := s.phase.todo;
      && todo != []
      && (forall i :: 0 <= i < |todo| ==> todo[i].start < todo[i].end <= s.Horizon())
      && (forall i :: 0 < i < |todo| ==> todo[i].start == todo[i - 1].end && WholeSecond(todo[i].start))
      && (s.Watermark().Some? ==> todo[0].start == s.Watermark().value && WholeSecond(todo[0].start))
      && (s.Watermark().None? ==> forall r: Row :: r.ts < todo[0].start ==> s.punctual[r] <= s.lost[r])
  }

  /** What the exporter has in hand is good for the current window. */
  ghost predicate AttemptSound(s: State) {
    match s.phase
    case Streamed(todo, _, batches) =>
      todo != [] && (StreamKeepsUp(s) || multiset(Flatten(batches)) <= Within(s.hot, todo[0]))
    case Verified(todo, file) =>
      todo != [] && forall r: Row :: todo[0].Contains(r.ts) ==> multiset(file)[r] + s.lost[r] >= s.punctual[r]
    case Settled(todo, _) =>
      todo != [] && forall r: Row :: todo[0].Contains(r.ts) ==>
        || s.punctual[r] <= s.lost[r]
        || (KeyOf(todo[0]) in s.lake && multiset(s.lake[KeyOf(todo[0])])[r] + s.lost[r] >= s.punctual[r])
    case _ => true
  }

  ghost predicate WatermarkIsWhole(s: State) {
    forall v :: v in s.log ==> WholeSecond(v)
  }

  ghost predicate StreamedSomething(s: State) {
    && (s.phase.Counted? ==> s.phase.counted > 0)
    && (s.phase.Streamed? ==> s.phase.counted > 0 && Flatten(s.phase.batches) != [])
  }

  ghost predicate Inv(s: State) {
    && RowsConserved(s) && BelowAccounted(s) && PlanSound(s) && AttemptSound(s)
    && WatermarkIsWhole(s) && StreamedSomething(s)
  }

  // ---- Each step keeps the invariant

  lemma TickKeeps(s: State, to: Instant)
    requires Inv(s) && Enabled(s, Tick(to))
    ensures Inv(Apply(s, Tick(to)))
  {
    var t := Apply(s, Tick(to));
    FloorSecondMonotone(s.now, to);
    AccountsKept(s, t);
  }

  /** Accounting survives as long as the lake and the watermark stay and nothing new is owed. */
  lemma AccountsKept(s: State, t: State)
    requires forall r: Row :: !s.AtOrAbove(r.ts) ==> Accounted(s, r)
    requires t.Watermark() == s.Watermark() && t.lake == s.lake
    requires forall r: Row :: t.lost[r] >= s.lost[r]
    requires forall r: Row :: !s.AtOrAbove(r.ts) ==> t.punctual[r] <= s.punctual[r]
    ensures forall r: Row :: !t.AtOrAbove(r.ts) ==> Accounted(t, r)
  {
    hide Highest;
    forall r: Row | !t.AtOrAbove(r.ts)
      ensures Accounted(t, r)
    {
      assert Accounted(s, r);
      if !(s.punctual[r] <= s.lost[r]) {
        var k :| HeldBy(s, r, k);
        assert HeldBy(t, r, k);
      }
    }
  }

  /** The plan stays sound while the clock moves on, rows are lost, and none is owed below the horizon. */
  lemma PlanKept(s: State, t: State)
    requires PlanSound(s)
    requires t.phase == s.phase && t.Watermark() == s.Watermark() && t.Horizon() >= s.Horizon()
    requires forall r: Row :: t.lost[r] >= s.lost[r]
    requires forall r: Row :: r.ts < s.Horizon() ==> t.punctual[r] <= s.punctual[r]
    ensures PlanSound(t)
  {
    hide Highest, FloorSecond, WholeSecond;
  }

  lemma ArriveKeeps(s: State, row: Row)
    requires Inv(s) && Enabled(s, Arrive(row))
    ensures Inv(Apply(s, Arrive(row)))
  {
    hide Highest, FloorSecond, Accounted, AttemptSound, PlanSound, RowsConserved;
    var t := Apply(s, Arrive(row));
    ArriveConserves(s, row);
    ArriveOwesNothingBelow(s, row);
    AccountsKept(s, t);
    PlanKept(s, t);
    CurrentIsBelowHorizon(s);
    AttemptKept(s, t);
  }

  lemma ArriveConserves(s: State, row: Row)
    requires RowsConserved(s)
    ensures var t := Apply(s, Arrive(row));
            RowsConserved(t) && forall r: Row :: t.hot[r] >= s.hot[r]
  {
    hide Highest, FloorSecond;
  }

  /** A row that arrives in time is not below the horizon. */
  lemma ArriveOwesNothingBelow(s: State, row: Row)
    ensures forall r: Row :: r.ts < s.Horizon() ==> Apply(s, Arrive(row)).punctual[r] <= s.punctual[r]
  {
    hide Highest, FloorSecond;
    FloorSecondBounds(s.now);
  }

  lemma CurrentIsBelowHorizon(s: State)
    requires PlanSound(s)
    ensures !s.phase.Idle? ==> s.phase.todo != [] && s.phase.todo[0].end <= s.Horizon()
  {
    hide Highest, FloorSecond;
  }

  lemma ExpireKeeps(s: State, row: Row)
    requires Inv(s) && Enabled(s, Expire(row)) && ExpirySparesTheStream(s, Expire(row))
    ensures Inv(Apply(s, Expire(row)))
  {
    hide Highest, FloorSecond, Accounted, AttemptSound, RowsConserved, Flatten;
    var t := Apply(s, Expire(row));
    ExpireConserves(s, row);
    AccountsKept(s, t);
    AttemptKept(s, t);
  }

  lemma AttemptKept(s: State, t: State)
    requires AttemptSound(s)
    requires t.phase == s.phase && t.lake == s.lake
    requires forall r: Row :: t.lost[r] >= s.lost[r]
    requires !s.phase.Idle? && s.phase.todo != [] ==>
               forall r: Row :: s.phase.todo[0].Contains(r.ts) ==> t.punctual[r] <= s.punctual[r]
    requires s.phase.Streamed? && s.phase.todo != [] ==>
               || StreamKeepsUp(s)
               || forall r: Row :: t.hot[r] >= s.hot[r] || t.hot[r] >= multiset(Flatten(s.phase.batches))[r]
    ensures AttemptSound(t)
  {
    hide Flatten, KeyOf;
    if s.phase.Streamed? && !StreamKeepsUp(s) {
      var streamed, w := multiset(Flatten(s.phase.batches)), s.phase.todo[0];
      forall r: Row
        ensures streamed[r] <= Within(t.hot, w)[r]
      {
        assert streamed[r] <= Within(s.hot, w)[r];
      }
    }
  }

  lemma ExpireConserves(s: State, row: Row)
    requires RowsConserved(s) && Enabled(s, Expire(row))
    ensures RowsConserved(Apply(s, Expire(row)))
    ensures forall r: Row :: Apply(s, Expire(row)).lost[r] >= s.lost[r]
    ensures forall r: Row :: r != row ==> Apply(s, Expire(row)).hot[r] == s.hot[r]
  {
    hide Highest, FloorSecond;
  }

  lemma MergeLogKeeps(s: State, drop: nat, keep: nat)
    requires Inv(s) && Enabled(s, MergeLog(drop, keep))
    ensures Inv(Apply(s, MergeLog(drop, keep)))
  {
    hide Highest, FloorSecond, Accounted, AttemptSound, PlanSound, WholeSecond;
    var t := Apply(s, MergeLog(drop, keep));
    MergeKeepsWatermark(s.log, drop, keep);
    AccountsKept(s, t);
    PlanKept(s, t);
    AttemptKept(s, t);
  }

  lemma StartKeeps(s: State, oldest: Option<Instant>, maxWindows: int)
    requires Inv(s) && Enabled(s, Start(oldest, maxWindows))
    ensures Inv(Apply(s, Start(oldest, maxWindows)))
  {
    hide Highest, Planned, FloorSecond, Accounted, PlanSound, AttemptSound;
    var t := Apply(s, Start(oldest, maxWindows));
    AccountsKept(s, t);
    StartPlans(s, oldest, maxWindows);
    NothingInHand(t);
  }

  lemma NothingInHand(t: State)
    requires t.phase.Idle? || t.phase.Ready?
    ensures AttemptSound(t)
  {
  }

  lemma StartPlans(s: State, oldest: Option<Instant>, maxWindows: int)
    requires Inv(s) && Enabled(s, Start(oldest, maxWindows))
    ensures PlanSound(Apply(s, Start(oldest, maxWindows)))
  {
    hide Highest, Planned, FloorSecond, WholeSecond, Accounted;
    var t := Apply(s, Start(oldest, maxWindows));
    PlannedIsSound(s.log, oldest, s.Horizon(), maxWindows);
    if s.Watermark().None? && !t.phase.Idle? {
      forall r: Row | r.ts < t.phase.todo[0].start
        ensures t.punctual[r] <= t.lost[r]
      {
        assert r !in s.hot;
        assert s.hot[r] + s.lost[r] == s.arrived[r];
      }
    }
    if s.Watermark().Some? && !t.phase.Idle? {
      HighestIsTheMaximum(s.log);
    }
  }

  lemma EmptyWindowIsSettled(s: State, w: Window)
    requires Inv(s) && Exporting(s, w) && Within(s.hot, w) == multiset{}
    ensures forall r: Row :: w.Contains(r.ts) ==> s.punctual[r] <= s.lost[r]
  {
    forall r: Row | w.Contains(r.ts)
      ensures s.punctual[r] <= s.lost[r]
    {
      assert Within(s.hot, w)[r] == 0;
      assert s.AtOrAbove(r.ts);
    }
  }

  /** A step that only changes the phase, within the same plan. */
  lemma SamePlanKeeps(s: State, t: State)
    requires Inv(s)
    requires t == s.(phase := t.phase)
    requires t.phase.Idle? || (!s.phase.Idle? && t.phase.todo == s.phase.todo)
    requires AttemptSound(t) && StreamedSomething(t)
    ensures Inv(t)
  {
    hide Highest, FloorSecond, WholeSecond, Accounted, AttemptSound, StreamedSomething;
    AccountsKept(s, t);
  }

  lemma CountKeeps(s: State)
    requires Inv(s) && Enabled(s, Count)
    ensures Inv(Apply(s, Count))
  {
    hide Highest, FloorSecond, BelowAccounted, RowsConserved;
    var t := Apply(s, Count);
    if t.phase.Settled? {
      assert Within(s.hot, s.Current()) == multiset{};
      EmptyWindowIsSettled(s, s.Current());
    }
    SamePlanKeeps(s, t);
  }

  lemma StreamKeeps(s: State, delivered: seq<seq<Row>>)
    requires Inv(s) && Enabled(s, Stream(delivered)) && StreamDelivers(s, Stream(delivered))
    ensures Inv(Apply(s, Stream(delivered)))
  {
    hide Highest, FloorSecond, BelowAccounted, RowsConserved, Within;
    var t := Apply(s, Stream(delivered));
    if t.phase.Settled? {
      assert Exporting(s, s.Current());
      EmptyWindowIsSettled(s, s.Current());
    }
    SamePlanKeeps(s, t);
  }

  /** Counts that agree leave no room for a row that the disk dropped, nor, in a table that kept its rows, the stream. */
  lemma VerifiedFileIsComplete(s: State, readBack: seq<Row>, scan: seq<Row>)
    requires AttemptSound(s) && StreamedSomething(s) && Enabled(s, Verify(readBack, scan))
    requires Verdict(s.phase, readBack, scan).Ok()
    ensures multiset(readBack) == multiset(Flatten(s.phase.batches)) && |Flatten(s.phase.batches)| == s.phase.counted
    ensures StreamKeepsUp(s) || multiset(readBack) == Within(s.hot, s.Current())
    ensures StreamKeepsUp(s)
            <==> forall r: Row :: s.Current().Contains(r.ts) ==> multiset(readBack)[r] + s.lost[r] >= s.punctual[r]
  {
    SeqSize(readBack);
    SeqSize(scan);
    SeqSize(Flatten(s.phase.batches));
    SameSizeSubset(multiset(readBack), multiset(Flatten(s.phase.batches)));
    if !StreamKeepsUp(s) {
      SameSizeSubset(multiset(readBack), Within(s.hot, s.Current()));
    }
  }

  lemma VerifyKeeps(s: State, readBack: seq<Row>, scan: seq<Row>)
    requires Inv(s) && Enabled(s, Verify(readBack, scan))
    ensures Inv(Apply(s, Verify(readBack, scan)))
  {
    hide Highest, FloorSecond, BelowAccounted, Within, Attempt, Flatten;
    var t := Apply(s, Verify(readBack, scan));
    if t.phase.Verified? {
      VerifiedFileIsComplete(s, readBack, scan);
      AboveIsComplete(s, s.Current());
      assert AttemptSound(t);
    }
    SamePlanKeeps(s, t);
  }

  /**
   What it takes to lose a row: a stream can only fail to keep up when a row of the window arrives
   late, between count and stream.
   */
  lemma OnlyLateArrivalsOutrunTheStream(s: State, delivered: seq<seq<Row>>)
    requires Inv(s) && Enabled(s, Stream(delivered)) && Flatten(delivered) != []
    requires |Within(s.hot, s.Current())| <= s.phase.counted
    ensures StreamKeepsUp(Apply(s, Stream(delivered)))
  {
    hide Highest, FloorSecond, BelowAccounted, RowsConserved, Flatten;
    var streamed := Flatten(delivered);
    AboveIsComplete(s, s.Current());
    SeqSize(streamed);
    if |streamed| == s.phase.counted {
      SubsetIsNoLarger(multiset(streamed), Within(s.hot, s.Current()));
      SameSizeSubset(multiset(streamed), Within(s.hot, s.Current()));
    }
  }

  lemma SubsetIsNoLarger(a: multiset<Row>, b: multiset<Row>)
    requires a <= b
    ensures |a| <= |b|
  {
    assert b == a + (b - a);
  }

  lemma AboveIsComplete(s: State, w: Window)
    requires Inv(s) && Exporting(s, w)
    ensures forall r: Row :: w.Contains(r.ts) ==> Within(s.hot, w)[r] + s.lost[r] >= s.punctual[r]
  {
    hide Highest, FloorSecond;
    forall r: Row | w.Contains(r.ts)
      ensures Within(s.hot, w)[r] + s.lost[r] >= s.punctual[r]
    {
      assert s.AtOrAbove(r.ts);
    }
  }

  lemma RenameKeeps(s: State)
    requires Inv(s) && Enabled(s, Rename)
    ensures Inv(Apply(s, Rename))
  {
    hide Highest, FloorSecond, WholeSecond, Accounted, PlanSound, AttemptSound;
    var t := Apply(s, Rename);
    forall r: Row | !t.AtOrAbove(r.ts)
      ensures Accounted(t, r)
    {
      RenameAccounts(s, r);
    }
    RenameSettles(s);
  }

  lemma RenameSettles(s: State)
    requires PlanSound(s) && AttemptSound(s) && Enabled(s, Rename)
    ensures PlanSound(Apply(s, Rename)) && AttemptSound(Apply(s, Rename))
  {
    hide Highest, FloorSecond, WholeSecond, KeyOf;
  }

  lemma RenameAccounts(s: State, r: Row)
    requires PlanSound(s) && Enabled(s, Rename)
    requires !s.AtOrAbove(r.ts) && Accounted(s, r)
    ensures Accounted(Apply(s, Rename), r)
  {
    hide Highest;
    var t := Apply(s, Rename);
    if !(s.punctual[r] <= s.lost[r]) {
      var k :| HeldBy(s, r, k);
      FloorSecondBounds(s.Current().start);
      assert k != KeyOf(s.Current());
      assert HeldBy(t, r, k);
    }
  }

  lemma AdvanceKeeps(s: State)
    requires Inv(s) && Enabled(s, Advance)
    ensures Inv(Apply(s, Advance))
  {
    hide Highest, FloorSecond, Accounted, HeldBy;
    var t := Apply(s, Advance);
    var w := s.Current();
    FloorSecondBounds(w.end);
    AdvanceMovesWatermark(s);
    forall r: Row | !t.AtOrAbove(r.ts)
      ensures Accounted(t, r)
    {
      AdvanceAccounts(s, r);
    }
    if !t.phase.Idle? {
      assert t.phase.todo == s.phase.todo[1..];
      assert s.phase.todo[1].start == w.end;
      assert forall i :: 0 <= i < |t.phase.todo| ==> t.phase.todo[i] == s.phase.todo[i + 1];
    }
  }

  lemma AdvanceMovesWatermark(s: State)
    requires Inv(s) && Enabled(s, Advance)
    ensures var t := Apply(s, Advance);
            && t.Watermark() == Some(FloorSecond(s.Current().end))
            && (s.Watermark().Some? ==> s.Watermark().value <= t.Watermark().value)
  {
    hide Highest;
    var w := s.Current();
    FloorSecondBounds(w.start);
    FloorSecondMonotone(w.start, w.end);
    HighestOfAppend(s.log, FloorSecond(w.end));
  }

  lemma AdvanceAccounts(s: State, r: Row)
    requires Inv(s) && Enabled(s, Advance)
    requires !Apply(s, Advance).AtOrAbove(r.ts)
    ensures Accounted(Apply(s, Advance), r)
  {
    hide Highest;
    var t := Apply(s, Advance);
    var w := s.Current();
    AdvanceMovesWatermark(s);
    FloorSecondBounds(w.start);
    FloorSecondBounds(w.end);
    if s.punctual[r] > s.lost[r] {
      if r.ts < w.start {
        assert Accounted(s, r);
        var k :| HeldBy(s, r, k);
        assert HeldBy(t, r, k);
      } else {
        assert w.Contains(r.ts);
        assert HeldBy(t, r, KeyOf(w));
      }
    }
  }

  lemma CrashKeeps(s: State)
    requires Inv(s) && Enabled(s, Crash)
    ensures Inv(Apply(s, Crash))
  {
    AccountsKept(s, Apply(s, Crash));
  }

  /** The conditions under which nothing slips past the watermark. */
  ghost predicate Careful(s: State, step: Step) {
    StreamDelivers(s, step) && ExpirySparesTheStream(s, step)
  }

  lemma StepKeeps(s: State, step: Step)
    requires Inv(s) && Enabled(s, step) && Careful(s, step)
    ensures Inv(Apply(s, step))
  {
    hide Inv, Apply, Enabled, StreamDelivers, ExpirySparesTheStream;
    match step
    case Tick(to) => TickKeeps(s, to);
    case Arrive(row) => ArriveKeeps(s, row);
    case Expire(row) => ExpireKeeps(s, row);
    case MergeLog(drop, keep) => MergeLogKeeps(s, drop, keep);
    case Start(oldest, maxWindows) => StartKeeps(s, oldest, maxWindows);
    case Count => CountKeeps(s);
    case Stream(delivered) => StreamKeeps(s, delivered);
    case Verify(readBack, scan) => VerifyKeeps(s, readBack, scan);
    case Rename => RenameKeeps(s);
    case Advance => AdvanceKeeps(s);
    case Crash => CrashKeeps(s);
  }

  lemma InitHolds(lag: Duration, now: Instant)
    ensures Inv(Init(lag, now))
  {
  }

  lemma {:induction false} RunKeeps(s: State, steps: seq<Step>)
    requires Inv(s) && Follows(s, steps, Careful)
    ensures Inv(Run(s, steps))
    decreases steps
  {
    hide Inv, Apply, Enabled, Careful;
    if steps != [] {
      StepKeeps(s, steps[0]);
      RunKeeps(Apply(s, steps[0]), steps[1..]);
    }
  }

  // ---- The theorems

  lemma HeldCopiesCount(s: State, r: Row)
    requires Accounted(s, r)
    ensures Copies(CommittedFiles(s), r) + s.lost[r] >= s.punctual[r]
  {
    if !(s.punctual[r] <= s.lost[r]) {
      var k :| HeldBy(s, r, k);
      CopiesSplit(CommittedFiles(s), r, k);
    }
  }

  /**
   Watermark coverage. Over every interleaving of arrivals, clock ticks, TTL deletions, background
   merges, export actions and crashes, a row that arrived within the lag margin and whose timestamp
   is below the watermark is in a file below the watermark, unless the TTL removed it before the
   watermark passed it.
   */
  lemma WatermarkCovers(lag: Duration, begin: Instant, steps: seq<Step>, r: Row)
    requires Follows(Init(lag, begin), steps, Careful)
    ensures var s := Run(Init(lag, begin), steps);
            !s.AtOrAbove(r.ts) ==>
              && Copies(CommittedFiles(s), r) + s.lost[r] >= s.punctual[r]
              && (s.punctual[r] > s.lost[r] ==>
                    exists k :: k in s.lake && k.start <= r.ts < k.end <= s.Watermark().value
                                && multiset(s.lake[k])[r] + s.lost[r] >= s.punctual[r])
  {
    hide Apply, Enabled, Careful, Copies, CommittedFiles;
    InitHolds(lag, begin);
    RunKeeps(Init(lag, begin), steps);
    var s := Run(Init(lag, begin), steps);
    if !s.AtOrAbove(r.ts) {
      HeldCopiesCount(s, r);
      if s.punctual[r] > s.lost[r] {
        var k :| HeldBy(s, r, k);
      }
    }
  }

  /** What a healthy deployment does: streams deliver, and the report is clean whenever the TTL strikes. */
  ghost predicate Healthy(s: State, step: Step) {
    StreamDelivers(s, step) && ExpiresInGoodHealth(s, step)
  }

  /** In good health the TTL stays below the watermark, so it never takes a row that was not exported. */
  lemma HealthyStepLosesNothing(s: State, step: Step)
    requires Inv(s) && s.lost == multiset{} && Enabled(s, step) && Healthy(s, step)
    ensures Careful(s, step) && Apply(s, step).lost == multiset{}
  {
    hide Highest, LakeRows;
    if step.Expire? {
      var ttlHours :| WarnsInTime(ttlHours) && !HealthOf(s, ttlHours).AtRisk();
      HealthyExpiryIsBelow(s, step.row, ttlHours);
    }
  }

  lemma {:induction false} HealthyRunLosesNothing(s: State, steps: seq<Step>)
    requires Inv(s) && s.lost == multiset{} && Follows(s, steps, Healthy)
    ensures Inv(Run(s, steps)) && Run(s, steps).lost == multiset{}
    decreases steps
  {
    hide Inv, Apply, Enabled, Careful, Healthy;
    if steps != [] {
      HealthyStepLosesNothing(s, steps[0]);
      StepKeeps(s, steps[0]);
      HealthyRunLosesNothing(Apply(s, steps[0]), steps[1..]);
    }
  }

  /**
   End-to-end no loss. In every run in which the health report is clean whenever the TTL removes a
   row and no window that holds rows streams none, every row that arrived within the lag margin is
   at all times still in the hot tier or already in a file below the watermark.
   */
  lemma NothingIsLost(lag: Duration, begin: Instant, steps: seq<Step>, r: Row)
    requires Follows(Init(lag, begin), steps, Healthy)
    ensures var s := Run(Init(lag, begin), steps);
            && s.hot[r] + Copies(CommittedFiles(s), r) >= s.punctual[r]
            && (|| s.hot[r] >= s.punctual[r]
                || (s.Watermark().Some?
                    && exists k :: k in s.lake && k.start <= r.ts < k.end <= s.Watermark().value
                                   && multiset(s.lake[k])[r] >= s.punctual[r]))
  {
    hide Apply, Enabled, Healthy, Copies, CommittedFiles;
    InitHolds(lag, begin);
    HealthyRunLosesNothing(Init(lag, begin), steps);
    var s := Run(Init(lag, begin), steps);
    if !s.AtOrAbove(r.ts) {
      HeldCopiesCount(s, r);
      if s.punctual[r] > 0 {
        var k :| HeldBy(s, r, k);
      }
    }
  }
}
