/** Exactly when no row is filed more often than it arrived, whatever files crashes have left behind. */
module OnceOnly {
  import opened ExportCore
  import opened Exporter
  import opened NoDuplicates
  import opened NoLoss
  import opened Planner
  import opened Protocol
  import opened ProtocolRuns
  import opened Rewind
  import opened Timeline
  import opened Witnesses
  import opened Wrappers

  /** The copies of a row outside one file. */
  ghost function CopiesExcept(lake: map<FileKey, seq<Row>>, k: FileKey, r: Row): nat {
    Copies(lake - {k}, r)
  }

  /** Exporting the window from the table as it is files none of its rows once too often. */
  ghost predicate Spares(s: State, w: Window) {
    forall r: Row :: w.Contains(r.ts) ==> CopiesExcept(s.lake, KeyOf(w), r) + s.hot[r] <= s.arrived[r]
  }

  /** A run starts only if that holds of every window it plans. */
  ghost predicate StartsSparing(s: State, step: Step) {
    step.Start? ==>
      var todo := Planned(s.log, step.oldest, s.Horizon(), step.maxWindows);
      forall i :: 0 <= i < |todo| ==> Spares(s, todo[i])
  }

  // ---- The invariant

  ghost predicate CountsSound(s: State) {
    forall r: Row :: s.hot[r] <= s.arrived[r] && Copies(s.lake, r) <= s.arrived[r]
  }

  ghost predicate PlanSpares(s: State) {
    !s.phase.Idle? ==>
      var todo := s.phase.todo;
      && todo != []
      && (forall i, j :: 0 <= i < j < |todo| ==> todo[i].end <= todo[j].start)
      && (forall i :: 0 <= i < |todo| ==> Spares(s, todo[i]))
  }

  /** The rows in hand are the current window's, and may be filed. */
  ghost predicate MayBeFiled(s: State, rows: multiset<Row>) {
    && !s.phase.Idle? && s.phase.todo != []
    && forall r: Row :: r in rows ==>
         && s.phase.todo[0].Contains(r.ts)
         && CopiesExcept(s.lake, KeyOf(s.phase.todo[0]), r) + rows[r] <= s.arrived[r]
  }

  ghost predicate HandSpares(s: State) {
    && (s.phase.Streamed? ==> MayBeFiled(s, multiset(Flatten(s.phase.batches))))
    && (s.phase.Verified? ==> MayBeFiled(s, multiset(s.phase.file)))
  }

  ghost predicate Once(s: State) {
    CountsSound(s) && PlanSpares(s) && HandSpares(s)
  }

  // ---- Each step keeps it

  /** More arrivals, at least as many as the table has grown by. */
  lemma EnvironmentKeepsOnce(s: State, t: State)
    requires Once(s)
    requires t.phase == s.phase && t.lake == s.lake
    requires forall r: Row :: t.arrived[r] >= s.arrived[r] && t.hot[r] + s.arrived[r] <= s.hot[r] + t.arrived[r]
    ensures Once(t)
  {
    hide Copies, KeyOf, Flatten;
    if !s.phase.Idle? {
      forall i | 0 <= i < |s.phase.todo|
        ensures Spares(t, t.phase.todo[i])
      {
        assert Spares(s, s.phase.todo[i]);
      }
    }
  }

  /** Only the phase changes, within the plan. */
  lemma PhaseKeepsOnce(s: State, t: State)
    requires Once(s) && t == s.(phase := t.phase)
    requires t.phase.Idle? || (!s.phase.Idle? && t.phase.todo == s.phase.todo)
    requires HandSpares(t)
    ensures Once(t)
  {
    hide Copies, KeyOf, Flatten, HandSpares;
    if !t.phase.Idle? {
      forall i | 0 <= i < |t.phase.todo|
        ensures Spares(t, t.phase.todo[i])
      {
        assert Spares(s, s.phase.todo[i]);
      }
    }
  }

  lemma StartKeepsOnce(s: State, oldest: Option<Instant>, maxWindows: int)
    requires Once(s) && Enabled(s, Start(oldest, maxWindows)) && StartsSparing(s, Start(oldest, maxWindows))
    ensures Once(Apply(s, Start(oldest, maxWindows)))
  {
    hide Copies, KeyOf, Highest, Planned, FloorSecond;
    var t := Apply(s, Start(oldest, maxWindows));
    var todo := Planned(s.log, oldest, s.Horizon(), maxWindows);
    PlannedInOrder(s.log, oldest, s.Horizon(), maxWindows);
    forall i | 0 <= i < |todo|
      ensures Spares(t, todo[i])
    {
      assert Spares(s, todo[i]);
    }
  }

  lemma PlannedInOrder(log: seq<Instant>, oldest: Option<Instant>, horizon: Instant, maxWindows: int)
    ensures var ws := Planned(log, oldest, horizon, maxWindows);
            forall i, j :: 0 <= i < j < |ws| ==> ws[i].end <= ws[j].start
  {
    hide Highest, Planned;
    var ws := Planned(log, oldest, horizon, maxWindows);
    PlannedIsSound(log, oldest, horizon, maxWindows);
    forall i, j | 0 <= i < j < |ws|
      ensures ws[i].end <= ws[j].start
    {
      InOrder(ws, i, j);
    }
  }

  lemma {:induction false} InOrder(ws: seq<Window>, i: nat, j: nat)
    requires i < j < |ws|
    requires forall k :: 0 <= k < |ws| ==> ws[k].start < ws[k].end
    requires forall k :: 0 < k < |ws| ==> ws[k].start == ws[k - 1].end
    ensures ws[i].end <= ws[j].start
    decreases j - i
  {
    if i + 1 < j {
      InOrder(ws, i, j - 1);
    }
  }

  lemma StreamKeepsOnce(s: State, delivered: seq<seq<Row>>)
    requires Once(s) && Enabled(s, Stream(delivered))
    ensures Once(Apply(s, Stream(delivered)))
  {
    hide Copies, KeyOf, Flatten, Highest, FloorSecond;
    var rows, w := multiset(Flatten(delivered)), s.Current();
    assert Spares(s, w);
    forall r: Row | r in rows
      ensures w.Contains(r.ts) && CopiesExcept(s.lake, KeyOf(w), r) + rows[r] <= s.arrived[r]
    {
      assert rows[r] <= Within(s.hot, w)[r];
    }
    PhaseKeepsOnce(s, Apply(s, Stream(delivered)));
  }

  lemma VerifyKeepsOnce(s: State, readBack: seq<Row>, scan: seq<Row>)
    requires Once(s) && Enabled(s, Verify(readBack, scan))
    ensures Once(Apply(s, Verify(readBack, scan)))
  {
    hide Copies, KeyOf, Flatten, Highest, FloorSecond, Attempt, Within;
    var streamed, rows := multiset(Flatten(s.phase.batches)), multiset(readBack);
    forall r: Row | r in rows
      ensures s.Current().Contains(r.ts) && CopiesExcept(s.lake, KeyOf(s.Current()), r) + rows[r] <= s.arrived[r]
    {
      assert rows[r] <= streamed[r];
    }
    PhaseKeepsOnce(s, Apply(s, Verify(readBack, scan)));
  }

  /** Filing a window replaces its own file. */
  lemma FiledCopies(lake: map<FileKey, seq<Row>>, k: FileKey, file: seq<Row>, r: Row)
    ensures Copies(lake[k := file], r) == multiset(file)[r] + CopiesExcept(lake, k, r)
  {
    CopiesSplit(lake[k := file], r, k);
    assert lake[k := file] - {k} == lake - {k};
  }

  lemma ExceptIsFewer(lake: map<FileKey, seq<Row>>, k: FileKey, r: Row)
    ensures CopiesExcept(lake, k, r) <= Copies(lake, r)
  {
    FewerFilesFewerCopies(lake - {k}, lake, r);
  }

  /** A file without the row does not count, whichever other file is left out. */
  lemma FiledElsewhere(lake: map<FileKey, seq<Row>>, k: FileKey, file: seq<Row>, other: FileKey, r: Row)
    requires r !in multiset(file)
    ensures CopiesExcept(lake[k := file], other, r) <= CopiesExcept(lake, other, r)
  {
    hide Copies;
    if other == k {
      assert lake[k := file] - {k} == lake - {k};
    } else {
      assert lake[k := file] - {other} == (lake - {other})[k := file];
      FiledCopies(lake - {other}, k, file, r);
      ExceptIsFewer(lake - {other}, k, r);
    }
  }

  lemma RenameKeepsOnce(s: State)
    requires Once(s) && Enabled(s, Rename)
    ensures Once(Apply(s, Rename))
  {
    hide Copies, KeyOf, Highest, FloorSecond, CopiesExcept;
    var t, w, k, file := Apply(s, Rename), s.Current(), KeyOf(s.Current()), s.phase.file;
    forall r: Row
      ensures t.hot[r] <= t.arrived[r] && Copies(t.lake, r) <= t.arrived[r]
    {
      FiledCopies(s.lake, k, file, r);
      ExceptIsFewer(s.lake, k, r);
      assert r in multiset(file) || multiset(file)[r] == 0;
    }
    forall i | 0 <= i < |t.phase.todo|
      ensures Spares(t, t.phase.todo[i])
    {
      RenameSpares(s, i);
    }
  }

  lemma RenameSpares(s: State, i: nat)
    requires Once(s) && Enabled(s, Rename) && i < |s.phase.todo|
    ensures Spares(Apply(s, Rename), s.phase.todo[i])
  {
    hide Copies, KeyOf, Highest, FloorSecond, CopiesExcept;
    var t, k, file, v := Apply(s, Rename), KeyOf(s.Current()), s.phase.file, s.phase.todo[i];
    assert Spares(s, v);
    forall r: Row | v.Contains(r.ts)
      ensures CopiesExcept(t.lake, KeyOf(v), r) + t.hot[r] <= t.arrived[r]
    {
      if i == 0 {
        OwnFileIsLeftOut(s.lake, k, file, r);
      } else {
        assert s.phase.todo[0].end <= v.start;
        FiledElsewhere(s.lake, k, file, KeyOf(v), r);
      }
    }
  }

  lemma OwnFileIsLeftOut(lake: map<FileKey, seq<Row>>, k: FileKey, file: seq<Row>, r: Row)
    ensures CopiesExcept(lake[k := file], k, r) == CopiesExcept(lake, k, r)
  {
    assert lake[k := file] - {k} == lake - {k};
  }

  lemma AdvanceKeepsOnce(s: State)
    requires Once(s) && Enabled(s, Advance)
    ensures Once(Apply(s, Advance))
  {
    hide Copies, KeyOf, Highest, FloorSecond, Flatten, CopiesExcept;
    var t := Apply(s, Advance);
    if !t.phase.Idle? {
      forall i | 0 <= i < |t.phase.todo|
        ensures Spares(t, t.phase.todo[i])
      {
        assert t.phase.todo[i] == s.phase.todo[i + 1];
        assert Spares(s, s.phase.todo[i + 1]);
      }
    }
  }

  lemma ArriveOnce(s: State, row: Row)
    requires Once(s) && Enabled(s, Arrive(row))
    ensures Once(Apply(s, Arrive(row)))
  {
    hide Once, Highest, FloorSecond;
    EnvironmentKeepsOnce(s, Apply(s, Arrive(row)));
  }

  lemma ExpireOnce(s: State, row: Row)
    requires Once(s) && Enabled(s, Expire(row))
    ensures Once(Apply(s, Expire(row)))
  {
    hide Once, Highest, FloorSecond;
    EnvironmentKeepsOnce(s, Apply(s, Expire(row)));
  }

  lemma StepKeepsOnce(s: State, step: Step)
    requires Once(s) && Enabled(s, step) && StartsSparing(s, step)
    ensures Once(Apply(s, step))
  {
    hide Once, Apply, Enabled, StartsSparing;
    match step
    case Tick(_) => QuietKeepsOnce(s, step);
    case Arrive(row) => ArriveOnce(s, row);
    case Expire(row) => ExpireOnce(s, row);
    case MergeLog(_, _) => QuietKeepsOnce(s, step);
    case Start(oldest, maxWindows) => StartKeepsOnce(s, oldest, maxWindows);
    case Count => CountKeepsOnce(s);
    case Stream(delivered) => StreamKeepsOnce(s, delivered);
    case Verify(readBack, scan) => VerifyKeepsOnce(s, readBack, scan);
    case Rename => RenameKeepsOnce(s);
    case Advance => AdvanceKeepsOnce(s);
    case Crash => CrashKeepsOnce(s);
  }

  lemma QuietKeepsOnce(s: State, step: Step)
    requires Once(s) && Enabled(s, step) && (step.Tick? || step.MergeLog?)
    ensures Once(Apply(s, step))
  {
    hide Once, Highest, FloorSecond;
    EnvironmentKeepsOnce(s, Apply(s, step));
  }

  lemma CountKeepsOnce(s: State)
    requires Once(s) && Enabled(s, Count)
    ensures Once(Apply(s, Count))
  {
    hide Once, Highest, FloorSecond, Within;
    PhaseKeepsOnce(s, Apply(s, Count));
  }

  lemma CrashKeepsOnce(s: State)
    requires Once(s) && Enabled(s, Crash)
    ensures Once(Apply(s, Crash))
  {
    hide Once, Highest, FloorSecond;
    PhaseKeepsOnce(s, Apply(s, Crash));
  }

  lemma {:induction false} RunKeepsOnce(s: State, steps: seq<Step>)
    requires Once(s) && Follows(s, steps, StartsSparing)
    ensures Once(Run(s, steps))
    decreases steps
  {
    hide Once, Apply, Enabled, StartsSparing;
    if steps != [] {
      StepKeepsOnce(s, steps[0]);
      RunKeepsOnce(Apply(s, steps[0]), steps[1..]);
    }
  }

  /**
   No row is filed twice. Over every interleaving, crashes anywhere, in which each run that starts
   would file none of its rows once too often from the table and the lake as it finds them, no row
   is in the lake more often than it arrived.
   */
  lemma NoRowIsFiledTwice(lag: Duration, begin: Instant, steps: seq<Step>, r: Row)
    requires Follows(Init(lag, begin), steps, StartsSparing)
    ensures var s := Run(Init(lag, begin), steps); Copies(s.lake, r) <= s.arrived[r]
  {
    hide Apply, Enabled, StartsSparing;
    assert Once(Init(lag, begin));
    RunKeepsOnce(Init(lag, begin), steps);
  }

  ghost predicate HealthyAndSparing(s: State, step: Step) {
    Healthy(s, step) && StartsSparing(s, step)
  }

  lemma {:induction false} Weaken(
    s: State, steps: seq<Step>, p: (State, Step) -> bool, q: (State, Step) -> bool)
    requires Follows(s, steps, p) && forall t, step :: p(t, step) ==> q(t, step)
    ensures Follows(s, steps, q)
    decreases steps
  {
    if steps != [] {
      Weaken(Apply(s, steps[0]), steps[1..], p, q);
    }
  }

  /**
   Exact copy. When both sets of conditions hold and every row arrived within the lag margin, the
   lake holds every row below the watermark exactly as often as it arrived.
   */
  lemma LakeIsAnExactCopy(lag: Duration, begin: Instant, steps: seq<Step>, r: Row)
    requires Follows(Init(lag, begin), steps, HealthyAndSparing)
    requires Run(Init(lag, begin), steps).punctual == Run(Init(lag, begin), steps).arrived
    ensures var s := Run(Init(lag, begin), steps);
            !s.AtOrAbove(r.ts) ==> Copies(s.lake, r) == s.arrived[r]
  {
    hide Apply, Enabled, StartsSparing, Healthy, Copies;
    var s0 := Init(lag, begin);
    var s := Run(s0, steps);
    Weaken(s0, steps, HealthyAndSparing, StartsSparing);
    Weaken(s0, steps, HealthyAndSparing, Healthy);
    NoRowIsFiledTwice(lag, begin, steps, r);
    InitHolds(lag, begin);
    HealthyRunLosesNothing(s0, steps);
    if !s.AtOrAbove(r.ts) {
      HeldCopiesCount(s, r);
      FewerFilesFewerCopies(CommittedFiles(s), s.lake, r);
    }
  }

  // ---- The condition is exact

  ghost function Listing(m: multiset<Row>): (rows: seq<Row>)
    ensures multiset(rows) == m
    decreases |m|
  {
    if m == multiset{} then []
    else
      var r :| r in m;
      [r] + Listing(m - multiset{r})
  }

  /** A faithful view of every window of the table. */
  ghost function Seen(hot: multiset<Row>): Window -> Observation {
    (w: Window) => Faithful(Listing(Within(hot, w)))
  }

  lemma SeenIsFaithful(hot: multiset<Row>, w: Window)
    ensures var o := Seen(hot)(w);
            && Sees(hot, w, o) && Attempt(o).Ok()
            && (Within(hot, w) != multiset{} ==> Attempt(o).Commits() && multiset(o.readBack) == Within(hot, w))
  {
    hide Within, FingerprintOf;
    var rows := Listing(Within(hot, w));
    if rows == [] {
      assert Flatten([rows][1..]) == [];
      SeqSize(rows);
    } else {
      assert rows[0] in multiset(rows);
      FaithfulCommits(hot, w, rows);
    }
  }

  lemma {:induction false} MoreCopies(small: map<FileKey, seq<Row>>, large: map<FileKey, seq<Row>>, r: Row)
    requires forall k :: k in small && r in small[k] ==> k in large && large[k] == small[k]
    ensures Copies(small, r) <= Copies(large, r)
    decreases |small|
  {
    if k :| k in small && r in small[k] {
      CopiesSplit(small, r, k);
      CopiesSplit(large, r, k);
      MoreCopies(small - {k}, large - {k}, r);
    } else {
      CopiesElsewhere(small, r);
    }
  }

  /** The planned windows, to the second, and their files. */
  lemma PlannedFiles(s: State, oldest: Option<Instant>, maxWindows: int)
    requires WholeSecond(s.lag)
    ensures var ws := Planned(s.log, oldest, s.Horizon(), maxWindows);
            && (forall i :: 0 <= i < |ws| ==>
                  ws[i].start < ws[i].end && KeyOf(ws[i]) == FileKey(FloorSecond(ws[i].start), ws[i].end))
            && (forall i :: 0 < i < |ws| ==> FloorSecond(ws[i].start) == ws[i].start)
            && DistinctKeys(ws)
  {
    hide Highest, Planned;
    var ws := Planned(s.log, oldest, s.Horizon(), maxWindows);
    HorizonIsWhole(s);
    PlannedIsSound(s.log, oldest, s.Horizon(), maxWindows);
    PlannedInOrder(s.log, oldest, s.Horizon(), maxWindows);
    forall i | 0 <= i < |ws|
      ensures KeyOf(ws[i]) == FileKey(FloorSecond(ws[i].start), ws[i].end)
      ensures i > 0 ==> FloorSecond(ws[i].start) == ws[i].start
    {
      PlannedIsExact(s.log, oldest, s.Horizon(), maxWindows, i);
      FloorSecondBounds(ws[i].end);
      FloorSecondBounds(ws[i].start);
    }
    forall i, j | 0 <= i < j < |ws|
      ensures KeyOf(ws[i]) != KeyOf(ws[j])
    {
      assert ws[i].end <= ws[j].start < ws[j].end;
    }
  }

  /** A file that holds a row of window i and is not its own is no planned window's. */
  lemma NotPlanned(s: State, oldest: Option<Instant>, maxWindows: int, i: nat, k: FileKey, r: Row)
    requires WholeSecond(s.lag) && FilesSound(s)
    requires i < |Planned(s.log, oldest, s.Horizon(), maxWindows)|
    requires var ws := Planned(s.log, oldest, s.Horizon(), maxWindows); ws[i].Contains(r.ts) && k != KeyOf(ws[i])
    requires k in s.lake && r in s.lake[k]
    ensures forall j :: 0 <= j < |Planned(s.log, oldest, s.Horizon(), maxWindows)| ==>
                          KeyOf(Planned(s.log, oldest, s.Horizon(), maxWindows)[j]) != k
  {
    hide Highest, Planned, KeyOf, FloorSecond;
    var ws := Planned(s.log, oldest, s.Horizon(), maxWindows);
    PlannedFiles(s, oldest, maxWindows);
    PlannedInOrder(s.log, oldest, s.Horizon(), maxWindows);
    assert r in multiset(s.lake[k]);
    forall j | 0 <= j < |ws|
      ensures KeyOf(ws[j]) != k
    {
      assert i < j || j < i || i == j;
    }
  }

  /** Undisturbed, a run files what the table holds in every planned window's own file. */
  lemma RunFilesTheTable(s: State, oldest: Option<Instant>, maxWindows: int, p: (State, Step) -> bool)
    returns (steps: seq<Step>)
    requires s.phase.Idle? && Enabled(s, Start(oldest, maxWindows)) && WholeSecond(s.lag)
    requires Planned(s.log, oldest, s.Horizon(), maxWindows) != []
    requires forall t, step: Step :: ExportAction(step) ==> p(t, step)
    ensures Follows(Apply(s, Start(oldest, maxWindows)), steps, p)
    ensures var t := Run(Apply(s, Start(oldest, maxWindows)), steps);
            && t.arrived == s.arrived
            && Placed(s.lake, t.lake, Planned(s.log, oldest, s.Horizon(), maxWindows), Seen(s.hot))
  {
    hide Highest, Planned, KeyOf, FloorSecond, Sees, Attempt, CommittedAll, Marks, Completed, Seen, Placed, DistinctKeys;
    var ws := Planned(s.log, oldest, s.Horizon(), maxWindows);
    var started := Apply(s, Start(oldest, maxWindows));
    forall w
      ensures Sees(s.hot, w, Seen(s.hot)(w)) && Attempt(Seen(s.hot)(w)).Ok()
    {
      SeenIsFaithful(s.hot, w);
    }
    assert started == s.(phase := Ready(ws));
    steps := TodoIsProtocol(started, Seen(s.hot), p);
    CompletedIsUnique(ws, Seen(s.hot), |ws|);
    assert ws[..|ws|] == ws;
    PlannedFiles(s, oldest, maxWindows);
    CommittedAllPlaces(s.lake, ws, Seen(s.hot));
  }

  /** Where the condition fails for a row, that run files it once too often. */
  lemma UnsparedRowIsFiledTwice(
    s: State, oldest: Option<Instant>, maxWindows: int, i: nat, r: Row, p: (State, Step) -> bool)
    returns (steps: seq<Step>)
    requires s.phase.Idle? && Enabled(s, Start(oldest, maxWindows)) && WholeSecond(s.lag)
    requires CountsSound(s) && FilesSound(s) && i < |Planned(s.log, oldest, s.Horizon(), maxWindows)|
    requires var w := Planned(s.log, oldest, s.Horizon(), maxWindows)[i];
             w.Contains(r.ts) && CopiesExcept(s.lake, KeyOf(w), r) + s.hot[r] > s.arrived[r]
    requires forall t, step: Step :: ExportAction(step) ==> p(t, step)
    ensures Follows(Apply(s, Start(oldest, maxWindows)), steps, p)
    ensures var t := Run(Apply(s, Start(oldest, maxWindows)), steps); Copies(t.lake, r) > t.arrived[r]
  {
    hide Highest, Planned, KeyOf, FloorSecond, Copies, Enabled, Apply, Follows, Run, FilesSound, Seen, Attempt;
    var ws := Planned(s.log, oldest, s.Horizon(), maxWindows);
    var w, k := ws[i], KeyOf(ws[i]);
    steps := RunFilesTheTable(s, oldest, maxWindows, p);
    var t := Run(Apply(s, Start(oldest, maxWindows)), steps);
    ExceptIsFewer(s.lake, k, r);
    assert s.hot[r] > 0 && Within(s.hot, w)[r] == s.hot[r];
    SeenIsFaithful(s.hot, w);
    assert k in t.lake && multiset(t.lake[k])[r] == s.hot[r];
    forall j | j in s.lake - {k} && r in (s.lake - {k})[j]
      ensures j in t.lake - {k} && t.lake[j] == s.lake[j]
    {
      NotPlanned(s, oldest, maxWindows, i, j, r);
    }
    MoreCopies(s.lake - {k}, t.lake - {k}, r);
    CopiesSplit(t.lake, r, k);
  }

  // ---- Files hold rows of their own ranges in every run

  ghost predicate Ranged(s: State) {
    FilesSound(s) && HandSound(s) && PlanExact(s) && WholeSeconds(s)
  }

  /** A step that leaves the lake alone, and plan and hand sound. */
  lemma SameLakeKeepsRanges(s: State, t: State)
    requires Ranged(s) && t.lake == s.lake && forall r: Row :: t.arrived[r] >= s.arrived[r]
    requires HandSound(t) && PlanExact(t) && WholeSeconds(t)
    ensures Ranged(t)
  {
    hide HandSound, PlanExact, WholeSeconds;
  }

  lemma EnvironmentKeepsRanges(s: State, step: Step)
    requires Ranged(s) && Enabled(s, step) && OnlyEnvironment(s, step)
    ensures Ranged(Apply(s, step))
  {
    hide Highest, FloorSecond, FilesSound, PlanExact, WholeSecond, HandSound;
    var t := Apply(s, step);
    EnvironmentStep(s, step);
    TableWithinArrivals(s, step);
    EnvironmentKeepsPlan(s, t);
    SameLakeKeepsRanges(s, t);
  }

  lemma TableWithinArrivals(s: State, step: Step)
    requires HandSound(s) && Enabled(s, step) && OnlyEnvironment(s, step)
    ensures var t := Apply(s, step);
            forall r: Row :: t.arrived[r] >= s.arrived[r] && t.hot[r] <= t.arrived[r]
  {
    hide Highest, FloorSecond, Flatten;
  }

  lemma StartKeepsRanges(s: State, oldest: Option<Instant>, maxWindows: int)
    requires Ranged(s) && Enabled(s, Start(oldest, maxWindows))
    ensures Ranged(Apply(s, Start(oldest, maxWindows)))
  {
    hide Highest, FloorSecond, FilesSound, PlanExact, WholeSecond, Planned;
    StartPlansExactly(s, oldest, maxWindows);
    SameLakeKeepsRanges(s, Apply(s, Start(oldest, maxWindows)));
  }

  lemma AttemptKeepsRanges(s: State, step: Step)
    requires Ranged(s) && Enabled(s, step) && (step.Count? || step.Stream? || step.Verify? || step.Crash?)
    ensures Ranged(Apply(s, step))
  {
    hide Highest, FloorSecond, FilesSound, WholeSecond, Within, Attempt, FloorHour, HandSound, Flatten;
    if step.Crash? {
      NothingInHand(s);
    } else {
      AttemptKeepsHand(s, step);
    }
    SameLakeKeepsRanges(s, Apply(s, step));
  }

  lemma NothingInHand(s: State)
    requires HandSound(s) && Enabled(s, Crash)
    ensures HandSound(Apply(s, Crash))
  {
  }

  lemma RenameKeepsRanges(s: State)
    requires Ranged(s) && Enabled(s, Rename)
    ensures Ranged(Apply(s, Rename))
  {
    hide Highest, FloorHour, Flatten;
    var w := s.Current();
    FloorSecondBounds(w.start);
    FloorSecondBounds(w.end);
  }

  lemma AdvanceKeepsRanges(s: State)
    requires Ranged(s) && Enabled(s, Advance)
    ensures Ranged(Apply(s, Advance))
  {
    hide Highest, FloorHour, Flatten, FilesSound, HandSound;
    var t := Apply(s, Advance);
    var w := s.Current();
    FloorSecondBounds(w.end);
    HighestOfAppend(s.log, FloorSecond(w.end));
    AdvanceHoldsNothing(s);
    if !t.phase.Idle? {
      assert s.phase.todo[1].start == w.end;
      assert forall i :: 0 <= i < |t.phase.todo| ==> t.phase.todo[i] == s.phase.todo[i + 1];
    }
    SameLakeKeepsRanges(s, t);
  }

  lemma AdvanceHoldsNothing(s: State)
    requires HandSound(s) && Enabled(s, Advance)
    ensures HandSound(Apply(s, Advance))
  {
    hide Highest, FloorSecond;
  }

  lemma StepKeepsRanges(s: State, step: Step)
    requires Ranged(s) && Enabled(s, step)
    ensures Ranged(Apply(s, step))
  {
    hide Ranged, Apply, Enabled;
    match step
    case Tick(_) => EnvironmentKeepsRanges(s, step);
    case Arrive(_) => EnvironmentKeepsRanges(s, step);
    case Expire(_) => EnvironmentKeepsRanges(s, step);
    case MergeLog(_, _) => EnvironmentKeepsRanges(s, step);
    case Start(oldest, maxWindows) => StartKeepsRanges(s, oldest, maxWindows);
    case Count => AttemptKeepsRanges(s, step);
    case Stream(_) => AttemptKeepsRanges(s, step);
    case Verify(_, _) => AttemptKeepsRanges(s, step);
    case Rename => RenameKeepsRanges(s);
    case Advance => AdvanceKeepsRanges(s);
    case Crash => AttemptKeepsRanges(s, step);
  }

  lemma {:induction false} RunKeepsRanges(s: State, steps: seq<Step>, p: (State, Step) -> bool)
    requires Ranged(s) && Follows(s, steps, p)
    ensures Ranged(Run(s, steps))
    decreases steps
  {
    hide Ranged, Apply, Enabled;
    if steps != [] {
      StepKeepsRanges(s, steps[0]);
      RunKeepsRanges(Apply(s, steps[0]), steps[1..], p);
    }
  }

  /**
   Exactly when a run may start. With a whole-second lag margin, after any run in which every start
   spared what was filed already, and whatever files crashes have left: every continuation of the next
   start files each row at most as often as it arrived if and only if that start spares it too.
   */
  lemma StartIsHarmlessExactly(
    lag: Duration, begin: Instant, before: seq<Step>, oldest: Option<Instant>, maxWindows: int)
    requires WholeSecond(lag) && Follows(Init(lag, begin), before, StartsSparing)
    requires Enabled(Run(Init(lag, begin), before), Start(oldest, maxWindows))
    ensures var s := Run(Init(lag, begin), before);
            StartsSparing(s, Start(oldest, maxWindows))
            <==> forall steps, r :: Follows(Apply(s, Start(oldest, maxWindows)), steps, StartsSparing) ==>
                                      var t := Run(Apply(s, Start(oldest, maxWindows)), steps);
                                      Copies(t.lake, r) <= t.arrived[r]
  {
    hide Highest, Planned, KeyOf, FloorSecond, Copies, Enabled, Apply, Follows, Run, FilesSound, CountsSound;
    var s0, start := Init(lag, begin), Start(oldest, maxWindows);
    var s := Run(s0, before);
    StartState(lag, begin);
    RunKeepsOnce(s0, before);
    RunKeepsRanges(s0, before, StartsSparing);
    StartNeedsIdle(s, oldest, maxWindows);
    if StartsSparing(s, start) {
      StepKeepsOnce(s, start);
      forall steps, r | Follows(Apply(s, start), steps, StartsSparing)
        ensures var t := Run(Apply(s, start), steps); Copies(t.lake, r) <= t.arrived[r]
      {
        RunKeepsOnce(Apply(s, start), steps);
        OnceCounts(Run(Apply(s, start), steps), r);
      }
    } else {
      RangedMeans(s);
      var i, r := UnsparedRow(s, oldest, maxWindows);
      OnceCounts(s, r);
      var steps := UnsparedRowIsFiledTwice(s, oldest, maxWindows, i, r, StartsSparing);
    }
  }

  lemma StartState(lag: Duration, begin: Instant)
    requires WholeSecond(lag)
    ensures Once(Init(lag, begin)) && Ranged(Init(lag, begin))
  {
  }

  lemma StartNeedsIdle(s: State, oldest: Option<Instant>, maxWindows: int)
    requires Enabled(s, Start(oldest, maxWindows))
    ensures s.phase.Idle?
  {
    hide Highest;
  }

  lemma RangedMeans(s: State)
    requires Ranged(s)
    ensures FilesSound(s) && WholeSecond(s.lag)
  {
    hide FilesSound, HandSound, PlanExact;
  }

  lemma UnsparedRow(s: State, oldest: Option<Instant>, maxWindows: int) returns (i: nat, r: Row)
    requires !StartsSparing(s, Start(oldest, maxWindows))
    ensures i < |Planned(s.log, oldest, s.Horizon(), maxWindows)|
    ensures var w := Planned(s.log, oldest, s.Horizon(), maxWindows)[i];
            w.Contains(r.ts) && CopiesExcept(s.lake, KeyOf(w), r) + s.hot[r] > s.arrived[r]
  {
    hide Highest, Planned, KeyOf, Copies, CopiesExcept;
    var ws := Planned(s.log, oldest, s.Horizon(), maxWindows);
    i :| 0 <= i < |ws| && !Spares(s, ws[i]);
    r :| ws[i].Contains(r.ts) && CopiesExcept(s.lake, KeyOf(ws[i]), r) + s.hot[r] > s.arrived[r];
  }

  lemma OnceCounts(s: State, r: Row)
    requires Once(s)
    ensures CountsSound(s) && Copies(s.lake, r) <= s.arrived[r]
  {
  }

  // ---- Starts that spare

  /** It is enough that no row of a planned window is both in the table and in some other file. */
  lemma HotRowsNotFiledElsewhere(s: State, w: Window)
    requires CountsSound(s)
    requires forall r: Row, k :: w.Contains(r.ts) && r in s.hot && k in s.lake && k != KeyOf(w) ==> r !in s.lake[k]
    ensures Spares(s, w)
  {
    hide Copies, KeyOf;
    forall r: Row | w.Contains(r.ts)
      ensures CopiesExcept(s.lake, KeyOf(w), r) + s.hot[r] <= s.arrived[r]
    {
      if r in s.hot {
        CopiesElsewhere(s.lake - {KeyOf(w)}, r);
      } else {
        ExceptIsFewer(s.lake, KeyOf(w), r);
      }
    }
  }

  lemma FilesHoldTheirRange(s: State)
    requires FilesSound(s)
    ensures forall k, r: Row :: k in s.lake && r in s.lake[k] ==> k.start <= r.ts < k.end
  {
    forall k, r: Row | k in s.lake && r in s.lake[k]
      ensures k.start <= r.ts < k.end
    {
      assert r in multiset(s.lake[k]);
    }
  }

  /** So a run that finds no file above the watermark but that of its first window spares what is filed. */
  lemma RestartAtTheFileSpares(s: State, oldest: Option<Instant>, maxWindows: int)
    requires Tidy(s) && CountsSound(s) && Enabled(s, Start(oldest, maxWindows))
    requires RestartsAtTheFile(s, Start(oldest, maxWindows))
    ensures StartsSparing(s, Start(oldest, maxWindows))
  {
    hide Highest, Planned, FloorSecond, FloorHour, Copies, Spares, CountsSound, KeyOf;
    hide FilesDisjoint, FilesPlaced, HandSound, PlanExact;
    var ws := Planned(s.log, oldest, s.Horizon(), maxWindows);
    PlannedFiles(s, oldest, maxWindows);
    PlannedInOrder(s.log, oldest, s.Horizon(), maxWindows);
    PlannedIsSound(s.log, oldest, s.Horizon(), maxWindows);
    FilesHoldTheirRange(s);
    forall i | 0 <= i < |ws|
      ensures Spares(s, ws[i])
    {
      forall r: Row, k | ws[i].Contains(r.ts) && r in s.hot && k in s.lake && k != KeyOf(ws[i])
        ensures r !in s.lake[k]
      {
        assert i > 0 ==> ws[0].end <= ws[i].start;
      }
      HotRowsNotFiledElsewhere(s, ws[i]);
    }
  }
}
