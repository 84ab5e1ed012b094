/**
 The export protocol as a state machine. Rows arrive, age out of the hot tier and are exported by
 a run that may crash between any two of its actions; a step names everything its environment
 decides.
 */
module Protocol {
  import opened ExportCore
  import opened Exporter
  import opened Planner
  import opened Timeline
  import opened Wrappers

  /** How long the hot tier keeps a row. */
  const TTL_HOURS := 48
  const TTL: Duration := 48 * HOUR

  /** Where the exporter is. Except when idle, the first window of `todo` is being exported. */
  datatype Phase =
    | Idle
    | Ready(todo: seq<Window>)
    | Counted(todo: seq<Window>, counted: nat)
    | Streamed(todo: seq<Window>, counted: nat, batches: seq<seq<Row>>)
    | Verified(todo: seq<Window>, file: seq<Row>)
    | Settled(todo: seq<Window>, renamed: bool)

  /**
   `arrived`, `punctual` and `lost` are history: every row ever inserted, those inserted within the
   lag margin of their timestamp, and those the TTL removed before the watermark had passed them.
   */
  datatype State = State(
    lag: Duration,
    now: Instant,
    hot: multiset<Row>,
    log: seq<Instant>,
    lake: map<FileKey, seq<Row>>,
    phase: Phase,
    arrived: multiset<Row>,
    punctual: multiset<Row>,
    lost: multiset<Row>)
  {
    function Watermark(): Option<Instant> {
      Highest(log)
    }

    /** The database's `now()` has whole seconds. */
    function Horizon(): Instant {
      FloorSecond(now) - lag
    }

    predicate AtOrAbove(t: Instant) {
      Watermark().None? || t >= Watermark().value
    }

    function Current(): Window
      requires !phase.Idle? && phase.todo != []
    {
      phase.todo[0]
    }
  }

  datatype Step =
    | Tick(to: Instant)
    | Arrive(row: Row)
    | Expire(row: Row)
    | MergeLog(drop: nat, keep: nat)
    | Start(oldest: Option<Instant>, maxWindows: int)
    | Count
    | Stream(delivered: seq<seq<Row>>)
    | Verify(readBack: seq<Row>, scan: seq<Row>)
    | Rename
    | Advance
    | Crash

  function Init(lag: Duration, now: Instant): State {
    State(lag, now, multiset{}, [], map[], Idle, multiset{}, multiset{}, multiset{})
  }

  /** `min(ts)` over the hot tier. */
  ghost predicate IsOldest(hot: multiset<Row>, oldest: Option<Instant>) {
    match oldest
    case None => hot == multiset{}
    case Some(t) => (exists r :: r in hot && r.ts == t) && (forall r :: r in hot ==> r.ts >= t)
  }

  ghost predicate Enabled(s: State, step: Step) {
    match step
    case Tick(to) => to >= s.now
    case Arrive(_) => true
    case Expire(r) => r in s.hot && FloorSecond(r.ts) + TTL <= s.now
    case MergeLog(drop, keep) => drop < |s.log| && keep < |s.log| && drop != keep && s.log[drop] <= s.log[keep]
    case Start(oldest, _) => s.phase.Idle? && (s.Watermark().None? ==> IsOldest(s.hot, oldest))
    case Count => s.phase.Ready? && s.phase.todo != []
    case Stream(delivered) =>
      s.phase.Counted? && s.phase.todo != [] && multiset(Flatten(delivered)) <= Within(s.hot, s.Current())
    case Verify(readBack, scan) =>
      && s.phase.Streamed? && s.phase.todo != []
      && multiset(readBack) <= multiset(Flatten(s.phase.batches))
      && multiset(scan) == Within(s.hot, s.Current())
    case Rename => s.phase.Verified? && s.phase.todo != []
    case Advance => s.phase.Settled? && s.phase.todo != []
    case Crash => !s.phase.Idle?
  }

  function ReadyFor(todo: seq<Window>): Phase {
    if todo == [] then Idle else Ready(todo)
  }

  /** The result the exporter has in hand when it compares fingerprints. */
  function Verdict(p: Phase, readBack: seq<Row>, scan: seq<Row>): WindowResult
    requires p.Streamed?
  {
    Attempt(Observation(p.counted, p.batches, readBack, scan))
  }

  ghost function Apply(s: State, step: Step): State
    requires Enabled(s, step)
  {
    match step
    case Tick(to) => s.(now := to)
    case Arrive(r) =>
      s.(hot := s.hot + multiset{r},
         arrived := s.arrived + multiset{r},
         punctual := if s.now - r.ts <= s.lag then s.punctual + multiset{r} else s.punctual)
    case Expire(r) =>
      s.(hot := s.hot - multiset{r},
         lost := if s.AtOrAbove(r.ts) then s.lost + multiset{r} else s.lost)
    case MergeLog(drop, _) => s.(log := s.log[..drop] + s.log[drop + 1..])
    case Start(oldest, maxWindows) =>
      s.(phase := ReadyFor(Planned(s.log, oldest, s.Horizon(), maxWindows)))
    case Count =>
      var n := |Within(s.hot, s.Current())|;
      s.(phase := if n == 0 then Settled(s.phase.todo, false) else Counted(s.phase.todo, n))
    case Stream(delivered) =>
      s.(phase := if Flatten(delivered) == [] then Settled(s.phase.todo, false)
                  else Streamed(s.phase.todo, s.phase.counted, delivered))
    case Verify(readBack, scan) =>
      s.(phase := if Verdict(s.phase, readBack, scan).Ok() then Verified(s.phase.todo, readBack) else Idle)
    case Rename =>
      s.(lake := s.lake[KeyOf(s.Current()) := s.phase.file], phase := Settled(s.phase.todo, true))
    case Advance =>
      s.(log := s.log + [FloorSecond(s.Current().end)], phase := ReadyFor(s.phase.todo[1..]))
    case Crash => s.(phase := Idle)
  }

  // ---- Runs

  /** Every step of the run was possible when it was taken, and satisfied p. */
  ghost predicate Follows(s: State, steps: seq<Step>, p: (State, Step) -> bool)
    decreases steps
  {
    steps == [] || (
      && Enabled(s, steps[0]) && p(s, steps[0])
      && Follows(Apply(s, steps[0]), steps[1..], p))
  }

  /** The state a run ends in. */
  ghost function Run(s: State, steps: seq<Step>): State
    decreases steps
  {
    if steps == [] || !Enabled(s, steps[0]) then s else Run(Apply(s, steps[0]), steps[1..])
  }

  // ---- Conditions on steps

  /** The exporter is at work on window w. */
  predicate Exporting(s: State, w: Window) {
    !s.phase.Idle? && s.phase.todo != [] && s.phase.todo[0] == w
  }

  /** A window that holds rows never streams zero of them. */
  ghost predicate StreamDelivers(s: State, step: Step) {
    step.Stream? && Flatten(step.delivered) == [] ==>
      forall w :: Exporting(s, w) ==> Within(s.hot, w) == multiset{}
  }

  /** The stream has brought every row that is owed, or so few or many rows that the attempt cannot commit. */
  ghost predicate StreamKeepsUp(s: State)
    requires s.phase.Streamed? && s.phase.todo != []
  {
    var streamed := Flatten(s.phase.batches);
    || |streamed| != s.phase.counted
    || forall r: Row :: s.Current().Contains(r.ts) ==> multiset(streamed)[r] + s.lost[r] >= s.punctual[r]
  }

  /**
   When the stream has not kept up, the TTL takes no streamed row of which no other copy is left
   before the fingerprint.
   */
  ghost predicate ExpirySparesTheStream(s: State, step: Step) {
    step.Expire? && s.phase.Streamed? && s.phase.todo != [] ==>
      StreamKeepsUp(s) || multiset(Flatten(s.phase.batches))[step.row] < s.hot[step.row]
  }

  /** A run that plans anything finds no file above the watermark but that of its first window. */
  predicate RestartsAtTheFile(s: State, step: Step) {
    step.Start? ==>
      var todo := Planned(s.log, step.oldest, s.Horizon(), step.maxWindows);
      todo != [] ==>
        forall k :: k in s.lake ==> (s.Watermark().Some? && k.end <= s.Watermark().value) || k == KeyOf(todo[0])
  }

  // ---- Health

  /** What the health report reads. */
  datatype ExportHealth = ExportHealth(watermark: Option<Instant>, ttlHours: int, now: Instant, lakeRows: nat) {
    predicate WatermarkWithoutData() {
      watermark.Some? && lakeRows == 0
    }

    function HoursBehind(): real
      requires watermark.Some?
    {
      (now - watermark.value) as real / HOUR as real
    }

    predicate AtRisk() {
      WatermarkWithoutData() || watermark.None? || HoursBehind() > ttlHours as real * 0.75
    }
  }

  ghost function LakeRows(lake: map<FileKey, seq<Row>>): nat
    decreases |lake|
  {
    if lake == map[] then 0
    else
      var k :| k in lake;
      |lake[k]| + LakeRows(lake - {k})
  }

  /** The lake has no rows if and only if all its files are empty. */
  lemma {:induction false} NoLakeRows(lake: map<FileKey, seq<Row>>)
    ensures LakeRows(lake) == 0 <==> forall k :: k in lake ==> lake[k] == []
    decreases |lake|
  {
    if lake != map[] {
      var first :| first in lake && LakeRows(lake) == |lake[first]| + LakeRows(lake - {first});
      NoLakeRows(lake - {first});
      assert forall k :: k in lake ==> k == first || k in lake - {first};
    }
  }

  /** The report on a state, for the number of hours the settings take the TTL to be. */
  ghost function HealthOf(s: State, ttlHours: int): ExportHealth {
    ExportHealth(s.Watermark(), ttlHours, FloorSecond(s.now), LakeRows(s.lake))
  }

  /** The settings' TTL may be longer than the schema's, as long as the report warns before the schema's. */
  predicate WarnsInTime(ttlHours: int) {
    ttlHours as real * 0.75 < TTL_HOURS as real
  }

  /** Whenever the TTL removes a row, a health report that warns in time does not say at risk. */
  ghost predicate ExpiresInGoodHealth(s: State, step: Step) {
    step.Expire? ==> exists ttlHours :: WarnsInTime(ttlHours) && !HealthOf(s, ttlHours).AtRisk()
  }

  /** A clean report implies that a row old enough for the TTL lies below the watermark. */
  ghost predicate CleanReportIsSafe(s: State, row: Row, ttlHours: int) {
    FloorSecond(row.ts) + TTL <= s.now && !HealthOf(s, ttlHours).AtRisk() ==>
      s.Watermark().Some? && row.ts < s.Watermark().value
  }

  /** It does when the report warns in time. */
  lemma HealthyExpiryIsBelow(s: State, row: Row, ttlHours: int)
    requires WarnsInTime(ttlHours)
    ensures CleanReportIsSafe(s, row, ttlHours)
  {
    hide Highest, LakeRows;
    if FloorSecond(row.ts) + TTL <= s.now && !HealthOf(s, ttlHours).AtRisk() {
      FloorSecondBounds(row.ts);
      FloorSecondBounds(s.now);
      TtlOnTheSecond(row.ts, s.now);
      BehindByHours(FloorSecond(s.now) - s.Watermark().value, ttlHours);
    }
  }

  lemma TtlOnTheSecond(ts: Instant, now: Instant)
    requires FloorSecond(ts) + TTL <= now
    ensures FloorSecond(ts) + TTL <= FloorSecond(now)
  {
    FloorSecondMonotone(FloorSecond(ts) + TTL, now);
    assert TTL == 172800 * SECOND;
    assert FloorSecond(FloorSecond(ts) + TTL) == FloorSecond(ts) + TTL;
  }

  lemma BehindByHours(behind: int, ttlHours: int)
    requires behind as real / HOUR as real <= ttlHours as real * 0.75 && WarnsInTime(ttlHours)
    ensures behind <= TTL - SECOND
  {
    assert ttlHours <= 63;
    assert behind as real / HOUR as real <= 47.25;
    assert behind as real <= 47.25 * HOUR as real;
  }

  // ---- Copies in the lake

  /** How many copies of a row the lake holds, over all its files. */
  ghost function Copies(lake: map<FileKey, seq<Row>>, r: Row): nat
    decreases |lake|
  {
    if lake == map[] then 0
    else
      var k :| k in lake;
      multiset(lake[k])[r] + Copies(lake - {k}, r)
  }

  /** The files below the watermark. */
  ghost function CommittedFiles(s: State): map<FileKey, seq<Row>> {
    map k | k in s.lake && s.Watermark().Some? && k.end <= s.Watermark().value :: s.lake[k]
  }

  lemma {:induction false} CopiesSplit(lake: map<FileKey, seq<Row>>, r: Row, k: FileKey)
    requires k in lake
    ensures Copies(lake, r) == multiset(lake[k])[r] + Copies(lake - {k}, r)
    decreases |lake|
  {
    var first :| first in lake && Copies(lake, r) == multiset(lake[first])[r] + Copies(lake - {first}, r);
    if first != k {
      CopiesSplit(lake - {first}, r, k);
      assert lake - {first} - {k} == lake - {k} - {first};
      CopiesSplit(lake - {k}, r, first);
    }
  }

  lemma {:induction false} FewerFilesFewerCopies(small: map<FileKey, seq<Row>>, lake: map<FileKey, seq<Row>>, r: Row)
    requires small.Keys <= lake.Keys && forall k :: k in small ==> small[k] == lake[k]
    ensures Copies(small, r) <= Copies(lake, r)
    decreases |small|
  {
    if small != map[] {
      var k :| k in small;
      CopiesSplit(small, r, k);
      CopiesSplit(lake, r, k);
      FewerFilesFewerCopies(small - {k}, lake - {k}, r);
    }
  }

  /** Files of disjoint time ranges hold a row at most as often as one of them may. */
  lemma {:induction false} DisjointFilesHoldOnce(lake: map<FileKey, seq<Row>>, r: Row, limit: nat)
    requires forall k :: k in lake ==> multiset(lake[k])[r] <= limit
    requires forall k :: k in lake && r in multiset(lake[k]) ==> k.start <= r.ts < k.end
    requires forall j, k :: j in lake && k in lake && j != k ==> j.end <= k.start || k.end <= j.start
    ensures Copies(lake, r) <= limit
    decreases |lake|
  {
    if lake != map[] {
      var k :| k in lake;
      CopiesSplit(lake, r, k);
      if multiset(lake[k])[r] == 0 {
        DisjointFilesHoldOnce(lake - {k}, r, limit);
      } else {
        forall j | j in lake - {k}
          ensures multiset(lake[j])[r] <= 0
        {
          assert !(j.start <= r.ts < j.end);
        }
        DisjointFilesHoldOnce(lake - {k}, r, 0);
      }
    }
  }
}
