/** Exporting again after a rewind: when the old files are overwritten, and what the lake then holds. */
module Rewind {
  import opened ExportCore
  import opened Exporter
  import opened Planner
  import opened Protocol
  import opened Timeline
  import opened Wrappers

  type Lake = map<FileKey, seq<Row>>

  predicate Apart(j: FileKey, k: FileKey) {
    j.end <= k.start || k.end <= j.start
  }

  /** Files hold rows of their own ranges, and the ranges are disjoint. */
  ghost predicate SoundLake(lake: Lake) {
    && (forall k :: k in lake ==> k.start < k.end)
    && (forall k, r :: k in lake && r in lake[k] ==> k.start <= r.ts < k.end)
    && (forall j, k :: j in lake && k in lake && j != k ==> Apart(j, k))
  }

  /** What a run after the rewind plans. */
  function Replanned(to: Instant, horizon: Instant): seq<Window> {
    Plan(to, horizon, DEFAULT_WINDOW)
  }

  /** The file of some replanned window: it begins at the new watermark or on the hour, and ends where the plan would. */
  predicate IsReplanned(k: FileKey, to: Instant, horizon: Instant) {
    && to <= k.start < horizon && (k.start == to || k.start % HOUR == 0)
    && k.end == Min(FloorHour(k.start) + HOUR, horizon)
  }

  lemma WindowAndRest(to: Instant, horizon: Instant)
    requires to < horizon
    ensures var end := Min(FloorHour(to) + HOUR, horizon);
            to < end && Replanned(to, horizon) == [Window(to, end)] + Replanned(end, horizon)
  {
    HourlyEnd(to, horizon);
    HourParts(to);
  }

  /** No full hour lies strictly inside an hour. */
  lemma NoHourBetween(to: Instant, t: Instant)
    requires t % HOUR == 0 && to < t
    ensures FloorHour(to) + HOUR <= t
  {
    HourParts(to);
    if t < FloorHour(to) + HOUR {
      NotAFullHour(to / HOUR, t);
    }
  }

  lemma {:induction false} ReplannedExactly(to: Instant, horizon: Instant, k: FileKey)
    requires WholeSecond(to) && WholeSecond(horizon)
    ensures IsReplanned(k, to, horizon)
            <==> exists i :: 0 <= i < |Replanned(to, horizon)| && KeyOf(Replanned(to, horizon)[i]) == k
    decreases horizon - to
  {
    if to < horizon {
      hide FloorHour, Plan;
      var end := Min(FloorHour(to) + HOUR, horizon);
      var ws, rest := Replanned(to, horizon), Replanned(end, horizon);
      WindowAndRest(to, horizon);
      HourParts(to);
      WholeEnd(end, horizon);
      FloorSecondBounds(to);
      ReplannedExactly(end, horizon, k);
      IsReplannedStep(k, to, end, horizon);
      assert KeyOf(ws[0]) == FileKey(to, end);
      assert forall i :: 0 < i < |ws| ==> ws[i] == rest[i - 1];
      if IsReplanned(k, end, horizon) {
        var i :| 0 <= i < |rest| && KeyOf(rest[i]) == k;
        assert KeyOf(ws[i + 1]) == k;
      }
    }
  }

  lemma IsReplannedStep(k: FileKey, to: Instant, end: Instant, horizon: Instant)
    requires to < horizon && end == Min(FloorHour(to) + HOUR, horizon)
    ensures IsReplanned(k, to, horizon) <==> k == FileKey(to, end) || IsReplanned(k, end, horizon)
  {
    hide FloorHour;
    HourParts(to);
    if k.start % HOUR == 0 && to < k.start {
      NoHourBetween(to, k.start);
    }
  }

  // ---- Files and windows

  lemma ReplannedTiles(to: Instant, horizon: Instant, t: Instant)
    requires to < horizon && WholeSecond(to) && WholeSecond(horizon)
    ensures var ws := Replanned(to, horizon);
            && (to <= t < horizon <==> exists i :: 0 <= i < |ws| && ws[i].Contains(t))
            && (forall i, j :: 0 <= i < j < |ws| ==> ws[i].end <= ws[j].start)
            && (forall i :: 0 <= i < |ws| ==>
                  to <= ws[i].start < ws[i].end <= horizon && KeyOf(ws[i]) == FileKey(ws[i].start, ws[i].end))
  {
    hide Plan;
    var ws := Replanned(to, horizon);
    PlanTiles(to, horizon, DEFAULT_WINDOW);
    TilesCoverOnce(ws, to, horizon, t);
    forall i | 0 <= i < |ws|
      ensures KeyOf(ws[i]) == FileKey(ws[i].start, ws[i].end)
    {
      PlannedWindows(to, horizon, DEFAULT_WINDOW, i);
      WholeEnd(ws[i].end, horizon);
      if i > 0 {
        ReplanFromWindow(to, horizon, DEFAULT_WINDOW, i - 1);
        AbutsBefore(to, horizon, i);
        PlannedWindows(to, horizon, DEFAULT_WINDOW, i - 1);
        WholeEnd(ws[i - 1].end, horizon);
      } else {
        PlanBegins(to, horizon);
      }
      FloorSecondBounds(ws[i].start);
    }
  }

  lemma AbutsBefore(to: Instant, horizon: Instant, i: nat)
    requires 0 < i < |Replanned(to, horizon)|
    ensures Replanned(to, horizon)[i].start == Replanned(to, horizon)[i - 1].end
  {
    PlanAbuts(to, horizon, i);
  }

  /** Every file above the new watermark is one of the replanned windows' own. */
  predicate Coincide(lake: Lake, to: Instant, horizon: Instant) {
    forall k :: k in lake && k.end > to ==> IsReplanned(k, to, horizon)
  }

  /** A file that is not a replanned window's overlaps the one that holds its first instant above the rewind. */
  lemma OverlapsOne(k: FileKey, to: Instant, horizon: Instant) returns (i: nat)
    requires to < horizon && WholeSecond(to) && WholeSecond(horizon)
    requires k.start < k.end <= horizon && k.end > to && !IsReplanned(k, to, horizon)
    ensures i < |Replanned(to, horizon)|
    ensures k != KeyOf(Replanned(to, horizon)[i]) && !Apart(k, KeyOf(Replanned(to, horizon)[i]))
  {
    hide Plan;
    var ws := Replanned(to, horizon);
    var t := if k.start < to then to else k.start;
    ReplannedTiles(to, horizon, t);
    i :| 0 <= i < |ws| && ws[i].Contains(t);
    ReplannedExactly(to, horizon, k);
  }

  /**
   A rewind is safe exactly when the files coincide. The files of the windows planned again and the
   files already there overlap only where one overwrites the other if and only if every old file
   that ends above the new watermark is one that the plan produces again.
   */
  lemma RewindOverwritesExactly(lake: Lake, to: Instant, horizon: Instant)
    requires to < horizon && WholeSecond(to) && WholeSecond(horizon)
    requires forall k :: k in lake ==> k.start < k.end <= horizon
    ensures (forall k, i :: k in lake && 0 <= i < |Replanned(to, horizon)| ==>
               k == KeyOf(Replanned(to, horizon)[i]) || Apart(k, KeyOf(Replanned(to, horizon)[i])))
            <==> Coincide(lake, to, horizon)
  {
    hide Plan, IsReplanned, KeyOf;
    var ws := Replanned(to, horizon);
    ReplannedTiles(to, horizon, to);
    if Coincide(lake, to, horizon) {
      forall k, i | k in lake && 0 <= i < |ws|
        ensures k == KeyOf(ws[i]) || Apart(k, KeyOf(ws[i]))
      {
        if k.end > to {
          ReplannedExactly(to, horizon, k);
          var j :| 0 <= j < |ws| && KeyOf(ws[j]) == k;
          if i != j {
            assert ws[i].end <= ws[j].start || ws[j].end <= ws[i].start;
          }
        }
      }
    } else {
      var k :| k in lake && k.end > to && !IsReplanned(k, to, horizon);
      var i := OverlapsOne(k, to, horizon);
    }
  }

  // ---- Exporting the replanned windows

  /** An attempt that gets the window's rows across, when there are any. */
  ghost predicate Delivers(hot: multiset<Row>, w: Window, o: Observation) {
    && Attempt(o).Ok()
    && (Within(hot, w) != multiset{} ==> Attempt(o).Commits() && multiset(o.readBack) == Within(hot, w))
    && (Within(hot, w) == multiset{} ==> !Attempt(o).Commits())
  }

  predicate DistinctKeys(ws: seq<Window>) {
    forall i, j :: 0 <= i < j < |ws| ==> KeyOf(ws[i]) != KeyOf(ws[j])
  }

  /** Each committed window has its own file, and every other file is as it was. */
  ghost predicate Placed(lake: Lake, after: Lake, ws: seq<Window>, observe: Window -> Observation) {
    && (forall i :: 0 <= i < |ws| && Attempt(observe(ws[i])).Commits() ==>
          KeyOf(ws[i]) in after && after[KeyOf(ws[i])] == observe(ws[i]).readBack)
    && (forall k :: (forall i :: 0 <= i < |ws| && KeyOf(ws[i]) == k ==> !Attempt(observe(ws[i])).Commits()) ==>
          (k in after <==> k in lake) && (k in lake ==> after[k] == lake[k]))
  }

  lemma {:induction false} CommittedAllPlaces(lake: Lake, ws: seq<Window>, observe: Window -> Observation)
    requires DistinctKeys(ws)
    ensures Placed(lake, CommittedAll(lake, ws, observe), ws, observe)
    decreases |ws|
  {
    hide Attempt, KeyOf;
    if ws != [] {
      var init, last := ws[..|ws| - 1], ws[|ws| - 1];
      CommittedAllPlaces(lake, init, observe);
      PlacedStep(lake, CommittedAll(lake, init, observe), init, last, observe);
      assert init + [last] == ws;
    }
  }

  lemma PlacedStep(lake: Lake, before: Lake, init: seq<Window>, last: Window, observe: Window -> Observation)
    requires Placed(lake, before, init, observe) && DistinctKeys(init + [last])
    ensures Placed(lake, Committed(before, last, observe(last)), init + [last], observe)
  {
    hide Attempt, KeyOf;
    var ws, after := init + [last], Committed(before, last, observe(last));
    forall i | 0 <= i < |ws| && Attempt(observe(ws[i])).Commits()
      ensures KeyOf(ws[i]) in after && after[KeyOf(ws[i])] == observe(ws[i]).readBack
    {
      if i < |init| {
        assert ws[i] == init[i] && ws[|init|] == last;
      }
    }
    forall k | forall i :: 0 <= i < |ws| && KeyOf(ws[i]) == k ==> !Attempt(observe(ws[i])).Commits()
      ensures (k in after <==> k in lake) && (k in lake ==> after[k] == lake[k])
    {
      assert forall i :: 0 <= i < |init| ==> ws[i] == init[i];
      assert ws[|init|] == last;
    }
  }

  /** The row's time is in a replanned window that still has rows in the table. */
  ghost predicate Reexported(hot: multiset<Row>, ws: seq<Window>, t: Instant) {
    exists i :: 0 <= i < |ws| && ws[i].Contains(t) && Within(hot, ws[i]) != multiset{}
  }

  lemma {:induction false} CopiesElsewhere(lake: Lake, r: Row)
    requires forall k :: k in lake ==> r !in lake[k]
    ensures Copies(lake, r) == 0
    decreases |lake|
  {
    if lake != map[] {
      var k :| k in lake;
      CopiesSplit(lake, r, k);
      CopiesElsewhere(lake - {k}, r);
    }
  }

  lemma CopiesInOne(lake: Lake, r: Row, k: FileKey)
    requires k in lake && forall j :: j in lake && j != k ==> r !in lake[j]
    ensures Copies(lake, r) == multiset(lake[k])[r]
  {
    CopiesSplit(lake, r, k);
    CopiesElsewhere(lake - {k}, r);
  }

  lemma {:induction false} SameCopies(a: Lake, b: Lake, r: Row)
    requires forall k :: k in a && r in a[k] ==> k in b && b[k] == a[k]
    requires forall k :: k in b && r in b[k] ==> k in a && a[k] == b[k]
    ensures Copies(a, r) == Copies(b, r)
    decreases |a|
  {
    if k :| k in a && r in a[k] {
      CopiesSplit(a, r, k);
      CopiesSplit(b, r, k);
      SameCopies(a - {k}, b - {k}, r);
    } else {
      CopiesElsewhere(a, r);
      CopiesElsewhere(b, r);
    }
  }

  /** The lake after the rewind and a run that completes. */
  function AfterRewind(lake: Lake, to: Instant, horizon: Instant, observe: Window -> Observation): Lake {
    RunOf(Store(lake, [to]), None, horizon, 0, observe).lake
  }

  lemma RunCompletes(lake: Lake, to: Instant, horizon: Instant, hot: multiset<Row>, observe: Window -> Observation)
    requires to < horizon
    requires forall i :: 0 <= i < |Replanned(to, horizon)| ==>
                           Delivers(hot, Replanned(to, horizon)[i], observe(Replanned(to, horizon)[i]))
    ensures AfterRewind(lake, to, horizon, observe) == CommittedAll(lake, Replanned(to, horizon), observe)
  {
    hide Plan, Attempt, CommittedAll;
    var ws := Replanned(to, horizon);
    assert [to][1..] == [];
    assert Highest([to]) == Some(to);
    assert forall i :: 0 <= i < |ws| ==> Delivers(hot, ws[i], observe(ws[i]));
    CompletedIsUnique(ws, observe, |ws|);
    assert ws[..|ws|] == ws;
  }

  lemma WindowsHaveDistinctKeys(to: Instant, horizon: Instant)
    requires to < horizon && WholeSecond(to) && WholeSecond(horizon)
    ensures DistinctKeys(Replanned(to, horizon))
  {
    hide Plan;
    var ws := Replanned(to, horizon);
    ReplannedTiles(to, horizon, to);
    forall i, j | 0 <= i < j < |ws|
      ensures KeyOf(ws[i]) != KeyOf(ws[j])
    {
      assert ws[i].end <= ws[j].start;
    }
  }

  /**
   What the lake holds after a rewind. When the files coincide and a run delivers every window, a row
   of a window that still has rows in the table is in the lake exactly as often as it is in the
   table, and every other row as often as before.
   */
  lemma RewindReplacesExactly(
    lake: Lake, to: Instant, horizon: Instant, hot: multiset<Row>, observe: Window -> Observation, r: Row)
    requires to < horizon && WholeSecond(to) && WholeSecond(horizon)
    requires SoundLake(lake) && (forall k :: k in lake ==> k.end <= horizon) && Coincide(lake, to, horizon)
    requires forall i :: 0 <= i < |Replanned(to, horizon)| ==>
                           Delivers(hot, Replanned(to, horizon)[i], observe(Replanned(to, horizon)[i]))
    ensures Copies(AfterRewind(lake, to, horizon, observe), r)
            == if Reexported(hot, Replanned(to, horizon), r.ts) then hot[r] else Copies(lake, r)
  {
    hide Plan, Attempt, CommittedAll, Copies, AfterRewind, KeyOf, IsReplanned;
    var ws, after := Replanned(to, horizon), AfterRewind(lake, to, horizon, observe);
    RunCompletes(lake, to, horizon, hot, observe);
    WindowsHaveDistinctKeys(to, horizon);
    CommittedAllPlaces(lake, ws, observe);
    ReplannedTiles(to, horizon, r.ts);
    RewindOverwritesExactly(lake, to, horizon);
    if Reexported(hot, ws, r.ts) {
      var i :| 0 <= i < |ws| && ws[i].Contains(r.ts) && Within(hot, ws[i]) != multiset{};
      forall j | j in after && j != KeyOf(ws[i])
        ensures r !in after[j]
      {
        OtherFilesLack(lake, after, ws, hot, observe, r, i, j);
      }
      CopiesInOne(after, r, KeyOf(ws[i]));
    } else {
      forall k | (k in lake && r in lake[k]) || (k in after && r in after[k])
        ensures k in lake && k in after && after[k] == lake[k]
      {
        UntouchedFile(lake, after, ws, hot, observe, r, k);
      }
      SameCopies(after, lake, r);
    }
  }

  /** What a delivered window commits are its own rows. */
  lemma CommittedRows(hot: multiset<Row>, w: Window, o: Observation)
    ensures Delivers(hot, w, o) && Attempt(o).Commits() ==>
              Within(hot, w) != multiset{} && forall x :: x in o.readBack ==> w.Contains(x.ts)
  {
    hide Attempt;
    forall x | x in o.readBack
      ensures x in multiset(o.readBack)
    {
    }
  }

  /** No file but the window's own holds the row afterwards. */
  lemma OtherFilesLack(
    lake: Lake, after: Lake, ws: seq<Window>, hot: multiset<Row>, observe: Window -> Observation, r: Row,
    i: nat, k: FileKey)
    requires SoundLake(lake) && Placed(lake, after, ws, observe) && i < |ws| && ws[i].Contains(r.ts)
    requires forall j :: 0 <= j < |ws| ==>
                           Delivers(hot, ws[j], observe(ws[j])) && KeyOf(ws[j]) == FileKey(ws[j].start, ws[j].end)
    requires forall j, l :: 0 <= j < l < |ws| ==> ws[j].end <= ws[l].start
    requires forall k, j :: k in lake && 0 <= j < |ws| ==> k == KeyOf(ws[j]) || Apart(k, KeyOf(ws[j]))
    requires k in after && k != KeyOf(ws[i])
    ensures r !in after[k]
  {
    hide Attempt, KeyOf;
    if j :| 0 <= j < |ws| && KeyOf(ws[j]) == k && Attempt(observe(ws[j])).Commits() {
      CommittedRows(hot, ws[j], observe(ws[j]));
      assert i < j || j < i;
    } else {
      assert k in lake && after[k] == lake[k];
    }
  }

  /** A file that holds a row of no re-exported window is not touched. */
  lemma UntouchedFile(
    lake: Lake, after: Lake, ws: seq<Window>, hot: multiset<Row>, observe: Window -> Observation, r: Row, k: FileKey)
    requires SoundLake(lake) && Placed(lake, after, ws, observe) && !Reexported(hot, ws, r.ts)
    requires forall j :: 0 <= j < |ws| ==>
                           Delivers(hot, ws[j], observe(ws[j])) && KeyOf(ws[j]) == FileKey(ws[j].start, ws[j].end)
    requires (k in lake && r in lake[k]) || (k in after && r in after[k])
    ensures k in lake && k in after && after[k] == lake[k]
  {
    hide Attempt, KeyOf;
    forall j | 0 <= j < |ws| && KeyOf(ws[j]) == k
      ensures !Attempt(observe(ws[j])).Commits()
    {
      CommittedRows(hot, ws[j], observe(ws[j]));
    }
  }

  /** Where the files do not coincide, a row above the rewind that is still in the table is duplicated. */
  lemma RewindDuplicates(
    lake: Lake, to: Instant, horizon: Instant, hot: multiset<Row>, observe: Window -> Observation, k: FileKey, r: Row)
    requires to < horizon && WholeSecond(to) && WholeSecond(horizon)
    requires SoundLake(lake) && k in lake && k.end <= horizon && !IsReplanned(k, to, horizon)
    requires r in lake[k] && to <= r.ts && r in hot
    requires forall i :: 0 <= i < |Replanned(to, horizon)| ==>
                           Delivers(hot, Replanned(to, horizon)[i], observe(Replanned(to, horizon)[i]))
    ensures Copies(AfterRewind(lake, to, horizon, observe), r) >= 2
  {
    hide Plan, Attempt, CommittedAll, Copies, AfterRewind, KeyOf, IsReplanned, Placed, Delivers, SoundLake;
    var ws, after := Replanned(to, horizon), AfterRewind(lake, to, horizon, observe);
    RunCompletes(lake, to, horizon, hot, observe);
    WindowsHaveDistinctKeys(to, horizon);
    CommittedAllPlaces(lake, ws, observe);
    RowIsBelowHorizon(lake, k, r, horizon);
    ReplannedTiles(to, horizon, r.ts);
    var i :| 0 <= i < |ws| && ws[i].Contains(r.ts);
    DeliveredRow(lake, after, ws, hot, observe, i, r);
    ReplannedExactly(to, horizon, k);
    OldFileStays(lake, after, ws, observe, k);
    CopiesSplit(after, r, k);
    CopiesSplit(after - {k}, r, KeyOf(ws[i]));
  }

  lemma RowIsBelowHorizon(lake: Lake, k: FileKey, r: Row, horizon: Instant)
    requires SoundLake(lake) && k in lake && r in lake[k] && k.end <= horizon
    ensures r.ts < horizon
  {
  }

  lemma DeliveredRow(
    lake: Lake, after: Lake, ws: seq<Window>, hot: multiset<Row>, observe: Window -> Observation, i: nat, r: Row)
    requires Placed(lake, after, ws, observe) && i < |ws| && Delivers(hot, ws[i], observe(ws[i]))
    requires ws[i].Contains(r.ts) && r in hot
    ensures KeyOf(ws[i]) in after && r in after[KeyOf(ws[i])]
  {
    hide Attempt, KeyOf;
    assert r in Within(hot, ws[i]);
    assert r in multiset(observe(ws[i]).readBack);
  }

  lemma OldFileStays(lake: Lake, after: Lake, ws: seq<Window>, observe: Window -> Observation, k: FileKey)
    requires Placed(lake, after, ws, observe) && k in lake
    requires forall i :: 0 <= i < |ws| ==> KeyOf(ws[i]) != k
    ensures k in after && after[k] == lake[k]
  {
    hide Attempt, KeyOf;
  }
}
