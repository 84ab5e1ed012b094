/** Export windows and the planner that cuts a time range into them. */
module Planner {
  import opened Timeline
  import opened Wrappers

  /** A half-open time range [start, end) exported as one file. */
  datatype Window = Window(start: Instant, end: Instant) {
    predicate Contains(t: Instant) {
      start <= t < end
    }

    /** Every instant of the window lies in one calendar day. */
    predicate OneDay() {
      start / DAY == (end - 1) / DAY
    }
  }

  /** The whole seconds of a window's two ends, which is all its file name records. */
  datatype FileKey = FileKey(start: Instant, end: Instant)

  function KeyOf(w: Window): FileKey {
    FileKey(FloorSecond(w.start), FloorSecond(w.end))
  }

  datatype WindowError = EmptyWindow | CrossesMidnight

  /** The checks the window's constructor makes. */
  function MakeWindow(start: Instant, end: Instant): (r: Result<Window, WindowError>) {
    if start >= end then Failure(EmptyWindow)
    else if start / DAY != end / DAY && end != (end / DAY) * DAY then Failure(CrossesMidnight)
    else Success(Window(start, end))
  }

  const DEFAULT_WINDOW: Duration := HOUR

  /** Where the window that begins at `cursor` ends. */
  function WindowEnd(cursor: Instant, horizon: Instant, window: Duration): Instant {
    var aligned := FloorHour(cursor + window);
    var boundary := if aligned <= cursor then cursor + window else aligned;
    Min(boundary, Min(NextMidnight(cursor), horizon))
  }

  /** The windows planned from `cursor` up to `horizon`. */
  function Plan(cursor: Instant, horizon: Instant, window: Duration): (ws: seq<Window>)
    decreases horizon - cursor
  {
    if cursor >= horizon then []
    else
      var end := WindowEnd(cursor, horizon, window);
      if end <= cursor then []
      else [Window(cursor, end)] + Plan(end, horizon, window)
  }

  /** The windows abut, none is empty, and together they run from `a` to `b`. */
  ghost predicate Tiles(ws: seq<Window>, a: Instant, b: Instant) {
    if ws == [] then a == b
    else ws[0].start == a && a < ws[0].end && Tiles(ws[1..], ws[0].end, b)
  }

  // ---- The planning loop

  method PlanWindows(start: Instant, now: Instant, window: Duration, lagMargin: Duration)
    returns (windows: seq<Window>)
    ensures windows == Plan(start, now - lagMargin, window)
  {
    var horizon := now - lagMargin;
    windows := [];
    var cursor := start;
    while cursor < horizon
      invariant Plan(start, horizon, window) == windows + Plan(cursor, horizon, window)
      decreases horizon - cursor
    {
      var nextBoundary := FloorHour(cursor + window);
      if nextBoundary <= cursor {
        nextBoundary := cursor + window;
      }
      var midnight := NextMidnight(cursor);
      var end := Min(nextBoundary, Min(midnight, horizon));
      assert end == WindowEnd(cursor, horizon, window);
      if end <= cursor {
        break;
      }
      WindowStaysInOneDay(cursor, horizon, window);
      // Taking the value out is the obligation that the constructor never raises here.
      var made := MakeWindow(cursor, end).Extract();
      Assoc(windows, [made], Plan(end, horizon, window));
      windows := windows + [made];
      cursor := end;
    }
    assert Plan(cursor, horizon, window) == [];
    assert windows + [] == windows;
  }

  lemma Assoc<T>(a: seq<T>, b: seq<T>, c: seq<T>)
    ensures (a + b) + c == a + (b + c)
  {
  }

  lemma WindowStaysInOneDay(cursor: Instant, horizon: Instant, window: Duration)
    requires cursor < WindowEnd(cursor, horizon, window)
    ensures var end := WindowEnd(cursor, horizon, window);
            Window(cursor, end).OneDay() && MakeWindow(cursor, end) == Success(Window(cursor, end))
  {
    var end := WindowEnd(cursor, horizon, window);
    var day := cursor / DAY;
    assert day * DAY <= cursor < end <= (day + 1) * DAY;
    if end < (day + 1) * DAY {
      assert end / DAY == day;
    } else {
      assert end / DAY == day + 1;
    }
  }

  lemma WindowEndAdvances(cursor: Instant, horizon: Instant, window: Duration)
    requires cursor < horizon
    ensures cursor < WindowEnd(cursor, horizon, window) <==> window > 0
  {
  }

  // ---- Exact tiling

  /**
   For a start below the horizon the plan covers exactly [start, horizon) if and only if the
   window length is positive; otherwise the defensive exit leaves it empty.
   */
  lemma {:induction false} PlanTiles(start: Instant, horizon: Instant, window: Duration)
    requires start < horizon
    ensures window > 0 <==> Tiles(Plan(start, horizon, window), start, horizon)
    ensures window <= 0 ==> Plan(start, horizon, window) == []
    decreases horizon - start
  {
    WindowEndAdvances(start, horizon, window);
    if window > 0 {
      var end := WindowEnd(start, horizon, window);
      var rest := Plan(end, horizon, window);
      assert ([Window(start, end)] + rest)[1..] == rest;
      if end < horizon {
        PlanTiles(end, horizon, window);
      }
    }
  }

  /** In a tiling every instant belongs to exactly one window: no gap and no overlap. */
  lemma {:induction false} TilesCoverOnce(ws: seq<Window>, a: Instant, b: Instant, t: Instant)
    requires Tiles(ws, a, b)
    ensures a <= t < b <==> exists i :: 0 <= i < |ws| && ws[i].Contains(t)
    ensures forall i, j :: 0 <= i < j < |ws| ==> ws[i].end <= ws[j].start
    ensures forall i :: 0 <= i < |ws| ==> a <= ws[i].start < ws[i].end <= b
    ensures a <= b
    decreases |ws|
  {
    if ws != [] {
      TilesCoverOnce(ws[1..], ws[0].end, b, t);
      forall i, j | 0 <= i < j < |ws|
        ensures ws[i].end <= ws[j].start
      {
        assert ws[j] == ws[1..][j - 1];
        if i > 0 {
          assert ws[i] == ws[1..][i - 1];
        }
      }
      forall i | 0 <= i < |ws|
        ensures a <= ws[i].start < ws[i].end <= b
      {
        if i > 0 {
          assert ws[i] == ws[1..][i - 1];
        }
      }
      if a <= t < b {
        if t < ws[0].end {
          assert ws[0].Contains(t);
        } else {
          var i :| 0 <= i < |ws[1..]| && ws[1..][i].Contains(t);
          assert ws[i + 1].Contains(t);
        }
      }
    }
  }

  /**
   What every planned window looks like: inside one calendar day, accepted by the constructor,
   never longer than asked for, and ended by an hour boundary or midnight unless the horizon cut
   it or the window length is below an hour.
   */
  lemma {:induction false} PlannedWindows(start: Instant, horizon: Instant, window: Duration, i: nat)
    requires i < |Plan(start, horizon, window)|
    ensures var w := Plan(start, horizon, window)[i];
            && start <= w.start < w.end <= horizon
            && w.OneDay()
            && MakeWindow(w.start, w.end) == Success(w)
            && w.end == WindowEnd(w.start, horizon, window)
            && w.end - w.start <= window
            && (w.end % HOUR == 0 || w.end == horizon || window < HOUR)
    decreases i
  {
    WindowStaysInOneDay(start, horizon, window);
    var end := WindowEnd(start, horizon, window);
    if i > 0 {
      PlannedWindows(end, horizon, window, i - 1);
      assert Plan(start, horizon, window)[i] == Plan(end, horizon, window)[i - 1];
    } else {
      BoundaryEnd(start, horizon, window);
    }
  }

  lemma BoundaryEnd(cursor: Instant, horizon: Instant, window: Duration)
    requires cursor < WindowEnd(cursor, horizon, window)
    ensures var end := WindowEnd(cursor, horizon, window);
            && end - cursor <= window
            && (end % HOUR == 0 || end == horizon || window < HOUR)
  {
    HourParts(cursor + window);
    MidnightIsAFullHour(cursor);
  }

  lemma HourParts(t: Instant)
    ensures FloorHour(t) == (t / HOUR) * HOUR
    ensures FloorHour(t) <= t < FloorHour(t) + HOUR
    ensures FloorHour(t) % HOUR == 0 && (FloorHour(t) + HOUR) % HOUR == 0
  {
    hide FloorSecond, FloorMinute;
    var h := t / HOUR;
    assert t == h * HOUR + t % HOUR;
    FullHours(h);
    FullHours(h + 1);
  }

  lemma FullHours(h: int)
    ensures (h * HOUR) % HOUR == 0 && (h * HOUR) / HOUR == h
  {
  }

  /** Midnight is a full hour, and no full hour after `t` comes later than the next one it bounds. */
  lemma MidnightIsAFullHour(t: Instant)
    ensures NextMidnight(t) % HOUR == 0
    ensures NextMidnight(t) >= FloorHour(t) + HOUR
  {
    var h, d := t / HOUR, t / DAY;
    assert d * DAY <= t < (d + 1) * DAY;
    assert (d + 1) * DAY == (24 * (d + 1)) * HOUR;
    FullHours(24 * (d + 1));
    HourParts(t);
    assert h < 24 * (d + 1);
  }

  /** The last full hour in reach is the floor of the reach. */
  lemma LastFullHour(t: Instant, h: Instant)
    requires h % HOUR == 0 && h <= t < h + HOUR
    ensures FloorHour(t) == h
  {
  }

  /**
   Windows are as long as they may be: each ends at the last full hour that lies within the window
   length of its start, or, when there is none, exactly that length after it; unless midnight or the
   horizon comes first.
   */
  lemma WindowsAreLongest(start: Instant, horizon: Instant, window: Duration, i: nat)
    requires i < |Plan(start, horizon, window)|
    ensures var w := Plan(start, horizon, window)[i];
            var clipped := w.end == horizon || (w.end % DAY == 0 && w.end - DAY <= w.start);
            && (forall h :: h % HOUR == 0 && w.start < h <= w.start + window < h + HOUR ==>
                  w.end <= h && (w.end == h || clipped))
            && ((forall h :: w.start < h <= w.start + window ==> h % HOUR != 0) ==>
                  w.end == w.start + window || w.end == horizon)
  {
    hide FloorHour;
    PlannedWindows(start, horizon, window, i);
    var w := Plan(start, horizon, window)[i];
    HourParts(w.start + window);
    MidnightIsAFullHour(w.start);
    MidnightEndsTheDay(w.start);
    forall h | h % HOUR == 0 && w.start < h <= w.start + window < h + HOUR
      ensures FloorHour(w.start + window) == h
    {
      LastFullHour(w.start + window, h);
    }
  }

  lemma MidnightEndsTheDay(t: Instant)
    ensures NextMidnight(t) % DAY == 0 && t < NextMidnight(t) <= t + DAY
  {
  }

  // ---- Planning again

  /** Planning from the end of window i, with the same horizon, yields exactly the rest. */
  lemma {:induction false} ReplanFromWindow(start: Instant, horizon: Instant, window: Duration, i: nat)
    requires i < |Plan(start, horizon, window)|
    ensures var ws := Plan(start, horizon, window);
            Plan(ws[i].end, horizon, window) == ws[i + 1..]
    decreases i
  {
    if i > 0 {
      ReplanFromWindow(WindowEnd(start, horizon, window), horizon, window, i - 1);
    }
  }

  /**
   A later horizon keeps a window if and only if the old horizon did not clip it: its natural
   end lies at or below the old horizon, or the horizon did not move.
   */
  lemma WindowSurvivesLaterHorizon(cursor: Instant, horizon: Instant, later: Instant, window: Duration)
    requires cursor < horizon <= later && window > 0
    ensures var natural := WindowEnd(cursor, NextMidnight(cursor), window);
            WindowEnd(cursor, later, window) == WindowEnd(cursor, horizon, window)
            <==> natural <= horizon || later == horizon
  {
    assert cursor < NextMidnight(cursor);
  }

  /** A later horizon keeps every window but a last one that the old horizon clipped. */
  lemma {:induction false} ReplanWithLaterHorizon(
    start: Instant, horizon: Instant, later: Instant, window: Duration, i: nat)
    requires horizon <= later && window > 0
    requires i < |Plan(start, horizon, window)|
    requires WindowEnd(Plan(start, horizon, window)[i].start, later, window)
             == Plan(start, horizon, window)[i].end
    ensures i < |Plan(start, later, window)|
    ensures Plan(start, later, window)[..i + 1] == Plan(start, horizon, window)[..i + 1]
    decreases i
  {
    var end := WindowEnd(start, horizon, window);
    if i > 0 {
      assert end < horizon;
      assert Plan(start, horizon, window)[i] == Plan(end, horizon, window)[i - 1];
      WindowSurvivesLaterHorizon(start, horizon, later, window);
      assert WindowEnd(start, later, window) == end;
      ReplanWithLaterHorizon(end, horizon, later, window, i - 1);
      var head := [Window(start, end)];
      assert (head + Plan(end, later, window))[..i + 1] == head + Plan(end, later, window)[..i];
      assert (head + Plan(end, horizon, window))[..i + 1] == head + Plan(end, horizon, window)[..i];
    }
  }

  /** Every window that ends below the old horizon keeps its place in the later plan. */
  lemma UnclippedWindowsAreStable(start: Instant, horizon: Instant, later: Instant, window: Duration, i: nat)
    requires horizon <= later && window > 0
    requires i < |Plan(start, horizon, window)| && Plan(start, horizon, window)[i].end < horizon
    ensures i < |Plan(start, later, window)|
    ensures Plan(start, later, window)[..i + 1] == Plan(start, horizon, window)[..i + 1]
  {
    var w := Plan(start, horizon, window)[i];
    PlannedWindows(start, horizon, window, i);
    WindowSurvivesLaterHorizon(w.start, horizon, later, window);
    ReplanWithLaterHorizon(start, horizon, later, window, i);
  }

  // ---- The default hourly plan, as the exporter runs it

  /** With one-hour windows the end is the next full hour, or the horizon if that comes first. */
  lemma HourlyEnd(cursor: Instant, horizon: Instant)
    ensures WindowEnd(cursor, horizon, DEFAULT_WINDOW) == Min(FloorHour(cursor) + HOUR, horizon)
  {
    hide FloorHour, NextMidnight;
    NextFullHour(cursor);
    HourParts(cursor);
    MidnightIsAFullHour(cursor);
  }

  lemma NextFullHour(t: Instant)
    ensures FloorHour(t + HOUR) == FloorHour(t) + HOUR
  {
    HourParts(t);
    HourParts(t + HOUR);
    var h, k := t / HOUR, (t + HOUR) / HOUR;
    assert k * HOUR <= t + HOUR < (k + 1) * HOUR && h * HOUR <= t < (h + 1) * HOUR;
    assert k == h + 1;
  }

  /**
   When a retry plans the same window. A window [cursor, e) planned under one horizon is planned
   again under a later one if and only if e is a full hour or the horizon did not move.
   */
  lemma RetryPlansTheSameWindow(cursor: Instant, horizon: Instant, later: Instant)
    requires cursor < horizon <= later
    ensures var e := WindowEnd(cursor, horizon, DEFAULT_WINDOW);
            WindowEnd(cursor, later, DEFAULT_WINDOW) == e <==> e % HOUR == 0 || later == horizon
  {
    HourlyEnd(cursor, horizon);
    HourlyEnd(cursor, later);
    HourParts(cursor);
    var e := WindowEnd(cursor, horizon, DEFAULT_WINDOW);
    if FloorHour(cursor) < e < FloorHour(cursor) + HOUR {
      NotAFullHour(cursor / HOUR, e);
    }
  }

  lemma NotAFullHour(h: int, t: Instant)
    requires h * HOUR < t < (h + 1) * HOUR
    ensures t % HOUR != 0
  {
    assert t / HOUR == h;
  }

  /**
   The constructor accepts the nonempty windows of one day, and those of any length that end at
   midnight; an accepted window is one calendar day if and only if it ends by the next midnight.
   */
  lemma ConstructorAcceptsExactly(start: Instant, end: Instant)
    ensures MakeWindow(start, end).Success? <==> start < end && (Window(start, end).OneDay() || end % DAY == 0)
    ensures MakeWindow(start, end).Success? ==> (Window(start, end).OneDay() <==> end <= NextMidnight(start))
  {
    var d, e := start / DAY, end / DAY;
    assert d * DAY <= start < (d + 1) * DAY && e * DAY <= end < (e + 1) * DAY;
    if start < end {
      if end <= NextMidnight(start) {
        assert d * DAY <= end - 1 < (d + 1) * DAY;
      } else {
        assert (d + 1) * DAY <= end - 1;
      }
    }
  }

  /** A multi-day window that ends at midnight passes the constructor: one day per file is the planner's doing. */
  lemma ConstructorAcceptsSeveralDays()
    ensures exists start, end :: MakeWindow(start, end).Success? && !Window(start, end).OneDay()
  {
    assert MakeWindow(0, 2 * DAY) == Success(Window(0, 2 * DAY));
    assert !Window(0, 2 * DAY).OneDay();
  }
}
