/** File names of the lake: how they are built, parsed, sorted and listed. */
module Layout {
  import opened Calendar
  import opened Planner
  import opened Text
  import opened Timeline
  import opened Wrappers

  /** A path below the lake's root: partition directory and file name. */
  datatype LakePath = LakePath(dir: string, name: string)

  /** What `parse_window` does with a name: no match, an exception, or a window. */
  datatype ParsedWindow = NoWindow | RaisesValueError | Covers(window: Window)

  /** What `parse_partition` does with a directory name. */
  datatype ParsedPartition = NoPartition | BadDate | Partition(date: Date)

  /** The years for which a four-digit year field is written. */
  predicate FourDigitYear(t: Instant) {
    t >= 0 && 1000 <= DateOf(t / DAY).year <= 9999
  }

  function SecondOfDay(t: Instant): nat
    requires t >= 0
  {
    (t % DAY) / SECOND
  }

  // ---- Building names

  function DateField(d: Date): (s: string)
    requires d.Valid()
    ensures |s| == 8 && IsDigits(s)
  {
    Fields(d.year, d.month, d.day, 4)
  }

  function TimeField(second: nat): (s: string)
    requires second < 86400
    ensures |s| == 6 && IsDigits(s)
  {
    Fields(second / 3600, second / 60 % 60, second % 60, 2)
  }

  /** `%Y%m%dT%H%M%S` */
  function Stamp(t: Instant): (s: string)
    requires FourDigitYear(t)
    ensures |s| == 15 && IsStamp(s)
  {
    var s := DateField(DateOf(t / DAY)) + "T" + TimeField(SecondOfDay(t));
    assert s[..8] == DateField(DateOf(t / DAY)) && s[9..] == TimeField(SecondOfDay(t));
    s
  }

  function Filename(w: Window): (s: string)
    requires FourDigitYear(w.start) && FourDigitYear(w.end)
    ensures |s| == 45
  {
    "spans-" + Stamp(w.start) + "-" + Stamp(w.end) + ".parquet"
  }

  /** full-date of section 5.6 of RFC 3339 */
  function IsoDate(d: Date): (s: string)
    requires d.Valid()
    ensures |s| == 10
  {
    Digits(d.year, 4) + "-" + Digits(d.month, 2) + "-" + Digits(d.day, 2)
  }

  function PartitionDir(d: Date): (s: string)
    requires d.Valid()
    ensures |s| == 13 && StartsWith(s, "dt=")
  {
    "dt=" + IsoDate(d)
  }

  function FilePath(w: Window): LakePath
    requires FourDigitYear(w.start) && FourDigitYear(w.end)
  {
    LakePath(PartitionDir(DateOf(w.start / DAY)), Filename(w))
  }

  function TempPath(final: LakePath): LakePath {
    final.(name := Stem(final.name) + ".parquet.tmp")
  }

  // ---- Parsing names

  /** `\d{8}T\d{6}` */
  predicate IsStamp(s: string) {
    |s| == 15 && IsDigits(s[..8]) && s[8] == 'T' && IsDigits(s[9..])
  }

  /** The instant a stamp shows, unless a field is out of range. */
  function StampValue(s: string): Option<Instant>
    requires IsStamp(s)
  {
    var d, t := s[..8], s[9..];
    var date := Date(Value(d[..4]), Value(d[4..6]), Value(d[6..]));
    var hour, minute, second := Value(t[..2]), Value(t[2..4]), Value(t[4..]);
    if date.Valid() && hour < 24 && minute < 60 && second < 60 then
      Some(DayNumber(date) * DAY + hour * HOUR + minute * MINUTE + second * SECOND)
    else
      None
  }

  function ParseWindow(name: string): ParsedWindow {
    if |name| == 45 && name[..6] == "spans-" && IsStamp(name[6..21]) && name[21] == '-'
       && IsStamp(name[22..37]) && name[37..] == ".parquet"
    then
      match (StampValue(name[6..21]), StampValue(name[22..37]))
      case (Some(start), Some(end)) =>
        (match MakeWindow(start, end)
         case Success(w) => Covers(w)
         case Failure(_) => RaisesValueError)
      case _ => RaisesValueError
    else
      NoWindow
  }

  /** `dt=\d{4}-\d{2}-\d{2}`, then the date it names. */
  function ParsePartition(dir: string): ParsedPartition {
    if |dir| == 13 && dir[..3] == "dt=" && IsDigits(dir[3..7]) && dir[7] == '-'
       && IsDigits(dir[8..10]) && dir[10] == '-' && IsDigits(dir[11..])
    then
      var date := Date(Value(dir[3..7]), Value(dir[8..10]), Value(dir[11..]));
      if date.Valid() then Partition(date) else BadDate
    else
      NoPartition
  }

  /** The glob and the filters of the committed-file listing. */
  predicate Listed(path: LakePath) {
    && StartsWith(path.dir, "dt=")
    && EndsWith(path.name, ".parquet")
    && !EndsWith(path.name, ".tmp")
    && ParsePartition(path.dir).Partition?
  }

  predicate PathLess(p: LakePath, q: LakePath) {
    LexLess(p.dir, q.dir) || (p.dir == q.dir && LexLess(p.name, q.name))
  }

  predicate KeyLess(a: FileKey, b: FileKey) {
    a.start < b.start || (a.start == b.start && a.end < b.end)
  }

  // ---- Stamps

  lemma TimeOfDay(t: Instant)
    requires t >= 0
    ensures SecondOfDay(t) < 86400
    ensures FloorSecond(t) == (t / DAY) * DAY + SecondOfDay(t) * SECOND
  {
    var d, u := t / DAY, t % DAY;
    var q, r := u / SECOND, u % SECOND;
    assert t == d * DAY + u && u == q * SECOND + r;
    SecondsRemainder(86400 * d + q, r);
  }

  lemma SecondsRemainder(k: int, r: int)
    requires 0 <= r < SECOND
    ensures (k * SECOND + r) % SECOND == r
  {
  }

  /** A date has two-digit months and days, and here a four-digit year. */
  lemma FieldRanges(t: Instant)
    requires FourDigitYear(t)
    ensures var d := DateOf(t / DAY); 0 <= d.year < Pow10(4) && 0 <= d.month < 100 && 0 <= d.day < 100
  {
    assert Pow10(4) == 10000;
  }

  /** A stamp reads back as the instant it was made from, cut to the whole second. */
  lemma StampReadsBack(t: Instant)
    requires FourDigitYear(t)
    ensures StampValue(Stamp(t)) == Some(FloorSecond(t))
  {
    hide DateOf, Digits, Value, DayNumber, DaysInMonth, Fields, FloorSecond, SecondOfDay;
    var s := Stamp(t);
    var date, sec := DateOf(t / DAY), SecondOfDay(t);
    TimeOfDay(t);
    FieldRanges(t);
    var df, tf := DateField(date), TimeField(sec);
    FieldsReadBack(date.year, date.month, date.day, 4);
    assert Pow10(2) == 100;
    FieldsReadBack(sec / 3600, sec / 60 % 60, sec % 60, 2);
    assert s[..8] == df && s[9..] == tf;
    DayNumberOfDate(t / DAY);
    HourMinuteSecond(sec);
  }

  lemma HourMinuteSecond(sec: nat)
    requires sec < 86400
    ensures (sec / 3600) * HOUR + (sec / 60 % 60) * MINUTE + (sec % 60) * SECOND == sec * SECOND
    ensures sec / 3600 < 24
  {
    var m := sec / 60;
    assert sec == 60 * m + sec % 60;
    assert m == 60 * (m / 60) + m % 60;
    assert m / 60 == sec / 3600;
  }

  /** Stamps sort as the whole seconds they show. */
  lemma StampOrder(t: Instant, u: Instant)
    requires FourDigitYear(t) && FourDigitYear(u)
    ensures LexLess(Stamp(t), Stamp(u)) <==> FloorSecond(t) < FloorSecond(u)
    ensures Stamp(t) == Stamp(u) <==> FloorSecond(t) == FloorSecond(u)
  {
    hide LexLess, DateOf, Fields, Digits, StampValue, FloorSecond, SecondOfDay, IsDigits, IsStamp;
    StampReadsBack(t);
    StampReadsBack(u);
    TimeOfDay(t);
    TimeOfDay(u);
    FieldRanges(t);
    FieldRanges(u);
    var a, b := DateOf(t / DAY), DateOf(u / DAY);
    var p, q := SecondOfDay(t), SecondOfDay(u);
    FieldsOrder(a.year, a.month, a.day, b.year, b.month, b.day, 4);
    DateOfOrders(t / DAY, u / DAY);
    TimeFieldOrder(p, q);
    LexConcat(DateField(a), DateField(b), "T" + TimeField(p), "T" + TimeField(q));
    LexConcat("T", "T", TimeField(p), TimeField(q));
    LexSingle('T', 'T');
    assert Stamp(t) == DateField(a) + ("T" + TimeField(p));
    assert Stamp(u) == DateField(b) + ("T" + TimeField(q));
    DaysThenSeconds(t / DAY, p, u / DAY, q);
  }

  lemma TimeFieldOrder(p: nat, q: nat)
    requires p < 86400 && q < 86400
    ensures LexLess(TimeField(p), TimeField(q)) <==> p < q
  {
    hide LexLess, Fields, Digits;
    assert Pow10(2) == 100;
    FieldsOrder(p / 3600, p / 60 % 60, p % 60, q / 3600, q / 60 % 60, q % 60, 2);
    HourMinuteSecond(p);
    HourMinuteSecond(q);
  }

  lemma DaysThenSeconds(d: int, p: nat, e: int, q: nat)
    requires p < 86400 && q < 86400
    ensures d * DAY + p * SECOND < e * DAY + q * SECOND <==> d < e || (d == e && p < q)
  {
  }

  // ---- Names of windows

  lemma FilenameParts(w: Window)
    requires FourDigitYear(w.start) && FourDigitYear(w.end)
    ensures var s := Filename(w);
            && s[..6] == "spans-" && s[6..21] == Stamp(w.start) && s[21] == '-'
            && s[22..37] == Stamp(w.end) && s[37..] == ".parquet"
  {
    hide Stamp, DateOf;
    StampsInTheName(Stamp(w.start), Stamp(w.end));
  }

  lemma StampsInTheName(a: string, b: string)
    requires |a| == 15 && |b| == 15
    ensures var s := "spans-" + a + "-" + b + ".parquet";
            && |s| == 45 && s[..6] == "spans-" && s[6..21] == a && s[21] == '-'
            && s[22..37] == b && s[37..] == ".parquet"
  {
  }

  lemma FilenameSuffix(w: Window)
    requires FourDigitYear(w.start) && FourDigitYear(w.end)
    ensures Filename(w)[37..] == ".parquet"
  {
    hide Stamp, DateOf;
    FilenameParts(w);
  }

  /** Parsing a window's own file name gives the window cut to whole seconds, or raises when nothing is left. */
  lemma ParseOwnName(w: Window)
    requires FourDigitYear(w.start) && FourDigitYear(w.end)
    ensures var start, end := FloorSecond(w.start), FloorSecond(w.end);
            ParseWindow(Filename(w)) ==
            match MakeWindow(start, end) case Success(v) => Covers(v) case Failure(_) => RaisesValueError
  {
    FilenameParts(w);
    StampReadsBack(w.start);
    StampReadsBack(w.end);
  }

  /** The round trip: a window is recovered from its file name exactly when both ends are whole seconds. */
  lemma NameRoundTrip(w: Window)
    requires FourDigitYear(w.start) && FourDigitYear(w.end)
    requires MakeWindow(w.start, w.end).Success?
    ensures ParseWindow(Filename(w)) == Covers(w) <==> WholeSecond(w.start) && WholeSecond(w.end)
  {
    ParseOwnName(w);
    FloorSecondBounds(w.start);
    FloorSecondBounds(w.end);
  }

  /** The other direction: any name that parses is the name of the window it parses to. */
  lemma ParsedNameIsFilename(name: string)
    requires ParseWindow(name).Covers?
    requires var w := ParseWindow(name).window; FourDigitYear(w.start) && FourDigitYear(w.end)
    ensures Filename(ParseWindow(name).window) == name
  {
    hide Stamp, StampValue, DateOf, Value;
    var w := ParseWindow(name).window;
    StampWritesBack(name[6..21]);
    StampWritesBack(name[22..37]);
    NameSlices(name);
  }

  lemma NameSlices(name: string)
    requires |name| == 45 && name[21] == '-'
    ensures name == name[..6] + name[6..21] + "-" + name[22..37] + name[37..]
  {
  }

  lemma StampSlices(s: string)
    requires IsStamp(s)
    ensures s == s[..8] + "T" + s[9..]
  {
  }

  lemma StampWritesBack(s: string)
    requires IsStamp(s) && StampValue(s).Some? && FourDigitYear(StampValue(s).value)
    ensures Stamp(StampValue(s).value) == s
  {
    hide DateOf, Digits, Value, DayNumber, DaysInMonth, Fields, LexLess, Pow10;
    StampSlices(s);
    var a, b := s[..8], s[9..];
    var date := Date(Value(a[..4]), Value(a[4..6]), Value(a[6..]));
    var h, m, sec := Value(b[..2]), Value(b[2..4]), Value(b[4..]);
    var t := StampValue(s).value;
    var p := h * 3600 + m * 60 + sec;
    ClockFields(h, m, sec);
    DayAndSecond(DayNumber(date), p);
    DateOfDayNumber(date);
    FieldsOfDigits(a, 4);
    FieldsOfDigits(b, 2);
    assert t == DayNumber(date) * DAY + p * SECOND;
    assert DateField(date) == a;
    assert TimeField(p) == b;
  }

  lemma ClockFields(h: nat, m: nat, sec: nat)
    requires h < 24 && m < 60 && sec < 60
    ensures var p := h * 3600 + m * 60 + sec;
            && p < 86400
            && p / 3600 == h && p / 60 % 60 == m && p % 60 == sec
            && h * HOUR + m * MINUTE + sec * SECOND == p * SECOND
  {
    SixtyParts(60 * h + m, sec);
    SixtyParts(h, m);
    HourPart(h, 60 * m + sec);
  }

  lemma SixtyParts(x: nat, y: nat)
    requires y < 60
    ensures (60 * x + y) / 60 == x && (60 * x + y) % 60 == y
  {
  }

  lemma HourPart(x: nat, y: nat)
    requires y < 3600
    ensures (3600 * x + y) / 3600 == x
  {
  }

  lemma DayAndSecond(d: int, p: nat)
    requires p < 86400
    ensures (d * DAY + p * SECOND) / DAY == d && (d * DAY + p * SECOND) % DAY == p * SECOND
    ensures (p * SECOND) / SECOND == p
  {
  }

  // ---- Paths

  lemma PartitionParses(d: Date)
    requires d.Valid() && d.year <= 9999
    ensures ParsePartition(PartitionDir(d)) == Partition(d)
  {
    hide Digits, Value;
    var dir := PartitionDir(d);
    assert Pow10(4) == 10000 && Pow10(2) == 100;
    assert dir[3..7] == Digits(d.year, 4) && dir[8..10] == Digits(d.month, 2) && dir[11..] == Digits(d.day, 2);
    ValueOfDigits(d.year, 4);
    ValueOfDigits(d.month, 2);
    ValueOfDigits(d.day, 2);
  }

  lemma IsoDateOrder(a: Date, b: Date)
    requires a.Valid() && b.Valid() && a.year <= 9999 && b.year <= 9999
    ensures LexLess(PartitionDir(a), PartitionDir(b)) <==> DateLess(a, b)
  {
    hide LexLess, Digits;
    assert Pow10(4) == 10000 && Pow10(2) == 100;
    DigitsOrder(a.year, b.year, 4);
    DigitsOrder(a.month, b.month, 2);
    DigitsOrder(a.day, b.day, 2);
    var x, y := "-" + Digits(a.day, 2), "-" + Digits(b.day, 2);
    SamePrefix("-", Digits(a.day, 2), Digits(b.day, 2));
    LexConcat(Digits(a.month, 2), Digits(b.month, 2), x, y);
    SamePrefix("-", Digits(a.month, 2) + x, Digits(b.month, 2) + y);
    LexConcat(Digits(a.year, 4), Digits(b.year, 4), "-" + (Digits(a.month, 2) + x), "-" + (Digits(b.month, 2) + y));
    assert IsoDate(a) == Digits(a.year, 4) + ("-" + (Digits(a.month, 2) + x));
    assert IsoDate(b) == Digits(b.year, 4) + ("-" + (Digits(b.month, 2) + y));
    SamePrefix("dt=", IsoDate(a), IsoDate(b));
  }

  lemma {:induction false} SamePrefix(p: string, s: string, t: string)
    ensures LexLess(p + s, p + t) <==> LexLess(s, t)
  {
    LexConcat(p, p, s, t);
    NotLessThanItself(p);
  }

  lemma {:induction false} NotLessThanItself(p: string)
    ensures !LexLess(p, p)
  {
    if p != "" {
      NotLessThanItself(p[1..]);
    }
  }

  lemma FilenameOrder(v: Window, w: Window)
    requires FourDigitYear(v.start) && FourDigitYear(v.end) && FourDigitYear(w.start) && FourDigitYear(w.end)
    ensures LexLess(Filename(v), Filename(w)) <==> KeyLess(KeyOf(v), KeyOf(w))
    ensures Filename(v) == Filename(w) <==> KeyOf(v) == KeyOf(w)
  {
    hide LexLess, Stamp, IsStamp, FloorSecond, FourDigitYear, Filename;
    FilenameJoined(v);
    FilenameJoined(w);
    StampOrder(v.start, w.start);
    StampOrder(v.end, w.end);
    var x, y := Stamp(v.end) + ".parquet", Stamp(w.end) + ".parquet";
    LexConcat(Stamp(v.end), Stamp(w.end), ".parquet", ".parquet");
    NotLessThanItself(".parquet");
    SamePrefix("-", x, y);
    LexConcat(Stamp(v.start), Stamp(w.start), "-" + x, "-" + y);
    SamePrefix("spans-", Stamp(v.start) + ("-" + x), Stamp(w.start) + ("-" + y));
  }

  lemma FilenameJoined(w: Window)
    requires FourDigitYear(w.start) && FourDigitYear(w.end)
    ensures Filename(w) == "spans-" + (Stamp(w.start) + ("-" + (Stamp(w.end) + ".parquet")))
    ensures Filename(w)[6..21] == Stamp(w.start) && Filename(w)[22..37] == Stamp(w.end)
  {
    hide Stamp;
    FilenameParts(w);
  }

  /**
   Sorting lake paths as strings sorts them by (start, end); and two windows share a path exactly
   when they agree to the second, so that an overwrite is an overwrite of the same window.
   */
  lemma PathOrder(v: Window, w: Window)
    requires FourDigitYear(v.start) && FourDigitYear(v.end) && FourDigitYear(w.start) && FourDigitYear(w.end)
    ensures PathLess(FilePath(v), FilePath(w)) <==> KeyLess(KeyOf(v), KeyOf(w))
    ensures FilePath(v) == FilePath(w) <==> KeyOf(v) == KeyOf(w)
  {
    hide LexLess, PartitionDir, Filename, DateOf, FloorSecond, SecondOfDay;
    var a, b := DateOf(v.start / DAY), DateOf(w.start / DAY);
    FilenameOrder(v, w);
    IsoDateOrder(a, b);
    PartitionParses(a);
    PartitionParses(b);
    DateOfOrders(v.start / DAY, w.start / DAY);
    TimeOfDay(v.start);
    TimeOfDay(w.start);
    DaysThenSeconds(v.start / DAY, SecondOfDay(v.start), w.start / DAY, SecondOfDay(w.start));
  }

  /** A sorted listing of window files is in chronological order. */
  lemma ListingIsChronological(ws: seq<Window>, i: nat, j: nat)
    requires forall k :: 0 <= k < |ws| ==> FourDigitYear(ws[k].start) && FourDigitYear(ws[k].end)
    requires forall k :: 0 <= k < |ws| ==> WholeSecond(ws[k].start) && WholeSecond(ws[k].end)
    requires forall k, l :: 0 <= k < l < |ws| ==> PathLess(FilePath(ws[k]), FilePath(ws[l]))
    requires i < j < |ws|
    ensures ws[i].start < ws[j].start || (ws[i].start == ws[j].start && ws[i].end < ws[j].end)
  {
    PathOrder(ws[i], ws[j]);
    FloorSecondBounds(ws[i].start);
    FloorSecondBounds(ws[j].start);
    FloorSecondBounds(ws[i].end);
    FloorSecondBounds(ws[j].end);
  }

  /** The directory of a file names the day in which its window starts, and so that of all its rows. */
  lemma PathNamesItsDay(w: Window)
    requires FourDigitYear(w.start) && FourDigitYear(w.end)
    ensures var p := ParsePartition(FilePath(w).dir);
            && p.Partition? && p.date.Valid()
            && DayNumber(p.date) * DAY <= w.start < (DayNumber(p.date) + 1) * DAY
            && (w.start < w.end && w.OneDay() ==>
                  forall t :: w.Contains(t) ==> DayNumber(p.date) * DAY <= t < (DayNumber(p.date) + 1) * DAY)
    ensures FilePath(w).name == Filename(w)
  {
    hide DateOf, PartitionDir, ParsePartition, DayNumber, Filename;
    PartitionParses(DateOf(w.start / DAY));
    DayNumberOfDate(w.start / DAY);
  }

  /**
   Which names hold no window, and which raise: a name that is not two stamps of fourteen digits in
   their frame holds none, and one that is but shows an impossible date or time, raises.
   */
  lemma ParseOutcomes(name: string)
    ensures ParseWindow(name) == NoWindow
            <==> !(&& |name| == 45 && name[..6] == "spans-" && name[21] == '-' && name[37..] == ".parquet"
                   && IsDigits(name[6..14]) && name[14] == 'T' && IsDigits(name[15..21])
                   && IsDigits(name[22..30]) && name[30] == 'T' && IsDigits(name[31..37]))
  {
    hide StampValue, MakeWindow;
    if |name| == 45 {
      var a, b := name[6..21], name[22..37];
      assert a[..8] == name[6..14] && a[9..] == name[15..21] && b[..8] == name[22..30] && b[9..] == name[31..37];
    }
  }

  /** A directory name that parses is that of the date it parses to; one of ten digits and dashes that does not, raises. */
  lemma ParsedPartitionIsDir(dir: string)
    ensures ParsePartition(dir).Partition? && ParsePartition(dir).date.year <= 9999 ==>
              PartitionDir(ParsePartition(dir).date) == dir
    ensures ParsePartition(dir) == NoPartition
            <==> !(&& |dir| == 13 && dir[..3] == "dt=" && IsDigits(dir[3..7]) && dir[7] == '-'
                   && IsDigits(dir[8..10]) && dir[10] == '-' && IsDigits(dir[11..]))
  {
    hide Digits, Value, Date.Valid;
    if ParsePartition(dir).Partition? {
      DigitsOfValue(dir[3..7]);
      DigitsOfValue(dir[8..10]);
      DigitsOfValue(dir[11..]);
      assert dir == dir[..3] + dir[3..7] + "-" + dir[8..10] + "-" + dir[11..];
    }
  }

  /** The listing is the glob: every file of a dated directory with the ending `.parquet`, whatever its stem. */
  lemma ListedExactly(path: LakePath)
    ensures Listed(path)
            <==> ParsePartition(path.dir).Partition? && |path.name| >= 8 && path.name[|path.name| - 8..] == ".parquet"
  {
    if EndsWith(path.name, ".parquet") {
      var n := |path.name|;
      assert path.name[n - 8..][7] == 't';
      assert path.name[n - 4..][3] == 't';
    }
  }

  /** A committed file is listed. */
  lemma CommittedFilesAreListed(w: Window)
    requires FourDigitYear(w.start) && FourDigitYear(w.end)
    ensures Listed(FilePath(w))
  {
    hide Filename, DateOf, PartitionDir, EndsWith, StartsWith, ParsePartition;
    FilenameSuffix(w);
    PartitionParses(DateOf(w.start / DAY));
    StagingName(Filename(w));
  }

  /** Its staging file is neither listed nor parsed, and lies in the same directory. */
  lemma StagingFilesAreNot(w: Window)
    requires FourDigitYear(w.start) && FourDigitYear(w.end)
    ensures TempPath(FilePath(w)) == LakePath(FilePath(w).dir, Filename(w) + ".tmp")
    ensures !Listed(TempPath(FilePath(w)))
    ensures ParseWindow(Filename(w) + ".tmp") == NoWindow
  {
    hide Filename, DateOf, PartitionDir, Stem, EndsWith, StartsWith, ParsePartition, ParseWindow;
    FilenameSuffix(w);
    StagingName(Filename(w));
    WrongLength(Filename(w) + ".tmp");
  }

  lemma WrongLength(name: string)
    requires |name| != 45
    ensures ParseWindow(name) == NoWindow
  {
  }

  lemma StagingName(name: string)
    requires |name| == 45 && name[37..] == ".parquet"
    ensures Stem(name) + ".parquet.tmp" == name + ".tmp"
    ensures EndsWith(name, ".parquet") && !EndsWith(name, ".tmp")
    ensures EndsWith(name + ".tmp", ".tmp") && !EndsWith(name + ".tmp", ".parquet")
  {
    hide Stem;
    StemDropsSuffix(name[..37], "parquet");
    assert name == name[..37] + "." + "parquet";
    assert name[37..][7] == 't' && (name + ".tmp")[48] == 'p';
    assert name[37..][4..] == "quet" && name[41..] == name[37..][4..];
    assert name[41..][0] == 'q';
    assert (name + ".tmp")[45..] == ".tmp";
  }
}
