/** The proleptic Gregorian calendar: day numbers counted from 1 January of year 1, and dates. */
module Calendar {

  datatype Date = Date(year: int, month: int, day: int) {
    predicate Valid() {
      && 1 <= year
      && 1 <= month <= 12
      && 1 <= day <= DaysInMonth(year, month)
    }
  }

  predicate IsLeap(year: int) {
    year % 4 == 0 && (year % 100 != 0 || year % 400 == 0)
  }

  function DaysInMonth(year: int, month: int): int {
    if month == 2 then (if IsLeap(year) then 29 else 28)
    else if month == 4 || month == 6 || month == 9 || month == 11 then 30
    else 31
  }

  function DaysInYear(year: int): int {
    if IsLeap(year) then 366 else 365
  }

  /** The day after. */
  function NextDate(d: Date): Date {
    if d.day < DaysInMonth(d.year, d.month) then Date(d.year, d.month, d.day + 1)
    else if d.month < 12 then Date(d.year, d.month + 1, 1)
    else Date(d.year + 1, 1, 1)
  }

  /** The date of day number n. */
  function DateOf(n: nat): (d: Date)
    ensures d.Valid()
  {
    if n == 0 then Date(1, 1, 1) else NextDate(DateOf(n - 1))
  }

  function DaysBeforeYear(year: int): int {
    (year - 1) * 365 + (year - 1) / 4 - (year - 1) / 100 + (year - 1) / 400
  }

  function DaysBeforeMonth(year: int, month: int): int
    decreases month
  {
    if month <= 1 then 0 else DaysBeforeMonth(year, month - 1) + DaysInMonth(year, month - 1)
  }

  /** The day number of a date, in closed form. */
  function DayNumber(d: Date): int {
    DaysBeforeYear(d.year) + DaysBeforeMonth(d.year, d.month) + d.day - 1
  }

  predicate DateLess(a: Date, b: Date) {
    || a.year < b.year
    || (a.year == b.year && a.month < b.month)
    || (a.year == b.year && a.month == b.month && a.day < b.day)
  }

  lemma YearLength(year: int)
    ensures DaysBeforeYear(year + 1) == DaysBeforeYear(year) + DaysInYear(year)
  {
    FloorStep(year, 4);
    FloorStep(year, 100);
    FloorStep(year, 400);
    CenturyRules(year);
  }

  lemma CenturyRules(year: int)
    ensures year % 400 == 0 ==> year % 100 == 0
    ensures year % 100 == 0 ==> year % 4 == 0
  {
    HundredOfFour(4 * (year / 400));
    FourOfHundred(year / 100);
  }

  lemma HundredOfFour(c: int)
    ensures (100 * c) % 100 == 0
  {
  }

  lemma FourOfHundred(c: int)
    ensures (100 * c) % 4 == 0
  {
    assert 100 * c == 4 * (25 * c);
  }

  lemma FloorStep(n: int, k: int)
    requires k == 4 || k == 100 || k == 400
    ensures n / k == (n - 1) / k + (if n % k == 0 then 1 else 0)
  {
  }

  lemma MonthsFillTheYear(year: int)
    ensures DaysBeforeMonth(year, 12) + DaysInMonth(year, 12) == DaysInYear(year)
  {
    assert DaysBeforeMonth(year, 3) == DaysInMonth(year, 1) + DaysInMonth(year, 2);
    assert DaysBeforeMonth(year, 6) == DaysBeforeMonth(year, 3) + 31 + 30 + 31;
    assert DaysBeforeMonth(year, 9) == DaysBeforeMonth(year, 6) + 30 + 31 + 31;
    assert DaysBeforeMonth(year, 12) == DaysBeforeMonth(year, 9) + 30 + 31 + 30;
  }

  lemma {:induction false} MonthsIncrease(year: int, m: int, n: int)
    requires 1 <= m < n
    ensures DaysBeforeMonth(year, m) + DaysInMonth(year, m) <= DaysBeforeMonth(year, n)
    decreases n
  {
    if m < n - 1 {
      MonthsIncrease(year, m, n - 1);
    }
  }

  lemma {:induction false} YearsIncrease(y: int, z: int)
    requires y < z
    ensures DaysBeforeYear(y) + DaysInYear(y) <= DaysBeforeYear(z)
    decreases z - y
  {
    YearLength(y);
    if y + 1 < z {
      YearsIncrease(y + 1, z);
    }
  }

  lemma WithinYear(d: Date)
    requires d.Valid()
    ensures 0 <= DaysBeforeMonth(d.year, d.month) + d.day - 1 < DaysInYear(d.year)
  {
    MonthsFillTheYear(d.year);
    if d.month < 12 {
      MonthsIncrease(d.year, d.month, 12);
    }
    if d.month > 1 {
      MonthsIncrease(d.year, 1, d.month);
    }
  }

  lemma NextDayNumber(d: Date)
    requires d.Valid()
    ensures DayNumber(NextDate(d)) == DayNumber(d) + 1
  {
    hide DaysBeforeYear, IsLeap;
    YearLength(d.year);
    MonthsFillTheYear(d.year);
  }

  /** Day numbers order dates. */
  lemma DayNumberOrders(a: Date, b: Date)
    requires a.Valid() && b.Valid()
    ensures DateLess(a, b) <==> DayNumber(a) < DayNumber(b)
    ensures a == b <==> DayNumber(a) == DayNumber(b)
  {
    if DateLess(a, b) {
      EarlierIsSmaller(a, b);
    } else if DateLess(b, a) {
      EarlierIsSmaller(b, a);
    }
  }

  lemma EarlierIsSmaller(a: Date, b: Date)
    requires a.Valid() && b.Valid() && DateLess(a, b)
    ensures DayNumber(a) < DayNumber(b)
  {
    WithinYear(a);
    WithinYear(b);
    if a.year < b.year {
      YearsIncrease(a.year, b.year);
    } else if a.month < b.month {
      MonthsIncrease(a.year, a.month, b.month);
    }
  }

  lemma {:induction false} DayNumberOfDate(n: nat)
    ensures DayNumber(DateOf(n)) == n
  {
    if n > 0 {
      DayNumberOfDate(n - 1);
      NextDayNumber(DateOf(n - 1));
    }
  }

  /** Counting days forward and the closed form are inverse to each other. */
  lemma DateOfDayNumber(d: Date)
    requires d.Valid()
    ensures DayNumber(d) >= 0 && DateOf(DayNumber(d)) == d
  {
    WithinYear(d);
    if d.year > 1 {
      YearsIncrease(1, d.year);
    }
    DayNumberOfDate(DayNumber(d));
    DayNumberOrders(DateOf(DayNumber(d)), d);
  }

  /** How many days of a common year precede each month. */
  const DAYS_BEFORE: seq<int> := [0, 31, 59, 90, 120, 151, 181, 212, 243, 273, 304, 334]

  /**
   The calendar in numbers: day 0 is 1 January of year 1; a year has 365 days, and one more in every
   fourth year, but in a hundredth only if it is a four-hundredth; and so much of it precedes each month.
   */
  lemma CalendarIsGregorian(year: int, month: int)
    requires 1 <= month <= 12
    ensures DayNumber(Date(1, 1, 1)) == 0
    ensures DayNumber(Date(year + 1, 1, 1)) - DayNumber(Date(year, 1, 1))
            == if year % 4 == 0 && (year % 100 != 0 || year % 400 == 0) then 366 else 365
    ensures DayNumber(Date(year, month, 1)) - DayNumber(Date(year, 1, 1))
            == DAYS_BEFORE[month - 1]
               + if month > 2 && year % 4 == 0 && (year % 100 != 0 || year % 400 == 0) then 1 else 0
    ensures forall day :: DayNumber(Date(year, month, day)) == DayNumber(Date(year, month, 1)) + day - 1
  {
    hide DaysBeforeYear, IsLeap;
    YearLength(year);
    assert DaysBeforeYear(1) == 0 by {
      FirstYear();
    }
    LeapMeans(year);
    var b := n => DaysBeforeMonth(year, n);
    assert b(1) == 0 && b(2) == 31;
    assert b(3) == b(2) + DaysInMonth(year, 2) && b(4) == b(3) + 31 && b(5) == b(4) + 30 && b(6) == b(5) + 31;
    assert b(7) == b(6) + 30 && b(8) == b(7) + 31 && b(9) == b(8) + 31 && b(10) == b(9) + 30;
    assert b(11) == b(10) + 31 && b(12) == b(11) + 30;
  }

  lemma FirstYear()
    ensures DaysBeforeYear(1) == 0
  {
  }

  lemma LeapMeans(year: int)
    ensures IsLeap(year) <==> year % 4 == 0 && (year % 100 != 0 || year % 400 == 0)
  {
  }

  /** Later days have later dates. */
  lemma DateOfOrders(m: nat, n: nat)
    ensures DateLess(DateOf(m), DateOf(n)) <==> m < n
    ensures DateOf(m) == DateOf(n) <==> m == n
  {
    DayNumberOfDate(m);
    DayNumberOfDate(n);
    DayNumberOrders(DateOf(m), DateOf(n));
  }
}
