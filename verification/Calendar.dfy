/** The proleptic Gregorian calendar in UTC, which Go's time package computes with.

    A day is counted from 0000-01-01, so day 0 is a Saturday. */
module Calendar {

  datatype Date = Date(year: int, month: int, day: int)

  predicate IsLeap(y: int) {
    y % 4 == 0 && (y % 100 != 0 || y % 400 == 0)
  }

  function DaysInYear(y: int): int {
    if IsLeap(y) then 366 else 365
  }

  function DaysInMonth(y: int, m: int): int {
    if m == 2 then DaysInYear(y) - 337
    else if m == 4 || m == 6 || m == 9 || m == 11 then 30
    else 31
  }

  /** Days from 0000-01-01 to the first of January of year y. */
  function DaysBeforeYear(y: int): int
    decreases if y < 0 then -y else y
  {
    if y == 0 then 0
    else if y > 0 then DaysBeforeYear(y - 1) + DaysInYear(y - 1)
    else DaysBeforeYear(y + 1) - DaysInYear(y)
  }

  function DaysBeforeMonth(y: int, m: int): int
    requires 1 <= m <= 13
    decreases m
  {
    if m == 1 then 0 else DaysBeforeMonth(y, m - 1) + DaysInMonth(y, m - 1)
  }

  /** The day a date names when its month is a real one; any day number is allowed, as in
      time.Date, which carries it over. */
  function DayNumber(x: Date): int
    requires 1 <= x.month <= 12
  {
    DaysBeforeYear(x.year) + DaysBeforeMonth(x.year, x.month) + x.day - 1
  }

  /** time.Date for a month up to one past December. */
  function DayOfDate(x: Date): int
    requires 1 <= x.month <= 13
  {
    DayNumber(if x.month == 13 then Date(x.year + 1, 1, x.day) else x)
  }

  function NextDate(x: Date): Date {
    if x.day < DaysInMonth(x.year, x.month) then x.(day := x.day + 1)
    else if x.month < 12 then Date(x.year, x.month + 1, 1)
    else Date(x.year + 1, 1, 1)
  }

  function PreviousDate(x: Date): Date {
    if x.day > 1 then x.(day := x.day - 1)
    else if x.month > 1 then Date(x.year, x.month - 1, DaysInMonth(x.year, x.month - 1))
    else Date(x.year - 1, 12, 31)
  }

  function Forward(n: nat, x: Date): Date {
    if n == 0 then x else Forward(n - 1, NextDate(x))
  }

  function Backward(n: nat, x: Date): Date {
    if n == 0 then x else Backward(n - 1, PreviousDate(x))
  }

  /** The date of a day, counted off from day 0 one date at a time. */
  function DateOf(c: int): Date {
    if c >= 0 then Forward(c, Date(0, 1, 1)) else Backward(-c, Date(0, 1, 1))
  }

  predicate IsDate(x: Date) {
    1 <= x.month <= 12 && 1 <= x.day <= DaysInMonth(x.year, x.month)
  }

  /** Sunday is 0. */
  function Weekday(c: int): int {
    (c + 6) % 7
  }

  /** The Monday a day's week starts on. */
  function Monday(c: int): int {
    c - (Weekday(c) + 6) % 7
  }

  /** Year and week number as section 4.1.4 of ISO 8601:2004 labels them: a week belongs to the
      year that holds its Thursday, and the year's first such week is week 1. */
  function IsoWeek(c: int): (int, int) {
    var thursday := Monday(c) + 3;
    var year := DateOf(thursday).year;
    (year, (thursday - DaysBeforeYear(year)) / 7 + 1)
  }

  // ---------------------------------------------------------------------------------------------

  lemma NextYear(y: int)
    ensures DaysBeforeYear(y + 1) == DaysBeforeYear(y) + DaysInYear(y)
  {
  }

  lemma {:induction false} YearsAscend(y: int, z: int)
    requires y <= z
    ensures DaysBeforeYear(y) + 365 * (z - y) <= DaysBeforeYear(z)
    decreases z - y
  {
    if y < z {
      YearsAscend(y, z - 1);
      NextYear(z - 1);
    }
  }

  lemma {:induction false} MonthsAscend(y: int, m: int, n: int)
    requires 1 <= m <= n <= 13
    ensures DaysBeforeMonth(y, m) + 28 * (n - m) <= DaysBeforeMonth(y, n)
    decreases n - m
  {
    if m < n {
      MonthsAscend(y, m, n - 1);
    }
  }

  lemma YearIsTwelveMonths(y: int)
    ensures DaysBeforeMonth(y, 13) == DaysInYear(y)
  {
    assert DaysBeforeMonth(y, 4) == DaysInYear(y) - 275;
    assert DaysBeforeMonth(y, 7) == DaysBeforeMonth(y, 4) + 91;
    assert DaysBeforeMonth(y, 10) == DaysBeforeMonth(y, 7) + 92;
    assert DaysBeforeMonth(y, 13) == DaysBeforeMonth(y, 10) + 92;
  }

  /** The first of the month after, across a year end too. */
  lemma NextMonth(y: int, m: int)
    requires 1 <= m <= 12
    ensures DayOfDate(Date(y, m + 1, 1)) == DayNumber(Date(y, m, 1)) + DaysInMonth(y, m)
  {
    if m == 12 {
      NextYear(y);
      YearIsTwelveMonths(y);
    }
  }

  lemma NextDateIsNextDay(x: Date)
    requires IsDate(x)
    ensures IsDate(NextDate(x)) && DayNumber(NextDate(x)) == DayNumber(x) + 1
  {
    if x.day == DaysInMonth(x.year, x.month) {
      NextMonth(x.year, x.month);
      assert NextDate(x) == if x.month == 12 then Date(x.year + 1, 1, 1) else Date(x.year, x.month + 1, 1);
    }
  }

  lemma PreviousThenNext(x: Date)
    requires IsDate(x)
    ensures IsDate(PreviousDate(x)) && NextDate(PreviousDate(x)) == x
  {
  }

  lemma {:induction false} ForwardCounts(n: nat, x: Date)
    requires IsDate(x)
    ensures IsDate(Forward(n, x)) && DayNumber(Forward(n, x)) == DayNumber(x) + n
  {
    if n > 0 {
      NextDateIsNextDay(x);
      ForwardCounts(n - 1, NextDate(x));
    }
  }

  lemma {:induction false} BackwardCounts(n: nat, x: Date)
    requires IsDate(x)
    ensures IsDate(Backward(n, x)) && DayNumber(Backward(n, x)) == DayNumber(x) - n
  {
    if n > 0 {
      PreviousThenNext(x);
      NextDateIsNextDay(PreviousDate(x));
      BackwardCounts(n - 1, PreviousDate(x));
    }
  }

  /** A day's date is a real date and names that day again. */
  lemma DateOfRoundTrip(c: int)
    ensures IsDate(DateOf(c)) && DayNumber(DateOf(c)) == c
  {
    assert DayNumber(Date(0, 1, 1)) == 0;
    if c >= 0 {
      ForwardCounts(c, Date(0, 1, 1));
    } else {
      BackwardCounts(-c, Date(0, 1, 1));
    }
  }

  lemma DayWithinYear(x: Date)
    requires IsDate(x)
    ensures DaysBeforeYear(x.year) <= DayNumber(x) < DaysBeforeYear(x.year + 1)
  {
    NextYear(x.year);
    YearIsTwelveMonths(x.year);
    MonthsAscend(x.year, 1, x.month);
    MonthsAscend(x.year, x.month + 1, 13);
  }

  lemma LaterYearLaterDay(x: Date, y: Date)
    requires IsDate(x) && IsDate(y) && x.year < y.year
    ensures DayNumber(x) < DayNumber(y)
  {
    DayWithinYear(x);
    DayWithinYear(y);
    YearsAscend(x.year + 1, y.year);
  }

  lemma LaterMonthLaterDay(x: Date, y: Date)
    requires IsDate(x) && IsDate(y) && x.year == y.year && x.month < y.month
    ensures DayNumber(x) < DayNumber(y)
  {
    MonthsAscend(x.year, x.month + 1, y.month);
  }

  lemma LaterDateLaterDay(x: Date, y: Date)
    requires IsDate(x) && IsDate(y)
    requires x.year < y.year || (x.year == y.year && x.month < y.month)
    ensures DayNumber(x) < DayNumber(y)
  {
    if x.year < y.year {
      LaterYearLaterDay(x, y);
    } else {
      LaterMonthLaterDay(x, y);
    }
  }

  /** Real dates of the same day are the same date. */
  lemma OneDatePerDay(x: Date, y: Date)
    requires IsDate(x) && IsDate(y) && DayNumber(x) == DayNumber(y)
    ensures x == y
  {
    if x.year < y.year || (x.year == y.year && x.month < y.month) {
      LaterDateLaterDay(x, y);
    } else if y.year < x.year || (y.year == x.year && y.month < x.month) {
      LaterDateLaterDay(y, x);
    }
  }

  /** And it is the only one: counting to a real date's day gives that date back. */
  lemma DateOfUnique(x: Date)
    requires IsDate(x)
    ensures DateOf(DayNumber(x)) == x
  {
    DateOfRoundTrip(DayNumber(x));
    OneDatePerDay(DateOf(DayNumber(x)), x);
  }

  lemma MondayMultiple(c: int)
    ensures Monday(c) == 7 * ((c + 5) / 7) - 5
  {
    assert c + 5 == 7 * ((c + 5) / 7) + (c + 5) % 7;
    assert c + 6 == 7 * ((c + 6) / 7) + (c + 6) % 7;
  }

  /** A week is the seven days from its Monday. */
  lemma WeekTiles(c: int, d: int)
    ensures Monday(c) <= c < Monday(c) + 7
    ensures Monday(c) <= d < Monday(c) + 7 <==> Monday(d) == Monday(c)
  {
    MondayMultiple(c);
    MondayMultiple(d);
  }

  lemma WeekNumbersApart(a: int, b: int, first: int)
    requires Monday(a) == a && Monday(b) == b
    requires (a + 3 - first) / 7 == (b + 3 - first) / 7
    ensures a == b
  {
    assert -7 < a - b < 7;
    WeekTiles(a, b);
    WeekTiles(b, a);
  }

  lemma MondayIsMonday(c: int)
    ensures Monday(Monday(c)) == Monday(c)
  {
    WeekTiles(c, Monday(c));
  }

  /** The label tells weeks apart, across year ends too: week 53, week 1 and the days whose calendar
      year is not their week's year included. */
  lemma IsoWeekInjective(c: int, d: int)
    ensures IsoWeek(c) == IsoWeek(d) <==> Monday(c) == Monday(d)
  {
    if IsoWeek(c) == IsoWeek(d) {
      MondayIsMonday(c);
      MondayIsMonday(d);
      WeekNumbersApart(Monday(c), Monday(d), DaysBeforeYear(IsoWeek(c).0));
    }
  }

  lemma IsoWeekRange(c: int)
    ensures 1 <= IsoWeek(c).1 <= 53
  {
    var thursday := Monday(c) + 3;
    DateOfRoundTrip(thursday);
    DayWithinYear(DateOf(thursday));
    NextYear(DateOf(thursday).year);
  }

  // ------------------------------------------------------------------- where the calendar is anchored

  lemma FourthYears(y: int)
    ensures (y + 4) / 4 - (y + 3) / 4 == if y % 4 == 0 then 1 else 0
  {
  }

  lemma Hundreds(a: int, q: int)
    requires 100 * q <= a < 100 * q + 100
    ensures a / 100 == q
  {
  }

  lemma FourHundreds(a: int, q: int)
    requires 400 * q <= a < 400 * q + 400
    ensures a / 400 == q
  {
  }

  lemma Fours(y: int, k: int)
    requires y == 4 * k
    ensures y % 4 == 0
  {
  }

  lemma HundredthYears(y: int)
    ensures (y + 100) / 100 - (y + 99) / 100 == if y % 100 == 0 then 1 else 0
    ensures y % 100 == 0 ==> y % 4 == 0
  {
    var q := y / 100;
    assert y == 100 * q + y % 100;
    Hundreds(y + 100, q + 1);
    Hundreds(y + 99, if y % 100 == 0 then q else q + 1);
    if y % 100 == 0 {
      Fours(y, 25 * q);
    }
  }

  lemma FourHundredthYears(y: int)
    ensures (y + 400) / 400 - (y + 399) / 400 == if y % 400 == 0 then 1 else 0
    ensures y % 400 == 0 ==> y % 100 == 0
  {
    var q := y / 400;
    assert y == 400 * q + y % 400;
    FourHundreds(y + 400, q + 1);
    FourHundreds(y + 399, if y % 400 == 0 then q else q + 1);
    if y % 400 == 0 {
      Hundreds(y, 4 * q);
    }
  }

  /** Leap days are every fourth year's but those of full centuries, of which every fourth has one. */
  lemma {:induction false} LeapDays(y: int)
    ensures DaysBeforeYear(y) == 365 * y + (y + 3) / 4 - (y + 99) / 100 + (y + 399) / 400
    decreases if y < 0 then -y else y
  {
    if y > 0 {
      LeapDays(y - 1);
      FourthYears(y - 1);
      HundredthYears(y - 1);
      FourHundredthYears(y - 1);
    } else if y < 0 {
      LeapDays(y + 1);
      FourthYears(y);
      HundredthYears(y);
      FourHundredthYears(y);
    }
  }

  lemma MonthsBefore(y: int)
    ensures DaysBeforeMonth(y, 9) == DaysInYear(y) - 122 && DaysBeforeMonth(y, 1) == 0
  {
    assert DaysBeforeMonth(y, 4) == DaysInYear(y) - 275;
    assert DaysBeforeMonth(y, 7) == DaysBeforeMonth(y, 4) + 91;
  }

  /** How many days of a year have gone when a month begins, but for the leap day. */
  lemma MonthsBegin(y: int, m: int)
    requires 1 <= m <= 13
    ensures DaysBeforeMonth(y, m) ==
            [0, 31, 59, 90, 120, 151, 181, 212, 243, 273, 304, 334, 365][m - 1] + if m > 2 then DaysInYear(y) - 365 else 0
  {
    assert DaysBeforeMonth(y, 3) == DaysInYear(y) - 306;
    assert DaysBeforeMonth(y, 5) == DaysBeforeMonth(y, 3) + 61;
    assert DaysBeforeMonth(y, 7) == DaysBeforeMonth(y, 5) + 61;
    assert DaysBeforeMonth(y, 9) == DaysBeforeMonth(y, 7) + 62;
    assert DaysBeforeMonth(y, 11) == DaysBeforeMonth(y, 9) + 61;
    assert DaysBeforeMonth(y, 13) == DaysBeforeMonth(y, 11) + 61;
  }

  /** The first of January 1970 was a Thursday, 719528 days in. */
  lemma KnownThursday(y: int)
    requires y == 1970
    ensures DayNumber(Date(y, 1, 1)) == 719_528 && Weekday(DayNumber(Date(y, 1, 1))) == 4
  {
    LeapDays(y);
    MonthsBefore(y);
  }

  /** And 7 September 2026 is a Monday. */
  lemma KnownMonday(y: int)
    requires y == 2026
    ensures DaysBeforeYear(y) == 739_982 && DayNumber(Date(y, 9, 7)) == 740_231
    ensures Monday(DayNumber(Date(y, 9, 7))) == DayNumber(Date(y, 9, 7))
  {
    LeapDays(y);
    MonthsBefore(y);
  }

  /** A day belongs to the year it lies in. */
  lemma YearOfDay(y: int, d: int)
    requires DaysBeforeYear(y) <= d < DaysBeforeYear(y + 1)
    ensures DateOf(d).year == y
  {
    DateOfRoundTrip(d);
    DayWithinYear(DateOf(d));
    if DateOf(d).year < y {
      YearsAscend(DateOf(d).year + 1, y);
    } else if DateOf(d).year > y {
      YearsAscend(y + 1, DateOf(d).year);
    }
  }

  lemma YearHolds(d: int)
    ensures DaysBeforeYear(DateOf(d).year) <= d < DaysBeforeYear(DateOf(d).year + 1)
  {
    DateOfRoundTrip(d);
    DayWithinYear(DateOf(d));
  }

  /** The week of 4 January is the first of the year, whatever day that is. */
  lemma FourthOfJanuary(y: int)
    ensures IsoWeek(DaysBeforeYear(y) + 3) == (y, 1)
    ensures DayNumber(Date(y, 1, 4)) == DaysBeforeYear(y) + 3
  {
    var c := DaysBeforeYear(y) + 3;
    WeekTiles(c, c);
    NextYear(y);
    assert DaysBeforeYear(y) <= Monday(c) + 3 <= DaysBeforeYear(y) + 6;
    YearOfDay(y, Monday(c) + 3);
  }

  lemma AWeekLater(c: int)
    ensures Monday(c + 7) == Monday(c) + 7
  {
  }

  lemma SevenMore(a: int)
    ensures (a + 7) / 7 == a / 7 + 1
    ensures 0 <= a < 7 ==> a / 7 == 0
  {
  }

  lemma WeekOfYear(c: int, year: int, thursday: int)
    requires thursday == Monday(c) + 3 && DaysBeforeYear(year) <= thursday < DaysBeforeYear(year + 1)
    ensures IsoWeek(c) == (year, (thursday - DaysBeforeYear(year)) / 7 + 1)
  {
    YearOfDay(year, thursday);
  }

  /** Weeks are counted on from there: the next one has the next number, or is the first of the next year. */
  lemma NextWeek(c: int)
    ensures var (year, week) := IsoWeek(c);
            IsoWeek(c + 7) == (year, week + 1) || IsoWeek(c + 7) == (year + 1, 1)
  {
    var thursday := Monday(c) + 3;
    var year := IsoWeek(c).0;
    AWeekLater(c);
    YearHolds(thursday);
    if thursday + 7 < DaysBeforeYear(year + 1) {
      SevenMore(thursday - DaysBeforeYear(year));
      WeekOfYear(c + 7, year, thursday + 7);
    } else {
      NextYear(year + 1);
      SevenMore(thursday + 7 - DaysBeforeYear(year + 1));
      WeekOfYear(c + 7, year + 1, thursday + 7);
    }
  }
}
