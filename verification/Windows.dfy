/** The four leaderboard windows.

    An instant counts nanoseconds from 0000-01-01 00:00 UTC. */
module Windows {
  import opened Calendar

  /** Go's zero time, 0001-01-01 00:00 UTC, which stands for "no bound". */
  const ZERO_TIME := Midnight(366)

  datatype Period = AllTime | Daily | Weekly | Monthly {

    function Name(): string {
      match this
      case AllTime => "all-time"
      case Daily => "daily"
      case Weekly => "weekly"
      case Monthly => "monthly"
    }

    /** How long a key of this period is kept, 0 meaning for ever. */
    function Ttl(): int {
      match this
      case Daily => Midnight(2)
      case Weekly => Midnight(14)
      case Monthly => Midnight(62)
      case AllTime => 0
    }
  }

  /** Every period, in the order the submit script expects its keys. */
  const PERIODS: seq<Period> := [AllTime, Daily, Weekly, Monthly]

  /** Where a period stands in that order. */
  function PlaceOf(p: Period): (i: nat)
    ensures i < |PERIODS| && PERIODS[i] == p
  {
    match p
    case AllTime => 0
    case Daily => 1
    case Weekly => 2
    case Monthly => 3
  }

  /** The day an instant falls in, of 86400 seconds of a thousand million nanoseconds. */
  function Day(t: int): int {
    t / 86_400_000_000_000
  }

  function Midnight(c: int): int {
    c * 86_400_000_000_000
  }

  function TimeOfDay(t: int): int {
    t - Midnight(Day(t))
  }

  /** time.Date for the first day of the window that holds day c. */
  function FirstDay(p: Period, c: int): int
    requires p != AllTime
  {
    var date := DateOf(c);
    DateOfRoundTrip(c);
    match p
    case Daily => DayOfDate(date)
    case Weekly => DayOfDate(date.(day := date.day - (Weekday(c) + 6) % 7))
    case Monthly => DayOfDate(date.(day := 1))
  }

  /** The calendar moved on from day c by a number of months (at most one) and days. */
  function ShiftDay(c: int, months: int, days: int): int
    requires 0 <= months <= 1
  {
    var date := DateOf(c);
    DateOfRoundTrip(c);
    DayOfDate(Date(date.year, date.month + months, date.day + days))
  }

  /** time.AddDate: the calendar moves, the time of day stays. */
  function AddDate(t: int, months: int, days: int): int
    requires 0 <= months <= 1
  {
    Midnight(ShiftDay(Day(t), months, days)) + TimeOfDay(t)
  }

  function Months(p: Period): int {
    if p == Monthly then 1 else 0
  }

  function Days(p: Period): int {
    if p == Daily then 1 else if p == Weekly then 7 else 0
  }

  /** The half-open interval a period covers at an instant, by calendar fields; two zero times for
      all-time. */
  function Window(p: Period, at: int): (int, int) {
    if p == AllTime then (ZERO_TIME, ZERO_TIME)
    else
      var from := Midnight(FirstDay(p, Day(at)));
      (from, AddDate(from, Months(p), Days(p)))
  }

  /** The days a window spans, counted directly: the reference the calendar arithmetic of Window is
      held against. */
  function Span(p: Period, c: int): (int, int) {
    match p
    case AllTime => (366, 366)
    case Daily => (c, c + 1)
    case Weekly => (Monday(c), Monday(c) + 7)
    case Monthly =>
      var first := c - DateOf(c).day + 1;
      (first, first + DaysInMonth(DateOf(c).year, DateOf(c).month))
  }

  /** Where an instant's window starts. The start names the window: see WindowsTile. */
  function Start(p: Period, at: int): int {
    Midnight(Span(p, Day(at)).0)
  }

  function End(p: Period, at: int): int {
    Midnight(Span(p, Day(at)).1)
  }

  /** Whether an instant counts towards the window a period has at another instant. */
  predicate Covers(p: Period, at: int, t: int) {
    p == AllTime || Start(p, at) <= t < End(p, at)
  }

  lemma FirstDayIsSpanStart(p: Period, c: int)
    requires p != AllTime
    ensures FirstDay(p, c) == Span(p, c).0
  {
    DateOfRoundTrip(c);
  }

  lemma ShiftByDays(c: int, days: int)
    ensures ShiftDay(c, 0, days) == c + days
  {
    DateOfRoundTrip(c);
  }

  lemma ShiftByMonth(x: Date)
    requires IsDate(x) && x.day == 1
    ensures ShiftDay(DayNumber(x), 1, 0) == DayNumber(x) + DaysInMonth(x.year, x.month)
  {
    DateOfUnique(x);
    NextMonth(x.year, x.month);
  }

  lemma MonthSpan(c: int, x: Date)
    requires x == DateOf(c).(day := 1)
    ensures IsDate(x) && Span(Monthly, c) == (DayNumber(x), DayNumber(x) + DaysInMonth(x.year, x.month))
  {
    DateOfRoundTrip(c);
  }

  lemma AddDateFromMidnight(c: int, months: int, days: int)
    requires 0 <= months <= 1
    ensures AddDate(Midnight(c), months, days) == Midnight(ShiftDay(c, months, days))
  {
    assert Day(Midnight(c)) == c;
  }

  lemma ShiftEndsSpan(p: Period, c: int)
    requires p != AllTime
    ensures ShiftDay(Span(p, c).0, Months(p), Days(p)) == Span(p, c).1
  {
    if p == Monthly {
      var x := DateOf(c).(day := 1);
      MonthSpan(c, x);
      ShiftByMonth(x);
    } else {
      ShiftByDays(Span(p, c).0, Days(p));
    }
  }

  /** The calendar arithmetic comes to whole days: the day itself, the seven days from its Monday, or
      its month. */
  lemma WindowIsSpan(p: Period, at: int)
    ensures Window(p, at) == (Start(p, at), End(p, at))
  {
    if p != AllTime {
      FirstDayIsSpanStart(p, Day(at));
      ShiftEndsSpan(p, Day(at));
      AddDateFromMidnight(Span(p, Day(at)).0, Months(p), Days(p));
    }
  }

  lemma MonthTiles(c: int, d: int)
    requires Span(Monthly, c).0 <= d < Span(Monthly, c).1
    ensures Span(Monthly, d) == Span(Monthly, c)
  {
    var x := DateOf(c).(day := 1);
    MonthSpan(c, x);
    DayOfMonth(x, d);
    MonthSpan(d, x);
  }

  lemma DayOfMonth(x: Date, d: int)
    requires IsDate(x) && x.day == 1
    requires DayNumber(x) <= d < DayNumber(x) + DaysInMonth(x.year, x.month)
    ensures DateOf(d).(day := 1) == x
  {
    var y := x.(day := d - DayNumber(x) + 1);
    assert DayNumber(y) == d;
    DateOfUnique(y);
  }

  lemma SpanTiles(p: Period, c: int, d: int)
    requires p != AllTime
    ensures Span(p, c).0 <= c < Span(p, c).1
    ensures Span(p, c).0 <= d < Span(p, c).1 <==> Span(p, d) == Span(p, c)
  {
    match p
    case Daily =>
    case Weekly => WeekTiles(c, d);
    case Monthly =>
      DateOfRoundTrip(c);
      DateOfRoundTrip(d);
      if Span(Monthly, c).0 <= d < Span(Monthly, c).1 {
        MonthTiles(c, d);
      }
  }

  /** Spans that start together end together. */
  lemma SpanStartNames(p: Period, c: int, d: int)
    ensures Span(p, c).0 == Span(p, d).0 <==> Span(p, c) == Span(p, d)
  {
    if p == Monthly && Span(p, c).0 == Span(p, d).0 {
      var first := Span(p, c).0;
      SpanTiles(p, c, c);
      SpanTiles(p, c, first);
      SpanTiles(p, d, d);
      SpanTiles(p, d, first);
    }
  }

  lemma DayBounds(t: int, a: int, b: int)
    ensures Midnight(a) <= t < Midnight(b) <==> a <= Day(t) < b
  {
    assert Midnight(Day(t)) <= t < Midnight(Day(t) + 1);
  }

  /** Windows tile time: each holds its own instant, an instant lies in exactly one, and the start
      alone says which. */
  lemma WindowsTile(p: Period, at: int, t: int)
    ensures Covers(p, at, at)
    ensures Covers(p, at, t) <==> Start(p, t) == Start(p, at)
    ensures Start(p, t) == Start(p, at) <==> Window(p, t) == Window(p, at)
  {
    WindowIsSpan(p, at);
    WindowIsSpan(p, t);
    SpanStartNames(p, Day(at), Day(t));
    if p != AllTime {
      DayBounds(at, Span(p, Day(at)).0, Span(p, Day(at)).1);
      DayBounds(t, Span(p, Day(at)).0, Span(p, Day(at)).1);
      SpanTiles(p, Day(at), Day(at));
      SpanTiles(p, Day(at), Day(t));
    }
  }

  /** Later instants lie in the same window or a later one. */
  lemma StartAscends(p: Period, t: int, u: int)
    requires t <= u
    ensures Start(p, t) <= Start(p, u)
  {
    WindowsTile(p, t, t);
    WindowsTile(p, u, u);
    WindowsTile(p, t, Start(p, t));
    WindowsTile(p, u, Start(p, t));
  }

  /** Once a window has ended, another has started. */
  lemma EndStartsLater(p: Period, at: int)
    requires p != AllTime
    ensures at < End(p, at) && Start(p, at) < Start(p, End(p, at))
  {
    WindowsTile(p, at, at);
    WindowsTile(p, at, End(p, at));
    StartAscends(p, at, End(p, at));
  }

  /** The window of the nanosecond before a window starts ends exactly where that window starts. */
  lemma PreviousWindowAdjoins(p: Period, at: int)
    requires p != AllTime
    ensures End(p, Start(p, at) - 1) == Start(p, at)
    ensures Start(p, Start(p, at) - 1) < Start(p, at)
  {
    var from := Start(p, at);
    WindowsTile(p, at, from);
    WindowsTile(p, from - 1, from);
  }

  /** A window that ends is followed by one that starts there. */
  lemma NextSpanAdjoins(p: Period, c: int)
    requires p != AllTime
    ensures Span(p, Span(p, c).1).0 == Span(p, c).1
  {
    var e := Span(p, c).1;
    SpanTiles(p, c, c);
    SpanTiles(p, c, e);
    SpanTiles(p, c, e - 1);
    SpanTiles(p, e, e);
    SpanTiles(p, e, e - 1);
  }

  lemma SpanIsShort(p: Period, c: int)
    requires p != AllTime
    ensures Span(p, c).1 - Span(p, c).0 <= if p == Daily then 1 else if p == Weekly then 7 else 31
    ensures p != Monthly ==> Span(p, c).1 - Span(p, c).0 == if p == Daily then 1 else 7
  {
  }

  /** Keys outlast the window after their own: the expiry is exactly two days, two weeks, and no less than
      any two months. */
  lemma KeptThroughNextWindow(p: Period, at: int)
    requires p != AllTime
    ensures End(p, End(p, at)) <= Start(p, at) + p.Ttl()
    ensures p != Monthly ==> End(p, End(p, at)) == Start(p, at) + p.Ttl()
  {
    var c := Day(at);
    var e := Span(p, c).1;
    assert Day(Midnight(e)) == e;
    NextSpanAdjoins(p, c);
    SpanIsShort(p, c);
    SpanIsShort(p, e);
  }

  /** For months it cannot be less: July and August come to just that. */
  lemma TwoLongMonths(y: int)
    ensures var july := Midnight(DayNumber(Date(y, 7, 1))); End(Monthly, End(Monthly, july)) == Start(Monthly, july) + Monthly.Ttl()
  {
    var c := DayNumber(Date(y, 7, 1));
    DateOfUnique(Date(y, 7, 1));
    NextMonth(y, 7);
    DateOfUnique(Date(y, 8, 1));
    assert Day(Midnight(c)) == c && Day(Midnight(c + 31)) == c + 31;
  }
}
