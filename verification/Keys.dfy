/** Sorted set keys as strings, and what they can be told to name. */
module Keys {
  import opened Calendar
  import opened Decimal
  import opened Windows

  const SLUGS: seq<string> := ["reaction", "math-sprint", "memory", "word-scramble", "number-guess"]

  /** One game's board, or the cross-game board when the game is empty. */
  datatype Scope = Scope(game: string) {

    predicate IsGlobal() {
      game == ""
    }

    function Name(): string {
      if IsGlobal() then "global" else game
    }
  }

  const GLOBAL := Scope("")

  /** The suffix naming a window, as printed from a date and a week label. */
  function Suffix(p: Period, date: Date, week: (int, int)): string
    requires 1 <= date.month <= 12 && 1 <= date.day <= 31 && 1 <= week.1 <= 53
  {
    match p
    case AllTime => "all"
    case Daily => "d:" + Padded(date.year, 4) + "-" + TwoDigits(date.month) + "-" + TwoDigits(date.day)
    case Weekly => "w:" + FormatInt(week.0) + "-W" + TwoDigits(week.1)
    case Monthly => "m:" + Padded(date.year, 4) + "-" + TwoDigits(date.month)
  }

  function Bucket(p: Period, at: int): string {
    DateOfRoundTrip(Day(at));
    IsoWeekRange(Day(at));
    Suffix(p, DateOf(Day(at)), IsoWeek(Day(at)))
  }

  function KeyOf(s: Scope, bucket: string): string {
    if s.IsGlobal() then "lb:global:" + bucket else "lb:g:" + s.game + ":" + bucket
  }

  function ScopeKey(s: Scope, p: Period, at: int): string {
    KeyOf(s, Bucket(p, at))
  }

  function Staging(key: string): string {
    key + ":rebuilding"
  }

  /** What a key names: a board's window, or the staging area of one. The printed keys tell exactly
      these apart (KeyNamesBoard, StagingIsNoBoard, StagingInjective), so the other modules use this
      type for keys. */
  datatype Key = Board(scope: Scope, period: Period, start: int) | Rebuilding(of: Key)

  function BoardKey(s: Scope, p: Period, at: int): Key {
    Board(s, p, Start(p, at))
  }

  // ------------------------------------------------------------------- buckets name windows

  /** What of a date and week label a period's bucket prints. */
  function Printed(p: Period, date: Date, week: (int, int)): Date {
    match p
    case AllTime => Date(0, 0, 0)
    case Daily => date
    case Weekly => Date(week.0, week.1, 0)
    case Monthly => Date(date.year, date.month, 0)
  }

  lemma SameStart(p: Period, c: int, d: int)
    ensures Span(p, c).0 == Span(p, d).0 <==>
            Printed(p, DateOf(c), IsoWeek(c)) == Printed(p, DateOf(d), IsoWeek(d))
  {
    match p
    case AllTime =>
    case Daily =>
      DateOfRoundTrip(c);
      DateOfRoundTrip(d);
    case Weekly => IsoWeekInjective(c, d);
    case Monthly =>
      MonthSpan(c, DateOf(c).(day := 1));
      MonthSpan(d, DateOf(d).(day := 1));
      DateOfUnique(DateOf(c).(day := 1));
      DateOfUnique(DateOf(d).(day := 1));
  }

  /** Two strings with endings of the same length agree only when both parts do. */
  lemma SplitEnding(a: string, x: string, b: string, y: string)
    requires |x| == |y| && a + x == b + y
    ensures a == b && x == y
  {
    assert a == (a + x)[..|a|] && b == (b + y)[..|b|];
    assert x == (a + x)[|a|..] && y == (b + y)[|b|..];
  }

  lemma DailyBucketInjective(c: Date, d: Date)
    requires 1 <= c.month <= 12 && 1 <= d.month <= 12 && 1 <= c.day <= 31 && 1 <= d.day <= 31
    requires "d:" + Padded(c.year, 4) + "-" + TwoDigits(c.month) + "-" + TwoDigits(c.day)
          == "d:" + Padded(d.year, 4) + "-" + TwoDigits(d.month) + "-" + TwoDigits(d.day)
    ensures c == d
  {
    SplitEnding("d:" + Padded(c.year, 4) + "-" + TwoDigits(c.month) + "-", TwoDigits(c.day),
                "d:" + Padded(d.year, 4) + "-" + TwoDigits(d.month) + "-", TwoDigits(d.day));
    TwoDigitsInjective(c.day, d.day);
    SplitEnding("d:" + Padded(c.year, 4) + "-" + TwoDigits(c.month), "-",
                "d:" + Padded(d.year, 4) + "-" + TwoDigits(d.month), "-");
    YearMonthInjective("d:", c, d);
  }

  lemma YearMonthInjective(prefix: string, c: Date, d: Date)
    requires 1 <= c.month <= 12 && 1 <= d.month <= 12
    requires prefix + Padded(c.year, 4) + "-" + TwoDigits(c.month)
          == prefix + Padded(d.year, 4) + "-" + TwoDigits(d.month)
    ensures c.year == d.year && c.month == d.month
  {
    SplitEnding(prefix + Padded(c.year, 4) + "-", TwoDigits(c.month),
                prefix + Padded(d.year, 4) + "-", TwoDigits(d.month));
    TwoDigitsInjective(c.month, d.month);
    SplitEnding(prefix + Padded(c.year, 4), "-", prefix + Padded(d.year, 4), "-");
    SplitStart(prefix, Padded(c.year, 4), Padded(d.year, 4));
    PaddedInjective(c.year, d.year, 4);
  }

  lemma SplitStart(prefix: string, a: string, b: string)
    requires prefix + a == prefix + b
    ensures a == b
  {
    assert a == (prefix + a)[|prefix|..] && b == (prefix + b)[|prefix|..];
  }

  lemma WeeklyBucketInjective(c: (int, int), d: (int, int))
    requires 1 <= c.1 <= 53 && 1 <= d.1 <= 53
    requires "w:" + FormatInt(c.0) + "-W" + TwoDigits(c.1) == "w:" + FormatInt(d.0) + "-W" + TwoDigits(d.1)
    ensures c == d
  {
    SplitEnding("w:" + FormatInt(c.0) + "-W", TwoDigits(c.1), "w:" + FormatInt(d.0) + "-W", TwoDigits(d.1));
    TwoDigitsInjective(c.1, d.1);
    SplitEnding("w:" + FormatInt(c.0), "-W", "w:" + FormatInt(d.0), "-W");
    SplitStart("w:", FormatInt(c.0), FormatInt(d.0));
    FormatIntInjective(c.0, d.0);
  }

  lemma SuffixInjective(p: Period, c: Date, v: (int, int), d: Date, w: (int, int))
    requires 1 <= c.month <= 12 && 1 <= c.day <= 31 && 1 <= v.1 <= 53
    requires 1 <= d.month <= 12 && 1 <= d.day <= 31 && 1 <= w.1 <= 53
    ensures Suffix(p, c, v) == Suffix(p, d, w) <==> Printed(p, c, v) == Printed(p, d, w)
  {
    if Suffix(p, c, v) == Suffix(p, d, w) {
      match p
      case AllTime =>
      case Daily => DailyBucketInjective(c, d);
      case Weekly => WeeklyBucketInjective(v, w);
      case Monthly => YearMonthInjective("m:", c, d);
    }
  }

  /** Two instants get the same bucket exactly when they get the same window. */
  lemma BucketNamesWindow(p: Period, t: int, u: int)
    ensures Bucket(p, t) == Bucket(p, u) <==> Start(p, t) == Start(p, u)
  {
    DateOfRoundTrip(Day(t));
    DateOfRoundTrip(Day(u));
    IsoWeekRange(Day(t));
    IsoWeekRange(Day(u));
    SameStart(p, Day(t), Day(u));
    SuffixInjective(p, DateOf(Day(t)), IsoWeek(Day(t)), DateOf(Day(u)), IsoWeek(Day(u)));
  }

  // ------------------------------------------------------------------------- keys name boards

  /** What a bucket looks like: a period letter, then a part that starts with a digit or a sign and
      holds no colon. */
  ghost predicate BucketLike(p: Period, b: string) {
    && |b| >= 3
    && b[0] == (match p case AllTime => 'a' case Daily => 'd' case Weekly => 'w' case Monthly => 'm')
    && (p == AllTime ==> b == "all")
    && (p != AllTime ==> b[1] == ':' && (b[2] == '-' || IsDigit(b[2])))
    && (forall k :: 2 <= k < |b| ==> b[k] != ':')
    && b[|b| - 1] != 'g'
  }

  lemma LabelShape(head: string, n: int, width: nat, tail: string, b: string)
    requires |head| == 2 && head[1] == ':' && |tail| > 0 && tail[|tail| - 1] != 'g'
    requires forall k :: 0 <= k < |tail| ==> tail[k] != ':'
    requires b == head + (Padded(n, width) + tail)
    ensures |b| >= 3 && b[0] == head[0] && b[1] == ':' && (b[2] == '-' || IsDigit(b[2]))
    ensures forall k :: 2 <= k < |b| ==> b[k] != ':'
    ensures b[|b| - 1] != 'g'
  {
    PaddedShape(n, width);
    NoColon(n, width);
    var rest := Padded(n, width) + tail;
    assert forall k :: 0 <= k < |rest| ==> rest[k] != ':';
    assert forall k :: 2 <= k < |b| ==> b[k] == rest[k - 2];
    assert b[2] == Padded(n, width)[0];
  }

  lemma DailyShape(date: Date)
    requires 1 <= date.month <= 12 && 1 <= date.day <= 31
    ensures BucketLike(Daily, "d:" + Padded(date.year, 4) + "-" + TwoDigits(date.month) + "-" + TwoDigits(date.day))
  {
    var tail := "-" + TwoDigits(date.month) + "-" + TwoDigits(date.day);
    var b := "d:" + Padded(date.year, 4) + "-" + TwoDigits(date.month) + "-" + TwoDigits(date.day);
    assert b == "d:" + (Padded(date.year, 4) + tail);
    LabelShape("d:", date.year, 4, tail, b);
  }

  lemma WeeklyShape(week: (int, int))
    requires 1 <= week.1 <= 53
    ensures BucketLike(Weekly, "w:" + FormatInt(week.0) + "-W" + TwoDigits(week.1))
  {
    var tail := "-W" + TwoDigits(week.1);
    var b := "w:" + FormatInt(week.0) + "-W" + TwoDigits(week.1);
    FormatIntIsPadded(week.0);
    assert b == "w:" + (Padded(week.0, 0) + tail);
    LabelShape("w:", week.0, 0, tail, b);
  }

  lemma MonthlyShape(date: Date)
    requires 1 <= date.month <= 12
    ensures BucketLike(Monthly, "m:" + Padded(date.year, 4) + "-" + TwoDigits(date.month))
  {
    var tail := "-" + TwoDigits(date.month);
    var b := "m:" + Padded(date.year, 4) + "-" + TwoDigits(date.month);
    assert b == "m:" + (Padded(date.year, 4) + tail);
    LabelShape("m:", date.year, 4, tail, b);
  }

  lemma SuffixShape(p: Period, date: Date, week: (int, int))
    requires 1 <= date.month <= 12 && 1 <= date.day <= 31 && 1 <= week.1 <= 53
    ensures BucketLike(p, Suffix(p, date, week))
  {
    match p
    case AllTime =>
    case Daily => DailyShape(date);
    case Weekly => WeeklyShape(week);
    case Monthly => MonthlyShape(date);
  }

  lemma BucketShape(p: Period, at: int)
    ensures BucketLike(p, Bucket(p, at))
  {
    DateOfRoundTrip(Day(at));
    IsoWeekRange(Day(at));
    SuffixShape(p, DateOf(Day(at)), IsoWeek(Day(at)));
  }

  lemma NoColon(n: int, width: nat)
    ensures forall i :: 0 <= i < |Padded(n, width)| ==> Padded(n, width)[i] != ':'
  {
    var s := Padded(n, width);
    PaddedShape(n, width);
    forall i | 0 <= i < |s| ensures s[i] != ':' {
      if n >= 0 {
        assert s[i] in s && IsDigit(s[i]);
      } else if i > 0 {
        assert s[1..][i - 1] in s[1..] && IsDigit(s[1..][i - 1]);
      }
    }
  }

  /** One bucket preceded by a colon can end with another only if they are the same bucket. */
  lemma ColonBucketAligned(p: Period, b: string, q: Period, c: string, x: string, y: string)
    requires BucketLike(p, b) && BucketLike(q, c)
    requires x + ":" + b == y + ":" + c
    ensures x == y && b == c
  {
    if |b| > |c| {
      LongerBucket(p, b, q, c, x, y);
    }
    if |c| > |b| {
      LongerBucket(q, c, p, b, y, x);
    }
    SplitEnding(x + ":", b, y + ":", c);
    SplitEnding(x, ":", y, ":");
  }

  lemma LongerBucket(p: Period, b: string, q: Period, c: string, x: string, y: string)
    requires BucketLike(p, b) && BucketLike(q, c) && |b| > |c|
    ensures x + ":" + b != y + ":" + c
  {
    var s, t := x + ":" + b, y + ":" + c;
    var k := |b| - |c| - 1;
    assert b[k] != ':' || b[k + 1] != c[0];
    if |s| == |t| {
      assert s[|y|] == b[k] && s[|y| + 1] == b[k + 1];
      assert t[|y|] == ':' && t[|y| + 1] == c[0];
    }
  }

  lemma GlobalKeysDiffer(s: Scope, b: string, r: Scope, c: string)
    requires s.IsGlobal() && !r.IsGlobal()
    ensures KeyOf(s, b) != KeyOf(r, c)
  {
    assert KeyOf(s, b)[4] == 'l' && KeyOf(r, c)[4] == ':';
  }

  lemma KeyShapes(s: Scope, b: string, r: Scope, c: string, p: Period, q: Period)
    requires BucketLike(p, b) && BucketLike(q, c)
    requires KeyOf(s, b) == KeyOf(r, c)
    ensures s == r && p == q && b == c
  {
    if s.IsGlobal() && !r.IsGlobal() {
      GlobalKeysDiffer(s, b, r, c);
    } else if !s.IsGlobal() && r.IsGlobal() {
      GlobalKeysDiffer(r, c, s, b);
    } else if s.IsGlobal() {
      SplitStart("lb:global:", b, c);
    } else {
      ColonBucketAligned(p, b, q, c, "lb:g:" + s.game, "lb:g:" + r.game);
      SplitStart("lb:g:", s.game, r.game);
    }
  }

  /** Equal keys mean the same board of the same window: nothing written for one board, period or
      window is ever read for another. */
  lemma KeyNamesBoard(s: Scope, p: Period, t: int, r: Scope, q: Period, u: int)
    ensures ScopeKey(s, p, t) == ScopeKey(r, q, u) <==> BoardKey(s, p, t) == BoardKey(r, q, u)
  {
    BucketNamesWindow(p, t, u);
    BucketShape(p, t);
    BucketShape(q, u);
    if ScopeKey(s, p, t) == ScopeKey(r, q, u) {
      KeyShapes(s, Bucket(p, t), r, Bucket(q, u), p, q);
    }
  }

  /** A staging key is never a board's own key. */
  lemma StagingIsNoBoard(key: string, s: Scope, p: Period, t: int)
    ensures Staging(key) != ScopeKey(s, p, t)
  {
    BucketShape(p, t);
    StagingEnds(key, s, p, Bucket(p, t));
  }

  lemma StagingEnds(key: string, s: Scope, p: Period, b: string)
    requires BucketLike(p, b)
    ensures Staging(key) != KeyOf(s, b)
  {
    assert KeyOf(s, b)[|KeyOf(s, b)| - 1] == b[|b| - 1];
    assert Staging(key)[|Staging(key)| - 1] == 'g';
  }

  /** And tells which key it is the staging key of. */
  lemma StagingInjective(k: string, l: string)
    ensures Staging(k) == Staging(l) <==> k == l
  {
    if Staging(k) == Staging(l) {
      SplitEnding(k, ":rebuilding", l, ":rebuilding");
    }
  }

  lemma KnownDate(y: int, c: int)
    requires y == 2026 && c == DayNumber(Date(y, 9, 7))
    ensures DateOf(c) == Date(y, 9, 7) && IsoWeek(c) == (y, 37)
  {
    KnownMonday(y);
    DateOfUnique(Date(y, 9, 7));
    NextYear(y);
    YearOfDay(y, c + 3);
  }

  lemma KnownNumbers(y: int)
    requires y == 2026
    ensures FormatInt(y) == "2026" && Padded(y, 4) == "2026"
    ensures TwoDigits(9) == "09" && TwoDigits(7) == "07" && TwoDigits(37) == "37"
  {
    assert Digits(2) == "2";
    assert Digits(20) == "20";
    assert Digits(202) == "202";
    assert Zeros(0) == "";
  }

  lemma KnownDaily(date: Date, week: (int, int))
    requires date == Date(2026, 9, 7) && week == (2026, 37)
    ensures Suffix(Daily, date, week) == "d:2026-09-07"
  {
    KnownNumbers(date.year);
    assert Suffix(Daily, date, week) == "d:" + "2026" + "-" + "09" + "-" + "07";
    assert "d:" + "2026" == "d:2026";
    assert "d:2026" + "-" == "d:2026-";
    assert "d:2026-" + "09" == "d:2026-09";
    assert "d:2026-09" + "-" == "d:2026-09-";
    assert "d:2026-09-" + "07" == "d:2026-09-07";
  }

  lemma KnownWeekly(date: Date, week: (int, int))
    requires date == Date(2026, 9, 7) && week == (2026, 37)
    ensures Suffix(Weekly, date, week) == "w:2026-W37"
  {
    KnownNumbers(date.year);
    assert Suffix(Weekly, date, week) == "w:" + "2026" + "-W" + "37";
    assert "w:" + "2026" == "w:2026";
    assert "w:2026" + "-W" == "w:2026-W";
    assert "w:2026-W" + "37" == "w:2026-W37";
  }

  lemma KnownMonthly(date: Date, week: (int, int))
    requires date == Date(2026, 9, 7) && week == (2026, 37)
    ensures Suffix(Monthly, date, week) == "m:2026-09"
  {
    KnownNumbers(date.year);
    assert Suffix(Monthly, date, week) == "m:" + "2026" + "-" + "09";
    assert "m:" + "2026" == "m:2026";
    assert "m:2026" + "-" == "m:2026-";
    assert "m:2026-" + "09" == "m:2026-09";
  }

  lemma KnownNames(all: string)
    requires all == "all"
    ensures KeyOf(Scope("memory"), all) == "lb:g:memory:all" && KeyOf(GLOBAL, all) == "lb:global:all"
  {
    assert "lb:g:" + "memory" == "lb:g:memory";
    assert "lb:g:memory" + ":" == "lb:g:memory:";
  }

  /** What keys look like: those of an instant on 7 September 2026. */
  lemma KnownKeys(y: int, at: int)
    requires y == 2026 && Day(at) == DayNumber(Date(y, 9, 7))
    ensures Bucket(AllTime, at) == "all" && Bucket(Daily, at) == "d:2026-09-07"
    ensures Bucket(Weekly, at) == "w:2026-W37" && Bucket(Monthly, at) == "m:2026-09"
    ensures ScopeKey(Scope("memory"), AllTime, at) == "lb:g:memory:all" && ScopeKey(GLOBAL, AllTime, at) == "lb:global:all"
  {
    KnownDate(y, Day(at));
    var date, week := DateOf(Day(at)), IsoWeek(Day(at));
    KnownDaily(date, week);
    KnownWeekly(date, week);
    KnownMonthly(date, week);
    KnownNames(Bucket(AllTime, at));
  }
}
