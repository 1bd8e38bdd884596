/** Who the best players of a window were, from whichever store can still answer. */
module Reports {
  import opened Wrappers
  import opened Calendar
  import opened Windows
  import opened Keys
  import opened Listing
  import opened Redis
  import opened Aggregate
  import opened Refinement
  import opened History
  import opened Ranking
  import opened Projector

  const MAX_LIMIT := 100

  datatype Source = Live | Snapshotted | Historical

  /** The window is its two ends, and absent when it starts at the zero time. */
  datatype Report = Report(source: Source, window: Option<(int, int)>, players: nat, entries: seq<Entry>)

  /** A frozen window: how many rows were kept, and the rows. */
  datatype Snapshot = Snapshot(until: int, players: nat, entries: seq<Entry>)

  type SnapshotKey = (string, Period, int)

  /** The first rows of some descending listing of a board, ranked. Which of tied players comes first
      is left open. */
  ghost predicate TopRows(entries: seq<Entry>, scores: map<int, int>, limit: nat) {
    exists order: seq<int> :: Lists(order, scores) && RowsOf(entries, order, scores, limit)
  }

  predicate RowsOf(entries: seq<Entry>, order: seq<int>, scores: map<int, int>, limit: nat) {
    && |entries| == Least(limit, |order|)
    && forall i | 0 <= i < |entries| :: order[i] in scores && entries[i] == Row(scores, order[i])
  }

  /** What two answers agree on: the ranks and points, row by row, and the players above the points of
      the last row. */
  ghost predicate Agree(a: seq<Entry>, b: seq<Entry>) {
    && |a| == |b|
    && (forall i | 0 <= i < |a| :: a[i].rank == b[i].rank && a[i].points == b[i].points)
    && (forall e | e in a + b && e.points > a[|a| - 1].points :: e in a && e in b)
  }

  lemma RowsAgree(a: seq<Entry>, x: seq<int>, b: seq<Entry>, y: seq<int>, scores: map<int, int>, limit: nat)
    requires Lists(x, scores) && RowsOf(a, x, scores, limit)
    requires Lists(y, scores) && RowsOf(b, y, scores, limit)
    ensures |a| == |b|
    ensures forall i | 0 <= i < |a| :: a[i].rank == b[i].rank && a[i].points == b[i].points
  {
    ListingLength(x, scores);
    ListingLength(y, scores);
    forall i | 0 <= i < |a|
      ensures a[i].rank == b[i].rank && a[i].points == b[i].points
    {
      SameScores(x, y, scores, i);
    }
  }

  lemma TopRowsAgree(a: seq<Entry>, b: seq<Entry>, scores: map<int, int>, limit: nat)
    requires TopRows(a, scores, limit) && TopRows(b, scores, limit)
    ensures Agree(a, b)
  {
    var x :| Lists(x, scores) && RowsOf(a, x, scores, limit);
    var y :| Lists(y, scores) && RowsOf(b, y, scores, limit);
    RowsAgree(a, x, b, y, scores, limit);
    if |a| > 0 {
      forall e | e in a + b && e.points > a[|a| - 1].points
        ensures e in a && e in b
      {
        assert e in a || e in b;
        ShownAbove(a, x, scores, limit, e);
        ShownAbove(b, y, scores, limit, e);
      }
    }
  }

  /** A member scoring more than the last row shown is shown. */
  lemma ShownAbove(a: seq<Entry>, order: seq<int>, scores: map<int, int>, limit: nat, e: Entry)
    requires Lists(order, scores) && RowsOf(a, order, scores, limit) && |a| > 0
    requires e.user in scores && e == Row(scores, e.user) && e.points > a[|a| - 1].points
    ensures e in a
  {
    var j :| 0 <= j < |order| && order[j] == e.user;
    assert j < |a|;
    assert a[j] == e;
  }

  lemma SliceIsTopRows(scores: map<int, int>, limit: nat)
    ensures TopRows(Slice(scores, 0, limit), scores, limit)
  {
    FromTopLists(scores);
    assert RowsOf(Slice(scores, 0, limit), FromTop(scores), scores, limit);
  }

  lemma FewerTopRows(entries: seq<Entry>, scores: map<int, int>, limit: nat, fewer: nat)
    requires TopRows(entries, scores, limit) && fewer <= limit
    ensures TopRows(entries[..Least(fewer, |entries|)], scores, fewer)
  {
    var order :| Lists(order, scores) && RowsOf(entries, order, scores, limit);
    assert RowsOf(entries[..Least(fewer, |entries|)], order, scores, fewer);
  }

  // ------------------------------------------------------------------------------------ the cold path

  /** The events the history queries read: all of them for a zero start, and else those from the start on
      and before the end, whatever instant that is. */
  function Asked(log: seq<Event>, from: int, until: int): set<Event> {
    if from == ZERO_TIME then EventsOf(log) else set e | e in log && from <= e.at < until
  }

  /** They are the window's own events exactly when the window does not start at the zero time, unless it is
      all time, or all events are its own anyway. */
  lemma AskedIsWindow(log: seq<Event>, p: Period, at: int)
    ensures Asked(log, Start(p, at), End(p, at)) == InWindow(EventsOf(log), p, Start(p, at)) <==>
            Start(p, at) != ZERO_TIME || p == AllTime || forall e | e in log :: Start(p, e.at) == Start(p, at)
  {
    var asked, own := Asked(log, Start(p, at), End(p, at)), InWindow(EventsOf(log), p, Start(p, at));
    WindowsTile(p, at, at);
    forall e | e in log
      ensures e in own <==> Covers(p, at, e.at)
    {
      WindowsTile(p, at, e.at);
    }
    if Start(p, at) == ZERO_TIME && asked == own {
      forall e | e in log ensures Start(p, e.at) == Start(p, at) {
        assert e in asked;
      }
    }
  }

  /** A report about 1 January of year 1, daily, weekly or monthly, shows scores of any other time. */
  lemma FirstDayShowsAll(p: Period, e: Event)
    requires p != AllTime && Start(p, e.at) != ZERO_TIME
    ensures var noon := Midnight(366) + 43_200_000_000_000;
            && Start(p, noon) == ZERO_TIME
            && Asked([e], Start(p, noon), End(p, noon)) == {e}
            && InWindow(EventsOf([e]), p, Start(p, noon)) == {}
  {
    var noon := Midnight(366) + 43_200_000_000_000;
    assert Day(noon) == 366;
    FirstDaySpan(p);
    assert e in [e];
  }

  lemma FirstDaySpan(p: Period)
    ensures Span(p, 366).0 == 366
  {
    if p == Monthly {
      assert DayNumber(Date(1, 1, 1)) == 366;
      DateOfUnique(Date(1, 1, 1));
    }
  }

  /** A scope's board, aggregated from the history: for the zero start by the all-time query. */
  method BoardFromHistory(log: seq<Event>, scope: Scope, from: int, until: int) returns (scores: map<int, int>)
    requires forall e | e in log :: e.game in SLUGS
    ensures scores == BoardOf(scope, Asked(log, from, until))
  {
    var best;
    if from == ZERO_TIME {
      best := BestAt(log, t => true);
      assert At(log, t => true) == EventsOf(log);
    } else {
      best := BestAt(log, t => from <= t < until);
      assert At(log, t => from <= t < until) == Asked(log, from, until);
    }
    ghost var events := Asked(log, from, until);
    RowsAreOfTheGames(best, events);
    var perGame, global := Tally(best);
    SameGlobal(RowEvents(best), events);
    SlugsDistinct();
    scores := if scope.IsGlobal() then global else if scope.game in perGame then perGame[scope.game] else map[];
  }

  /** The leading rows of some descending listing of the scores, before they are ranked. */
  ghost predicate TopScores(rows: seq<(int, int)>, scores: map<int, int>, limit: nat) {
    exists order: seq<int> :: Lists(order, scores) && Leads(rows, order, scores, limit)
  }

  predicate Leads(rows: seq<(int, int)>, order: seq<int>, scores: map<int, int>, limit: nat) {
    && |rows| == Least(limit, |order|)
    && forall i | 0 <= i < |rows| :: order[i] in scores && rows[i] == (order[i], scores[order[i]])
  }

  lemma NobodyLeads(rows: seq<(int, int)>, scores: map<int, int>, limit: nat)
    requires TopScores(rows, scores, limit) && limit > 0
    ensures rows == [] <==> scores == map[]
  {
    var order :| Lists(order, scores) && Leads(rows, order, scores, limit);
    ListingLength(order, scores);
  }

  /** One of the four queries of a scope, and its rows. */
  method Aggregated(log: seq<Event>, scope: Scope, from: int, until: int, limit: nat) returns (rows: seq<(int, int)>)
    requires forall e | e in log :: e.game in SLUGS
    ensures TopScores(rows, BoardOf(scope, Asked(log, from, until)), limit)
  {
    var scores := BoardFromHistory(log, scope, from, until);
    rows := Leading(scores, limit);
  }

  /** ORDER BY points DESC ... LIMIT. Which of tied players comes first is left open. */
  method Leading(scores: map<int, int>, limit: nat) returns (rows: seq<(int, int)>)
    ensures TopScores(rows, scores, limit)
  {
    FromTopLists(scores);
    var order: seq<int> :| Lists(order, scores);
    assert Lists(order, scores);
    rows := [];
    for i := 0 to Least(limit, |order|)
      invariant |rows| == i && forall j | 0 <= j < i :: rows[j] == (order[j], scores[order[j]])
    {
      rows := rows + [(order[i], scores[order[i]])];
    }
    assert Leads(rows, order, scores, limit);
  }

  /** Attaches competition ranks, running along the rows. */
  method Decorate(rows: seq<(int, int)>, ghost scores: map<int, int>, ghost limit: nat) returns (entries: seq<Entry>)
    requires TopScores(rows, scores, limit)
    ensures TopRows(entries, scores, limit) && |entries| == |rows|
  {
    ghost var order :| Lists(order, scores) && Leads(rows, order, scores, limit);
    entries := [];
    var rank := 1;
    for i := 0 to |rows|
      invariant |entries| == i && forall j | 0 <= j < i :: entries[j] == Row(scores, order[j])
      invariant i == 0 ==> rank == 1
      invariant i > 0 ==> rank == Row(scores, order[i - 1]).rank
    {
      RankAlong(order, scores, i);
      if i > 0 && rows[i].1 != rows[i - 1].1 {
        rank := i + 1;
      }
      entries := entries + [Entry(rank, rows[i].0, rows[i].1)];
    }
    assert RowsOf(entries, order, scores, limit);
  }

  method FromHistory(log: seq<Event>, scope: Scope, from: int, until: int, limit: nat) returns (entries: seq<Entry>, players: nat)
    requires forall e | e in log :: e.game in SLUGS
    ensures TopRows(entries, BoardOf(scope, Asked(log, from, until)), limit) && players == |entries|
  {
    var rows := Aggregated(log, scope, from, until, limit);
    players := |rows|;
    entries := Decorate(rows, BoardOf(scope, Asked(log, from, until)), limit);
  }

  class Service {
    const redis: Server
    const store: Store
    var snapshots: map<SnapshotKey, Snapshot>

    constructor (redis: Server, store: Store)
      ensures this.redis == redis && this.store == store && snapshots == map[]
    {
      this.redis, this.store, this.snapshots := redis, store, map[];
    }

    /** Redis while it still has the window, then the frozen window, then the history. */
    method TopPlayers(scope: Scope, period: Period, at: int, limit: int) returns (report: Report)
      requires forall e | e in store.log :: e.game in SLUGS
      ensures var t := if at == ZERO_TIME then redis.now else at;
              report.window == if Start(period, t) == ZERO_TIME then None else Some((Start(period, t), End(period, t)))
      ensures var t := if at == ZERO_TIME then redis.now else at;
              var n := if 1 <= limit <= 100 then limit else 10;
              var key := BoardKey(scope, period, t);
              var stored := (scope.Name(), period, Start(period, t));
              if key in redis.db then
                report.source == Live && report.players == |Scores(redis.db, key)|
                && report.entries == Slice(Scores(redis.db, key), 0, n)
              else if Start(period, t) != ZERO_TIME && stored in snapshots then
                report.source == Snapshotted && report.players == snapshots[stored].players
                && report.entries == snapshots[stored].entries[..Least(n, |snapshots[stored].entries|)]
              else
                report.source == Historical && report.players == |report.entries|
                && TopRows(report.entries, BoardOf(scope, Asked(store.log, Start(period, t), End(period, t))), n)
    {
      var t := if at == ZERO_TIME then redis.now else at;
      var n: nat := if limit <= 0 || limit > MAX_LIMIT then 10 else limit;
      var window := Window(period, t);
      WindowIsSpan(period, t);
      var ends := if window.0 == ZERO_TIME then None else Some(window);

      var live := redis.Exists(BoardKey(scope, period, t));
      if live {
        var page := PageAt(redis, BoardKey(scope, period, t), 0, n);
        return Report(Live, ends, page.total, page.entries);
      }

      var stored := FromSnapshot(scope, period, window.0, n);
      if stored.Some? {
        return Report(Snapshotted, ends, stored.value.players, stored.value.entries);
      }

      var entries, players := FromHistory(store.log, scope, window.0, window.1, n);
      return Report(Historical, ends, players, entries);
    }

    method FromSnapshot(scope: Scope, period: Period, from: int, limit: nat) returns (stored: Option<Snapshot>)
      ensures var key := (scope.Name(), period, from);
              if from == ZERO_TIME || key !in snapshots then stored == None
              else
                var s := snapshots[key];
                stored == Some(s.(entries := s.entries[..Least(limit, |s.entries|)]))
    {
      var key := (scope.Name(), period, from);
      if from == ZERO_TIME || key !in snapshots {
        return None;
      }
      var s := snapshots[key];
      var entries := s.entries;
      if |entries| > limit {
        entries := entries[..limit];
      } else {
        assert entries == entries[..|entries|];
      }
      return Some(s.(entries := entries));
    }

    /** Stores one board's window, unless nobody is on it. A query that fails leaves things as they are. */
    method Materialise(scope: Scope, period: Period, at: int, fails: bool) returns (ok: bool, written: bool)
      requires forall e | e in store.log :: e.game in SLUGS
      modifies this`snapshots
      ensures var scores := BoardOf(scope, Asked(store.log, Start(period, at), End(period, at)));
              var key := (scope.Name(), period, Start(period, at));
              && ok == !fails
              && (written <==> ok && scores != map[])
              && (!written ==> snapshots == old(snapshots))
              && (written ==> key in snapshots && Frozen(snapshots[key], scores, End(period, at))
                              && snapshots == old(snapshots)[key := snapshots[key]])
    {
      if fails {
        return false, false;
      }
      var window := Window(period, at);
      WindowIsSpan(period, at);
      var rows := Aggregated(store.log, scope, window.0, window.1, MAX_LIMIT);
      ghost var scores := BoardOf(scope, Asked(store.log, window.0, window.1));
      NobodyLeads(rows, scores, MAX_LIMIT);
      if |rows| == 0 {
        return true, false;
      }
      var entries := Decorate(rows, scores, MAX_LIMIT);
      snapshots := snapshots[(scope.Name(), period, window.0) := Snapshot(window.1, |rows|, entries)];
      return true, true;
    }

    /** Stores every board of the windows that have just ended, leaves alone the boards nobody was on, and
        touches no other snapshot. The first board that fails, after so many that do not, ends it; what is
        stored by then stays, and is counted. */
    method MaterialiseClosedWindows(at: int, working: nat) returns (written: nat, skipped: nat, ok: bool)
      requires forall e | e in store.log :: e.game in SLUGS
      modifies this`snapshots
      ensures ok <==> working >= 18
      ensures ok ==> Materialised(old(snapshots), snapshots, store.log, if at == ZERO_TIME then redis.now else at, |PERIODS|,
                                  written, skipped)
      ensures !ok ==> written + skipped == working
                      && Cut(old(snapshots), snapshots, store.log, if at == ZERO_TIME then redis.now else at, written, skipped)
    {
      written, skipped, ok := MaterialiseAt(if at == ZERO_TIME then redis.now else at, working);
    }

    method MaterialiseAt(t: int, working: nat) returns (written: nat, skipped: nat, ok: bool)
      requires forall e | e in store.log :: e.game in SLUGS
      modifies this`snapshots
      ensures ok <==> working >= 18
      ensures ok ==> Materialised(old(snapshots), snapshots, store.log, t, |PERIODS|, written, skipped)
      ensures !ok ==> written + skipped == working && Cut(old(snapshots), snapshots, store.log, t, written, skipped)
    {
      written, skipped, ok := 0, 0, true;
      for n := 0 to |PERIODS|
        invariant ok && written + skipped <= working
        invariant Materialised(old(snapshots), snapshots, store.log, t, n, written, skipped)
      {
        written, skipped, ok := MaterialiseNext(n, t, working, old(snapshots), written, skipped);
        if !ok {
          return;
        }
      }
    }

    /** The loop's body: nothing for all-time, which never closes. */
    method MaterialiseNext(n: nat, t: int, working: nat, ghost first: map<SnapshotKey, Snapshot>, wrote: nat, passed: nat)
      returns (written: nat, skipped: nat, ok: bool)
      requires n < |PERIODS| && (forall e | e in store.log :: e.game in SLUGS) && wrote + passed <= working
      requires Materialised(first, snapshots, store.log, t, n, wrote, passed)
      modifies this`snapshots
      ensures written + skipped <= working && (ok <==> n == 0 || working >= wrote + passed + 6)
      ensures ok ==> Materialised(first, snapshots, store.log, t, n + 1, written, skipped)
      ensures !ok ==> written + skipped == working && Cut(first, snapshots, store.log, t, written, skipped)
    {
      var p := PERIODS[n];
      if p == AllTime {
        AllTimePassed(first, snapshots, store.log, t, n, wrote, passed);
        return wrote, passed, true;
      }
      ghost var before := snapshots;
      var more, over;
      more, over, ok := MaterialisePeriod(p, t, working - wrote - passed);
      written, skipped := wrote + more, passed + over;
      PeriodTried(first, before, snapshots, store.log, t, n, p, wrote, passed, more, over, written, skipped);
    }

    /** One period of that: the window before the current one, for every scope. */
    method MaterialisePeriod(p: Period, at: int, working: nat) returns (written: nat, skipped: nat, ok: bool)
      requires p != AllTime
      requires forall e | e in store.log :: e.game in SLUGS
      modifies this`snapshots
      ensures written + skipped == Least(working, 6) && ok == (working >= 6)
      ensures Tried(old(snapshots), snapshots, store.log, p, at, written, skipped)
    {
      var window := Window(p, at);
      WindowIsSpan(p, at);
      PreviousWindowAdjoins(p, at);
      written, skipped, ok := MaterialiseScopes(p, window.0, ClosedStart(p, at), working);
    }

    /** The scopes of a window, which ended at until. */
    method MaterialiseScopes(p: Period, until: int, ghost w: int, working: nat) returns (written: nat, skipped: nat, ok: bool)
      requires p != AllTime && w == Start(p, until - 1) && until == End(p, until - 1)
      requires forall e | e in store.log :: e.game in SLUGS
      modifies this`snapshots
      ensures written + skipped == Least(working, 6) && ok == (working >= 6)
      ensures ScopesStored(old(snapshots), snapshots, store.log, p, w, until, written + skipped)
      ensures written == StoredCount(store.log, w, until, written + skipped)
    {
      written, skipped := 0, 0;
      for j := 0 to |SCOPES|
        invariant written == StoredCount(store.log, w, until, j) && written + skipped == j <= working
        invariant ScopesStored(old(snapshots), snapshots, store.log, p, w, until, j)
      {
        ghost var before := snapshots;
        var fine, stored := MaterialiseScope(SCOPES[j], p, until, w, j == working);
        if !fine {
          return written, skipped, false;
        }
        ScopeDone(old(snapshots), before, snapshots, store.log, p, w, until, j);
        if stored {
          written := written + 1;
        } else {
          skipped := skipped + 1;
        }
      }
      ok := true;
    }

    method MaterialiseScope(scope: Scope, p: Period, until: int, ghost w: int, fails: bool) returns (ok: bool, written: bool)
      requires p != AllTime && w == Start(p, until - 1) && until == End(p, until - 1)
      requires forall e | e in store.log :: e.game in SLUGS
      modifies this`snapshots
      ensures ok == !fails
      ensures !ok ==> snapshots == old(snapshots)
      ensures ok ==> (written <==> Played(store.log, scope, w, until))
                     && StoredClosed(old(snapshots), snapshots, store.log, scope, p, w, until)
                     && forall key | key != (scope.Name(), p, w) :: SameSnapshot(old(snapshots), snapshots, key)
    {
      ok, written := Materialise(scope, p, until - 1, fails);
    }
  }

  /** Storing has come to the board of one period and scope: everything before it is done and counted, and
      nothing else. */
  ghost predicate CutAt(first: map<SnapshotKey, Snapshot>, middle: map<SnapshotKey, Snapshot>, after: map<SnapshotKey, Snapshot>,
                        log: seq<Event>, at: int, n: nat, j: nat, written: int, skipped: int)
  {
    && n < 4 && PERIODS[n] != AllTime && j < 6
    && var w, until := ClosedStart(PERIODS[n], at), Start(PERIODS[n], at);
       && ClosedStored(first, middle, log, at, n) && ScopesStored(middle, after, log, PERIODS[n], w, until, j)
       && written == ClosedCount(log, at, n) + StoredCount(log, w, until, j) && written + skipped == 6 * (n - 1) + j
  }

  ghost predicate Cut(first: map<SnapshotKey, Snapshot>, after: map<SnapshotKey, Snapshot>, log: seq<Event>, at: int,
                      written: int, skipped: int) {
    exists middle, n: nat, j: nat :: CutAt(first, middle, after, log, at, n, j, written, skipped)
  }

  /** So many scopes of a period's last closed window are stored or passed over. */
  ghost predicate Tried(before: map<SnapshotKey, Snapshot>, after: map<SnapshotKey, Snapshot>, log: seq<Event>, p: Period, at: int,
                        written: nat, skipped: nat) {
    && written + skipped <= 6
    && ScopesStored(before, after, log, p, ClosedStart(p, at), Start(p, at), written + skipped)
    && written == StoredCount(log, ClosedStart(p, at), Start(p, at), written + skipped)
  }

  lemma PeriodTried(first: map<SnapshotKey, Snapshot>, before: map<SnapshotKey, Snapshot>, after: map<SnapshotKey, Snapshot>,
                    log: seq<Event>, at: int, n: nat, p: Period, wrote: nat, passed: nat, more: nat, over: nat,
                    written: nat, skipped: nat)
    requires n < 4 && p == PERIODS[n] != AllTime && Materialised(first, before, log, at, n, wrote, passed)
    requires Tried(before, after, log, p, at, more, over) && written == wrote + more && skipped == passed + over
    ensures n > 0
    ensures if more + over == 6 then Materialised(first, after, log, at, n + 1, written, skipped)
            else Cut(first, after, log, at, written, skipped)
  {
    if more + over == 6 {
      PeriodCounted(first, before, after, log, at, n, wrote, passed, more, over);
    } else {
      assert CutAt(first, before, after, log, at, n, more + over, written, skipped);
    }
  }

  /** Somebody is on a board. */
  ghost predicate Played(log: seq<Event>, scope: Scope, from: int, until: int) {
    BoardOf(scope, Asked(log, from, until)) != map[]
  }

  /** How many of the first n scopes' boards of a window anybody is on, and of the first n periods' last
      closed windows. */
  ghost function StoredCount(log: seq<Event>, from: int, until: int, n: nat): nat
    requires n <= |SCOPES|
  {
    if n == 0 then 0 else StoredCount(log, from, until, n - 1) + if Played(log, SCOPES[n - 1], from, until) then 1 else 0
  }

  ghost function ClosedCount(log: seq<Event>, at: int, n: nat): nat
    requires n <= 4
  {
    if n == 0 then 0
    else
      var p := PERIODS[n - 1];
      ClosedCount(log, at, n - 1) + if p == AllTime then 0 else StoredCount(log, ClosedStart(p, at), Start(p, at), |SCOPES|)
  }

  ghost predicate PlayedAt(log: seq<Event>, from: int, until: int, i: nat) {
    i < |SCOPES| && Played(log, SCOPES[i], from, until)
  }

  ghost function PlayedUpTo(log: seq<Event>, from: int, until: int, n: nat): set<nat> {
    set i: nat | i < n && PlayedAt(log, from, until, i)
  }

  lemma StoredCountGrows(log: seq<Event>, from: int, until: int, n: nat)
    requires 0 < n <= |SCOPES|
    ensures StoredCount(log, from, until, n) ==
            StoredCount(log, from, until, n - 1) + if PlayedAt(log, from, until, n - 1) then 1 else 0
  {
  }

  lemma PlayedUpToGrows(log: seq<Event>, from: int, until: int, n: nat)
    requires n > 0
    ensures |PlayedUpTo(log, from, until, n)| ==
            |PlayedUpTo(log, from, until, n - 1)| + if PlayedAt(log, from, until, n - 1) then 1 else 0
  {
    assert PlayedUpTo(log, from, until, n) ==
           PlayedUpTo(log, from, until, n - 1) + if PlayedAt(log, from, until, n - 1) then {n - 1} else {};
  }

  /** That is what it says: the number of boards among the first n that anybody is on. */
  lemma {:induction false} StoredCountMeans(log: seq<Event>, from: int, until: int, n: nat)
    requires n <= |SCOPES|
    ensures StoredCount(log, from, until, n) == |PlayedUpTo(log, from, until, n)|
  {
    if n > 0 {
      StoredCountMeans(log, from, until, n - 1);
      StoredCountGrows(log, from, until, n);
      PlayedUpToGrows(log, from, until, n);
    }
  }

  predicate AmongScopes(name: string, n: nat) {
    exists i: nat :: i < n && i < |SCOPES| && SCOPES[i].Name() == name
  }

  /** The windows that have just ended are stored, for the first n periods and every scope, and nothing
      else is. */
  ghost predicate ClosedStored(before: map<SnapshotKey, Snapshot>, after: map<SnapshotKey, Snapshot>, log: seq<Event>, at: int, n: nat) {
    && (forall m: nat, i: nat | m < n && m < 4 && PERIODS[m] != AllTime && i < |SCOPES| ::
          StoredClosed(before, after, log, SCOPES[i], PERIODS[m], ClosedStart(PERIODS[m], at), Start(PERIODS[m], at)))
    && (forall key: SnapshotKey |
          key.1 == AllTime || PlaceOf(key.1) >= n || key.2 != ClosedStart(key.1, at) || !AmongScopes(key.0, |SCOPES|) ::
          SameSnapshot(before, after, key))
  }

  /** The first n scopes of one window are stored, and nothing else is. */
  ghost predicate ScopesStored(before: map<SnapshotKey, Snapshot>, after: map<SnapshotKey, Snapshot>, log: seq<Event>,
                               p: Period, w: int, until: int, n: nat) {
    && (forall i: nat | i < n && i < |SCOPES| :: StoredClosed(before, after, log, SCOPES[i], p, w, until))
    && (forall key: SnapshotKey | key.1 != p || key.2 != w || !AmongScopes(key.0, n) :: SameSnapshot(before, after, key))
  }

  lemma SnapshotsChain(a: map<SnapshotKey, Snapshot>, b: map<SnapshotKey, Snapshot>, c: map<SnapshotKey, Snapshot>, key: SnapshotKey)
    requires SameSnapshot(a, b, key) && SameSnapshot(b, c, key)
    ensures SameSnapshot(a, c, key)
  {
  }

  /** What was stored stays stored, and what is stored now was not touched before. */
  lemma StoredStays(a: map<SnapshotKey, Snapshot>, b: map<SnapshotKey, Snapshot>, c: map<SnapshotKey, Snapshot>, log: seq<Event>,
                    scope: Scope, p: Period, from: int, until: int)
    requires var key := (scope.Name(), p, from);
             || (StoredClosed(a, b, log, scope, p, from, until) && SameSnapshot(b, c, key))
             || (SameSnapshot(a, b, key) && StoredClosed(b, c, log, scope, p, from, until))
    ensures StoredClosed(a, c, log, scope, p, from, until)
  {
  }

  lemma AmongOneMore(name: string, j: nat)
    requires j < |SCOPES|
    ensures AmongScopes(name, j + 1) <==> AmongScopes(name, j) || name == SCOPES[j].Name()
  {
    if name == SCOPES[j].Name() {
      assert AmongScopes(name, j + 1);
    }
  }

  lemma NotAmongEarlier(j: nat)
    requires j < |SCOPES|
    ensures !AmongScopes(SCOPES[j].Name(), j)
  {
    ScopesDistinct();
  }

  lemma ScopeDone(first: map<SnapshotKey, Snapshot>, before: map<SnapshotKey, Snapshot>, after: map<SnapshotKey, Snapshot>,
                  log: seq<Event>, p: Period, w: int, until: int, j: nat)
    requires j < |SCOPES| && ScopesStored(first, before, log, p, w, until, j)
    requires StoredClosed(before, after, log, SCOPES[j], p, w, until)
    requires forall key | key != (SCOPES[j].Name(), p, w) :: SameSnapshot(before, after, key)
    ensures ScopesStored(first, after, log, p, w, until, j + 1)
  {
    NotAmongEarlier(j);
    forall i: nat | i <= j
      ensures StoredClosed(first, after, log, SCOPES[i], p, w, until)
    {
      if i < j {
        ScopesDistinct();
      }
      StoredStays(first, before, after, log, SCOPES[i], p, w, until);
    }
    forall key: SnapshotKey | key.1 != p || key.2 != w || !AmongScopes(key.0, j + 1)
      ensures SameSnapshot(first, after, key)
    {
      AmongOneMore(key.0, j);
      SnapshotsChain(first, before, after, key);
    }
  }

  lemma PeriodDone(first: map<SnapshotKey, Snapshot>, before: map<SnapshotKey, Snapshot>, after: map<SnapshotKey, Snapshot>,
                   log: seq<Event>, at: int, n: nat)
    requires n < 4 && PERIODS[n] != AllTime && ClosedStored(first, before, log, at, n)
    requires ScopesStored(before, after, log, PERIODS[n], ClosedStart(PERIODS[n], at), Start(PERIODS[n], at), |SCOPES|)
    ensures ClosedStored(first, after, log, at, n + 1)
  {
    PlacesApart();
    forall m: nat, i: nat | m < n + 1 && PERIODS[m] != AllTime && i < |SCOPES|
      ensures StoredClosed(first, after, log, SCOPES[i], PERIODS[m], ClosedStart(PERIODS[m], at), Start(PERIODS[m], at))
    {
      StoredStays(first, before, after, log, SCOPES[i], PERIODS[m], ClosedStart(PERIODS[m], at), Start(PERIODS[m], at));
    }
    forall key: SnapshotKey |
      key.1 == AllTime || PlaceOf(key.1) >= n + 1 || key.2 != ClosedStart(key.1, at) || !AmongScopes(key.0, |SCOPES|)
      ensures SameSnapshot(first, after, key)
    {
      SnapshotsChain(first, before, after, key);
    }
  }

  /** The first n periods are done, with so many boards stored and so many passed over. */
  ghost predicate Materialised(before: map<SnapshotKey, Snapshot>, after: map<SnapshotKey, Snapshot>, log: seq<Event>, at: int,
                               n: nat, written: int, skipped: int)
    requires n <= 4
  {
    && ClosedStored(before, after, log, at, n)
    && written == ClosedCount(log, at, n) && written + skipped == if n == 0 then 0 else 6 * (n - 1)
  }

  lemma PeriodCounted(first: map<SnapshotKey, Snapshot>, before: map<SnapshotKey, Snapshot>, after: map<SnapshotKey, Snapshot>,
                      log: seq<Event>, at: int, n: nat, written: int, skipped: int, wrote: int, passed: int)
    requires n < 4 && PERIODS[n] != AllTime && Materialised(first, before, log, at, n, written, skipped)
    requires ScopesStored(before, after, log, PERIODS[n], ClosedStart(PERIODS[n], at), Start(PERIODS[n], at), |SCOPES|)
    requires wrote == StoredCount(log, ClosedStart(PERIODS[n], at), Start(PERIODS[n], at), |SCOPES|) && wrote + passed == 6
    ensures Materialised(first, after, log, at, n + 1, written + wrote, skipped + passed)
  {
    PeriodDone(first, before, after, log, at, n);
  }

  lemma AllTimePassed(first: map<SnapshotKey, Snapshot>, after: map<SnapshotKey, Snapshot>, log: seq<Event>, at: int, n: nat,
                      written: int, skipped: int)
    requires n < 4 && PERIODS[n] == AllTime && Materialised(first, after, log, at, n, written, skipped)
    ensures Materialised(first, after, log, at, n + 1, written, skipped)
  {
    PlacesApart();
    assert n == 0;
  }

  lemma PlacesApart()
    ensures forall m: nat | m < 4 :: PlaceOf(PERIODS[m]) == m
  {
  }

  predicate SameSnapshot(before: map<SnapshotKey, Snapshot>, after: map<SnapshotKey, Snapshot>, key: SnapshotKey) {
    (key in after <==> key in before) && (key in before ==> after[key] == before[key])
  }

  /** Every board there is: the cross-game board and one per game. */
  const SCOPES: seq<Scope> := [GLOBAL, Scope(SLUGS[0]), Scope(SLUGS[1]), Scope(SLUGS[2]), Scope(SLUGS[3]), Scope(SLUGS[4])]

  lemma ScopesDistinct()
    ensures forall i, j | 0 <= i < j < |SCOPES| :: SCOPES[i].Name() != SCOPES[j].Name()
  {
    SlugsDistinct();
    assert SLUGS[0][0] == 'r' && SLUGS[1][0] == 'm' && SLUGS[2][0] == 'm' && SLUGS[3][0] == 'w' && SLUGS[4][0] == 'n';
    assert "global"[0] == 'g';
  }

  /** Where the window before the current one starts. */
  function ClosedStart(p: Period, at: int): int {
    Start(p, Start(p, at) - 1)
  }

  /** A window's board is frozen under the scope's name and the window's start, unless nobody is on it. */
  ghost predicate StoredClosed(before: map<SnapshotKey, Snapshot>, after: map<SnapshotKey, Snapshot>, log: seq<Event>,
                               scope: Scope, p: Period, from: int, until: int) {
    var key := (scope.Name(), p, from);
    if Played(log, scope, from, until) then key in after && Frozen(after[key], BoardOf(scope, Asked(log, from, until)), until)
    else SameSnapshot(before, after, key)
  }

  ghost predicate Frozen(s: Snapshot, scores: map<int, int>, until: int) {
    s.until == until && s.players == |s.entries| && TopRows(s.entries, scores, MAX_LIMIT)
  }

  /** As many rows of a board are frozen as there are players, up to a hundred. */
  lemma FrozenRows(s: Snapshot, scores: map<int, int>, until: int)
    requires Frozen(s, scores, until)
    ensures s.players == |s.entries| == Least(100, |scores|)
  {
    var order: seq<int> :| Lists(order, scores) && RowsOf(s.entries, order, scores, MAX_LIMIT);
    ListingLength(order, scores);
  }

  /** Scores of other windows leave a window's events as they are. */
  lemma LaterScoresElsewhere(log: seq<Event>, later: seq<Event>, p: Period, w: int)
    requires forall e | e in later :: Start(p, e.at) != w
    ensures InWindow(EventsOf(log + later), p, w) == InWindow(EventsOf(log), p, w)
  {
  }

  /** All three stores give the same answer about a window that is fully projected, still kept, and was
      frozen after its last score: the same ranks and points row by row, and the same players above the
      last row's points, for every limit a report may have. */
  lemma ThreeAnswersAgree(db: Db, log: seq<Event>, later: seq<Event>, frozen: Snapshot, scope: Scope, p: Period, at: int, limit: nat,
                          live: seq<Entry>, stored: seq<Entry>, computed: seq<Entry>)
    requires scope == GLOBAL || scope.game in SLUGS
    requires forall e | e in log + later :: ValidEvent(e)
    requires p == AllTime || Start(p, at) != ZERO_TIME
    requires 1 <= limit <= 100
    requires Frozen(frozen, BoardOf(scope, Asked(log, Start(p, at), End(p, at))), End(p, at))
    requires forall e | e in later :: Start(p, e.at) != Start(p, at)
    requires Matches(db, p, Start(p, at), InWindow(EventsOf(log + later), p, Start(p, at)))
    requires live == Slice(Scores(db, BoardKey(scope, p, at)), 0, limit)
    requires stored == frozen.entries[..Least(limit, |frozen.entries|)]
    requires TopRows(computed, BoardOf(scope, Asked(log + later, Start(p, at), End(p, at))), limit)
    ensures Agree(live, stored) && Agree(live, computed) && Agree(stored, computed)
  {
    var scores := BoardOf(scope, InWindow(EventsOf(log), p, Start(p, at)));
    LaterScoresElsewhere(log, later, p, Start(p, at));
    assert forall e | e in log :: e in log + later;
    AskedIsWindow(log, p, at);
    AskedIsWindow(log + later, p, at);
    SlugsDistinct();
    assert scope != GLOBAL ==> scope == Scope(scope.game);
    assert Scores(db, BoardKey(scope, p, at)) == scores;
    SliceIsTopRows(scores, limit);
    FewerTopRows(frozen.entries, scores, MAX_LIMIT, limit);
    TopRowsAgree(live, stored, scores, limit);
    TopRowsAgree(live, computed, scores, limit);
    TopRowsAgree(stored, computed, scores, limit);
  }
}
