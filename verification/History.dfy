/** What a rebuild reads: every player's best per game within a window, and the boards tallied from
    those rows. */
module History {
  import opened Sets
  import opened Windows
  import opened Keys
  import opened Aggregate
  import opened Refinement

  /** One player's best in one game, as the query reports it. */
  datatype Best = Best(game: string, user: int, points: int)

  // ------------------------------------------------------------------------------ reading the history

  /** A zero bound is no bound. */
  predicate InBounds(t: int, from: int, until: int) {
    (from == ZERO_TIME || from <= t) && (until == ZERO_TIME || t < until)
  }

  function Bounded(log: seq<Event>, from: int, until: int): set<Event> {
    set e | e in log && InBounds(e.at, from, until)
  }

  function RowKey(row: Best): (string, int) {
    (row.game, row.user)
  }

  function RowKeys(rows: seq<Best>): set<(string, int)> {
    set i | 0 <= i < |rows| :: RowKey(rows[i])
  }

  /** No game and user twice. */
  ghost predicate Grouped(rows: seq<Best>) {
    forall i, j | 0 <= i < j < |rows| :: RowKey(rows[i]) != RowKey(rows[j])
  }

  /** The query's rows, seen as events of their own. */
  function RowEvents(rows: seq<Best>): set<Event> {
    set i | 0 <= i < |rows| :: RowEvent(rows[i], i)
  }

  /** Two sets of events that every game's board looks the same from. */
  ghost predicate SameBoards(a: set<Event>, b: set<Event>) {
    forall g: string :: GameBoard(a, g) == GameBoard(b, g)
  }

  /** The events at certain times. */
  function At(log: seq<Event>, within: int -> bool): set<Event> {
    set e | e in log && within(e.at)
  }

  /** BestPoints: max(points) per game and user over the events within bounds, where zero is no bound. */
  method BestPoints(log: seq<Event>, from: int, until: int) returns (rows: seq<Best>)
    ensures SameBoards(RowEvents(rows), Bounded(log, from, until))
    ensures Grouped(rows)
  {
    rows := BestAt(log, t => InBounds(t, from, until));
    assert At(log, t => InBounds(t, from, until)) == Bounded(log, from, until);
  }

  /** max(points) per game and user over the events at certain times. */
  method BestAt(log: seq<Event>, within: int -> bool) returns (rows: seq<Best>)
    ensures SameBoards(RowEvents(rows), At(log, within))
    ensures Grouped(rows)
  {
    var groups := Group(log, within);
    rows := Ungroup(groups);
    forall g: string
      ensures GameBoard(RowEvents(rows), g) == GameBoard(At(log, within), g)
    {
      GroupsAreBoard(groups, rows, At(log, within), g);
    }
  }

  ghost predicate GroupsOf(groups: map<(string, int), int>, events: set<Event>) {
    && (forall g, u :: (g, u) in groups <==> u in Players(events, g))
    && (forall g, u | (g, u) in groups :: groups[(g, u)] == BestOrZero(events, g, u))
  }

  method Group(log: seq<Event>, within: int -> bool) returns (groups: map<(string, int), int>)
    ensures GroupsOf(groups, At(log, within))
  {
    groups := map[];
    for i := 0 to |log|
      invariant GroupsOf(groups, At(log[..i], within))
    {
      var e := log[i];
      assert log[..i + 1] == log[..i] + [e];
      ghost var events := At(log[..i], within);
      if within(e.at) {
        assert At(log[..i + 1], within) == events + {e};
        GroupGrows(groups, events, e);
        if (e.game, e.user) !in groups || e.points > groups[(e.game, e.user)] {
          groups := groups[(e.game, e.user) := e.points];
        }
      } else {
        assert At(log[..i + 1], within) == events;
      }
    }
    assert log[..|log|] == log;
  }

  lemma GroupGrows(groups: map<(string, int), int>, events: set<Event>, e: Event)
    requires GroupsOf(groups, events)
    ensures var k := (e.game, e.user);
            GroupsOf(if k !in groups || e.points > groups[k] then groups[k := e.points] else groups, events + {e})
  {
    forall g, u
      ensures u in Players(events + {e}, g) <==> u in Players(events, g) || (e.game == g && u == e.user)
      ensures u in Players(events + {e}, g) ==>
                BestOrZero(events + {e}, g, u) ==
                if e.game == g && u == e.user && (u !in Players(events, g) || e.points > BestOrZero(events, g, u))
                then e.points else BestOrZero(events, g, u)
    {
      GameEntryGrows(events, e, g, u);
    }
  }

  /** Each group once, in whatever order. */
  method Ungroup(groups: map<(string, int), int>) returns (rows: seq<Best>)
    ensures Grouped(rows) && RowKeys(rows) == groups.Keys
    ensures forall i | 0 <= i < |rows| :: RowKey(rows[i]) in groups && groups[RowKey(rows[i])] == rows[i].points
  {
    rows := [];
    var left := groups.Keys;
    while left != {}
      invariant left <= groups.Keys && RowKeys(rows) == groups.Keys - left
      invariant Grouped(rows)
      invariant forall i | 0 <= i < |rows| :: RowKey(rows[i]) in groups && groups[RowKey(rows[i])] == rows[i].points
      decreases left
    {
      ghost var some := Any(left);
      var k :| k in left;
      RowKeysGrow(rows, Best(k.0, k.1, groups[k]));
      forall i | 0 <= i < |rows| ensures RowKey(rows[i]) in RowKeys(rows) {
      }
      rows := rows + [Best(k.0, k.1, groups[k])];
      left := left - {k};
    }
  }

  lemma RowKeysGrow(rows: seq<Best>, row: Best)
    ensures RowKeys(rows + [row]) == RowKeys(rows) + {RowKey(row)}
  {
    var longer := rows + [row];
    forall k | k in RowKeys(rows) + {RowKey(row)} ensures k in RowKeys(longer) {
      if k in RowKeys(rows) {
        var i :| 0 <= i < |rows| && RowKey(rows[i]) == k;
        assert RowKey(longer[i]) == k;
      } else {
        assert RowKey(longer[|rows|]) == k;
      }
    }
  }

  lemma GroupsAreBoard(groups: map<(string, int), int>, rows: seq<Best>, events: set<Event>, g: string)
    requires GroupsOf(groups, events) && RowKeys(rows) == groups.Keys
    requires forall i | 0 <= i < |rows| :: RowKey(rows[i]) in groups && groups[RowKey(rows[i])] == rows[i].points
    ensures GameBoard(RowEvents(rows), g) == GameBoard(events, g)
  {
    var all := RowEvents(rows);
    forall u
      ensures u in Players(all, g) <==> u in Players(events, g)
      ensures u in Players(events, g) ==> BestOrZero(all, g, u) == BestOrZero(events, g, u)
    {
      if u in Players(all, g) {
        var e :| e in all && e.game == g && e.user == u;
        assert RowKey(rows[e.id]) == (g, u);
      }
      if u in Players(events, g) {
        assert (g, u) in RowKeys(rows);
        var i :| 0 <= i < |rows| && RowKey(rows[i]) == (g, u);
        var e := RowEvent(rows[i], i);
        assert e in all;
        assert e.points in Points(all, g, u);
        assert Points(all, g, u) == {rows[i].points};
        assert SetMax({rows[i].points}) in {rows[i].points};
      }
    }
  }

  /** The bounds of the current window pick out the events that window takes in. */
  lemma BoundsAreWindow(log: seq<Event>, p: Period, now: int)
    requires now > ZERO_TIME && forall e | e in log :: e.at > ZERO_TIME
    ensures Bounded(log, Window(p, now).0, Window(p, now).1) == InWindow(EventsOf(log), p, Start(p, now))
  {
    WindowIsSpan(p, now);
    forall e | e in log
      ensures InBounds(e.at, Window(p, now).0, Window(p, now).1) <==> Start(p, e.at) == Start(p, now)
    {
      WindowsTile(p, now, e.at);
    }
  }

  lemma RowsAreOfTheGames(rows: seq<Best>, events: set<Event>)
    requires SameBoards(RowEvents(rows), events)
    requires forall e | e in events :: e.game in SLUGS
    ensures forall i | 0 <= i < |rows| :: rows[i].game in SLUGS
  {
    forall i | 0 <= i < |rows|
      ensures rows[i].game in SLUGS
    {
      var g := rows[i].game;
      assert RowEvent(rows[i], i) in RowEvents(rows);
      assert rows[i].user in GameBoard(RowEvents(rows), g);
      assert rows[i].user in GameBoard(events, g);
    }
  }

  // ------------------------------------------------------------------------------- one period's boards

  /** Tallies that hold the boards of some events. */
  ghost predicate Tallied(perGame: map<string, map<int, int>>, global: map<int, int>, events: set<Event>) {
    && (forall g :: (if g in perGame then perGame[g] else map[]) == GameBoard(events, g))
    && global == GlobalBoard(events)
  }

  /** The rows, tallied: each game's board, and the cross-game sums. */
  method Tally(rows: seq<Best>) returns (perGame: map<string, map<int, int>>, global: map<int, int>)
    requires Grouped(rows) && forall i | 0 <= i < |rows| :: rows[i].game in SLUGS
    ensures Tallied(perGame, global, RowEvents(rows))
  {
    perGame, global := map[], map[];
    EmptyTally(RowEvents(rows[..0]));
    for i := 0 to |rows|
      invariant Tallied(perGame, global, RowEvents(rows[..i]))
    {
      NextRow(rows, i);
      perGame, global := AddRow(perGame, global, rows[i], RowEvents(rows[..i]), i);
    }
    assert rows[..|rows|] == rows;
  }

  function RowEvent(row: Best, i: int): Event {
    Event(i, row.user, row.game, row.points, 0)
  }

  /** The loop's body: a first row of a game and user joins the game's board and adds to the user's
      sum. */
  method AddRow(perGame: map<string, map<int, int>>, global: map<int, int>, entry: Best, ghost events: set<Event>, ghost i: int)
    returns (perGame': map<string, map<int, int>>, global': map<int, int>)
    requires Tallied(perGame, global, events)
    requires entry.game in SLUGS && entry.user !in Players(events, entry.game)
    ensures Tallied(perGame', global', events + {RowEvent(entry, i)})
  {
    perGame', global' := perGame, global;
    if entry.game !in perGame' {
      perGame' := perGame'[entry.game := map[]];
    }
    perGame' := perGame'[entry.game := perGame'[entry.game][entry.user := entry.points]];
    global' := global'[entry.user := (if entry.user in global' then global'[entry.user] else 0) + entry.points];
    TallyGrows(perGame, global, events, RowEvent(entry, i), perGame', global');
  }

  lemma EmptyTally(none: set<Event>)
    requires none == {}
    ensures Tallied(map[], map[], none)
  {
    assert Everyone(none) == {};
    forall g ensures GameBoard(none, g) == map[] {
      assert Players(none, g) == {};
    }
  }

  lemma NextRow(rows: seq<Best>, i: nat)
    requires i < |rows| && Grouped(rows)
    ensures RowEvents(rows[..i + 1]) == RowEvents(rows[..i]) + {RowEvent(rows[i], i)}
    ensures rows[i].user !in Players(RowEvents(rows[..i]), rows[i].game)
  {
    assert forall j | 0 <= j < i :: rows[..i + 1][j] == rows[..i][j];
    forall f | f in RowEvents(rows[..i])
      ensures (f.game, f.user) != RowKey(rows[i])
    {
      assert RowKey(rows[f.id]) != RowKey(rows[i]);
    }
  }

  lemma TallyGrows(perGame: map<string, map<int, int>>, global: map<int, int>, events: set<Event>, e: Event,
                   perGame': map<string, map<int, int>>, global': map<int, int>)
    requires Tallied(perGame, global, events)
    requires e.game in SLUGS && e.user !in Players(events, e.game)
    requires forall g | g != e.game :: (g in perGame' <==> g in perGame) && (g in perGame ==> perGame'[g] == perGame[g])
    requires e.game in perGame'
    requires perGame'[e.game] == (if e.game in perGame then perGame[e.game] else map[])[e.user := e.points]
    requires global' == global[e.user := (if e.user in global then global[e.user] else 0) + e.points]
    ensures Tallied(perGame', global', events + {e})
  {
    forall g
      ensures (if g in perGame' then perGame'[g] else map[]) == GameBoard(events + {e}, g)
    {
      GameBoardGrows(events, e, g);
      assert (if g in perGame then perGame[g] else map[]) == GameBoard(events, g);
    }
    GlobalBoardGrows(events, e);
    BestAfter(events, e);
  }

  /** The cross-game board is a matter of the games' boards alone. */
  lemma SameGlobal(a: set<Event>, b: set<Event>)
    requires SameBoards(a, b)
    requires forall e | e in a + b :: e.game in SLUGS
    ensures GlobalBoard(a) == GlobalBoard(b)
  {
    forall u
      ensures u in Everyone(a) <==> u in Everyone(b)
      ensures Total(a, SLUGS, u) == Total(b, SLUGS, u)
    {
      SameTotal(a, b, SLUGS, u);
      if e :| e in a && e.user == u {
        assert u in Players(a, e.game) && GameBoard(a, e.game) == GameBoard(b, e.game);
        assert u in GameBoard(b, e.game);
      }
      if e :| e in b && e.user == u {
        assert u in Players(b, e.game) && GameBoard(a, e.game) == GameBoard(b, e.game);
        assert u in GameBoard(a, e.game);
      }
    }
  }

  lemma {:induction false} SameTotal(a: set<Event>, b: set<Event>, games: seq<string>, u: int)
    requires SameBoards(a, b)
    ensures Total(a, games, u) == Total(b, games, u)
  {
    if games != [] {
      var g := games[0];
      PlayersHavePoints(a, g, u);
      PlayersHavePoints(b, g, u);
      assert GameBoard(a, g) == GameBoard(b, g);
      assert u in Players(a, g) ==> GameBoard(a, g)[u] == BestOrZero(a, g, u);
      assert u in Players(b, g) ==> GameBoard(b, g)[u] == BestOrZero(b, g, u);
      assert u in GameBoard(a, g) <==> u in Players(a, g);
      assert u in GameBoard(b, g) <==> u in Players(b, g);
      SameTotal(a, b, games[1..], u);
    }
  }
}
