/** The simple answer: what a board should hold, computed from a set of score events at one go. */
module Aggregate {
  import Games
  import opened Sets
  import opened Windows
  import opened Keys

  const MAX_POINTS := Games.MAX_POINTS

  /** One row of score_events. */
  datatype Event = Event(id: int, user: int, game: string, points: int, at: int)

  /** What the table's checks and the session service guarantee of a row. */
  predicate ValidEvent(e: Event) {
    e.game in SLUGS && 0 <= e.points <= MAX_POINTS && e.at > ZERO_TIME
  }

  function EventsOf(log: seq<Event>): set<Event> {
    set e | e in log
  }

  /** The events a period's window starting at w takes in. */
  function InWindow(events: set<Event>, p: Period, w: int): set<Event> {
    set e | e in events && Start(p, e.at) == w
  }

  ghost function Points(events: set<Event>, game: string, user: int): set<int> {
    set e | e in events && e.game == game && e.user == user :: e.points
  }

  ghost function Players(events: set<Event>, game: string): set<int> {
    set e | e in events && e.game == game :: e.user
  }

  /** A game's board: every player's best. */
  ghost function GameBoard(events: set<Event>, game: string): map<int, int> {
    map u | u in Players(events, game) :: BestOrZero(events, game, u)
  }

  /** A player's best in a game, or nothing for a game never played. */
  ghost function BestOrZero(events: set<Event>, game: string, user: int): int {
    if Points(events, game, user) == {} then 0 else SetMax(Points(events, game, user))
  }

  /** A player's bests summed over a list of games. */
  ghost function Total(events: set<Event>, games: seq<string>, user: int): int {
    if games == [] then 0 else BestOrZero(events, games[0], user) + Total(events, games[1..], user)
  }

  ghost function Everyone(events: set<Event>): set<int> {
    set e | e in events :: e.user
  }

  /** The cross-game board: every player's bests, summed. */
  ghost function GlobalBoard(events: set<Event>): map<int, int> {
    map u | u in Everyone(events) :: Total(events, SLUGS, u)
  }

  ghost function BoardOf(scope: Scope, events: set<Event>): map<int, int> {
    if scope == GLOBAL then GlobalBoard(events) else GameBoard(events, scope.game)
  }

  // ------------------------------------------------------------------- one more event

  lemma InWindowGrows(events: set<Event>, e: Event, p: Period, w: int)
    ensures InWindow(events + {e}, p, w) == if Start(p, e.at) == w then InWindow(events, p, w) + {e} else InWindow(events, p, w)
  {
  }

  lemma PointsGrow(events: set<Event>, e: Event, game: string, user: int)
    ensures Points(events + {e}, game, user) ==
            Points(events, game, user) + if e.game == game && e.user == user then {e.points} else {}
  {
    var all, before := Points(events + {e}, game, user), Points(events, game, user);
    var extra := if e.game == game && e.user == user then {e.points} else {};
    forall x | x in before + extra ensures x in all {
      if x in before {
        var f :| f in events && f.game == game && f.user == user && f.points == x;
        assert f in events + {e};
      } else {
        assert e in events + {e};
      }
    }
    forall x | x in all ensures x in before + extra {
      var f :| f in events + {e} && f.game == game && f.user == user && f.points == x;
    }
  }

  /** A player has points in a game exactly when the player is on its board. */
  lemma PlayersHavePoints(events: set<Event>, game: string, user: int)
    ensures user in Players(events, game) <==> Points(events, game, user) != {}
  {
    if user in Players(events, game) {
      var e :| e in events && e.game == game && e.user == user;
      assert e.points in Points(events, game, user);
    }
    if Points(events, game, user) != {} {
      var x := Any(Points(events, game, user));
      var e :| e in events && e.game == game && e.user == user && e.points == x;
      assert e.user in Players(events, game);
    }
  }

  /** A best only moves up, and only for the player and game of the event. */
  lemma BestGrows(events: set<Event>, e: Event, game: string, user: int)
    ensures BestOrZero(events + {e}, game, user) ==
            if e.game != game || e.user != user then BestOrZero(events, game, user)
            else if Points(events, game, user) == {} || e.points > BestOrZero(events, game, user) then e.points
            else BestOrZero(events, game, user)
  {
    PointsGrow(events, e, game, user);
    var before := Points(events, game, user);
    if e.game == game && e.user == user {
      var all := Points(events + {e}, game, user);
      assert e.points in all;
      if before != {} {
        assert IsMax(before, SetMax(before)) && IsMax(all, SetMax(all));
      }
    }
  }

  lemma {:induction false} TotalGrows(events: set<Event>, e: Event, games: seq<string>, user: int)
    requires forall i, j :: 0 <= i < j < |games| ==> games[i] != games[j]
    ensures Total(events + {e}, games, user) - Total(events, games, user) ==
            if e.game in games then BestOrZero(events + {e}, e.game, user) - BestOrZero(events, e.game, user) else 0
  {
    if games != [] {
      BestGrows(events, e, games[0], user);
      TotalGrows(events, e, games[1..], user);
      assert e.game in games <==> e.game == games[0] || e.game in games[1..];
      assert e.game == games[0] ==> e.game !in games[1..];
    }
  }

  lemma {:induction false} TotalOfStranger(events: set<Event>, games: seq<string>, user: int)
    requires user !in Everyone(events)
    ensures Total(events, games, user) == 0
  {
    if games != [] {
      PlayersHavePoints(events, games[0], user);
      assert Players(events, games[0]) <= Everyone(events);
      TotalOfStranger(events, games[1..], user);
    }
  }

  lemma SlugsDistinct()
    ensures forall i, j :: 0 <= i < j < |SLUGS| ==> SLUGS[i] != SLUGS[j]
    ensures "" !in SLUGS
  {
    assert SLUGS[0][0] == 'r' && SLUGS[1][1] == 'a' && SLUGS[2][1] == 'e' && SLUGS[3][0] == 'w' && SLUGS[4][0] == 'n';
    assert SLUGS[1][0] == 'm' && SLUGS[2][0] == 'm' && |SLUGS[2]| == 6;
    forall s | s in SLUGS ensures s != "" {
      var i :| 0 <= i < |SLUGS| && SLUGS[i] == s;
      assert |SLUGS[i]| > 0;
    }
  }

  lemma GameEntryGrows(events: set<Event>, e: Event, game: string, u: int)
    ensures u in Players(events + {e}, game) <==> u in Players(events, game) || (e.game == game && u == e.user)
    ensures u in Players(events + {e}, game) ==>
              BestOrZero(events + {e}, game, u) ==
              if e.game == game && u == e.user && (u !in Players(events, game) || e.points > BestOrZero(events, game, u))
              then e.points else BestOrZero(events, game, u)
  {
    PointsGrow(events, e, game, u);
    PlayersHavePoints(events + {e}, game, u);
    PlayersHavePoints(events, game, u);
    BestGrows(events, e, game, u);
  }

  /** A game's board takes an event in exactly when it beats what the player had. */
  lemma GameBoardGrows(events: set<Event>, e: Event, game: string)
    ensures GameBoard(events + {e}, game) ==
            if e.game == game && (e.user !in GameBoard(events, game) || e.points > GameBoard(events, game)[e.user])
            then GameBoard(events, game)[e.user := e.points]
            else GameBoard(events, game)
  {
    var after, before := GameBoard(events + {e}, game), GameBoard(events, game);
    var expected := if e.game == game && (e.user !in before || e.points > before[e.user])
                    then before[e.user := e.points] else before;
    forall u: int
      ensures u in after <==> u in expected
      ensures u in after ==> after[u] == expected[u]
    {
      GameEntryGrows(events, e, game, u);
    }
  }

  lemma GlobalEntryGrows(events: set<Event>, e: Event, u: int)
    requires e.game in SLUGS
    ensures u in Everyone(events + {e}) <==> u in Everyone(events) || u == e.user
    ensures u !in Everyone(events) ==> Total(events, SLUGS, u) == 0
    ensures Total(events + {e}, SLUGS, u) - Total(events, SLUGS, u) ==
            if u == e.user then BestOrZero(events + {e}, e.game, u) - BestOrZero(events, e.game, u) else 0
  {
    SlugsDistinct();
    TotalGrows(events, e, SLUGS, u);
    BestGrows(events, e, e.game, u);
    if u !in Everyone(events) {
      TotalOfStranger(events, SLUGS, u);
    }
    assert e in events + {e};
    assert forall f :: f in events ==> f in events + {e};
  }

  /** The cross-game board moves by exactly what the player's best moves. */
  lemma GlobalBoardGrows(events: set<Event>, e: Event)
    requires e.game in SLUGS
    ensures GlobalBoard(events + {e}) ==
            GlobalBoard(events)[e.user := (if e.user in GlobalBoard(events) then GlobalBoard(events)[e.user] else 0)
              + BestOrZero(events + {e}, e.game, e.user) - BestOrZero(events, e.game, e.user)]
  {
    var after, before := GlobalBoard(events + {e}), GlobalBoard(events);
    var moved := BestOrZero(events + {e}, e.game, e.user) - BestOrZero(events, e.game, e.user);
    var expected := before[e.user := (if e.user in before then before[e.user] else 0) + moved];
    forall u: int
      ensures u in after <==> u in expected
      ensures u in after ==> after[u] == expected[u]
    {
      GlobalEntryGrows(events, e, u);
    }
  }
}
