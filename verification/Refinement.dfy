/** The incremental boards refine the aggregate: a window's nine boards that hold the aggregate of
    some events hold, after a submit, the aggregate of those events and the new one. */
module Refinement {
  import opened Sets
  import opened Windows
  import opened Keys
  import opened Redis
  import opened Aggregate
  import opened Submit

  /** The boards of one window hold the aggregate of a set of events. */
  ghost predicate Matches(db: Db, p: Period, w: int, events: set<Event>) {
    && (forall g | g in SLUGS :: Scores(db, Board(Scope(g), p, w)) == GameBoard(events, g))
    && Scores(db, Board(GLOBAL, p, w)) == GlobalBoard(events)
  }

  /** A window's boards may be relied on until its start plus the period's expiry. */
  predicate Kept(p: Period, w: int, now: int) {
    p == AllTime || now < w + p.Ttl()
  }

  /** A board's key does not expire before its window is past that point, and an all-time key never does. */
  ghost predicate KeyTimely(db: Db, k: Key) {
    k in db && k.Board? ==>
      if k.period == AllTime then db[k].expiry.None?
      else db[k].expiry.Some? && k.start + k.period.Ttl() <= db[k].expiry.value
  }

  ghost predicate WindowTimely(db: Db, p: Period, w: int) {
    forall s: Scope | s == GLOBAL || s.game in SLUGS :: KeyTimely(db, Board(s, p, w))
  }

  ghost predicate Timely(db: Db) {
    forall k: Key :: KeyTimely(db, k)
  }

  /** What an event adds to a player's best on a game's board. */
  function Gain(own: map<int, int>, e: Event): int {
    if e.user !in own then e.points else if e.points > own[e.user] then e.points - own[e.user] else 0
  }

  lemma BestAfter(events: set<Event>, e: Event)
    ensures BestOrZero(events + {e}, e.game, e.user) - BestOrZero(events, e.game, e.user) == Gain(GameBoard(events, e.game), e)
  {
    BestGrows(events, e, e.game, e.user);
    PlayersHavePoints(events, e.game, e.user);
  }

  lemma RoundRefinesGame(before: Db, after: Db, now: int, p: Period, w: int, events: set<Event>, e: Event, g: string)
    requires e.game in SLUGS && g in SLUGS
    requires Matches(before, p, w, events)
    requires RoundDone(before, after, now, Board(Scope(e.game), p, w), Board(GLOBAL, p, w), p.Ttl(), e.user, e.points)
    requires g != e.game ==> SameAt(before, after, Board(Scope(g), p, w))
    ensures Scores(after, Board(Scope(g), p, w)) == GameBoard(events + {e}, g)
  {
    GameBoardGrows(events, e, g);
    assert Scores(before, Board(Scope(g), p, w)) == GameBoard(events, g);
  }

  /** A cross-game board after a submit, in the script's terms. */
  function Moved(all: map<int, int>, own: map<int, int>, e: Event): map<int, int> {
    if e.user !in own || e.points > own[e.user]
    then all[e.user := (if e.user in all then all[e.user] else 0) + e.points - (if e.user in own then own[e.user] else 0)]
    else all
  }

  lemma MovedBy(all: map<int, int>, moved: map<int, int>, own: map<int, int>, e: Event, best: int, was: int)
    requires moved == all[e.user := (if e.user in all then all[e.user] else 0) + best - was]
    requires best - was == Gain(own, e) && (e.user in own ==> e.user in all)
    ensures moved == Moved(all, own, e)
  {
  }

  lemma OnGameBoardOnGlobal(events: set<Event>, game: string, user: int)
    ensures user in GameBoard(events, game) ==> user in GlobalBoard(events)
  {
    if user in GameBoard(events, game) {
      assert user in Players(events, game);
    }
  }

  /** The cross-game aggregate takes one more event in the same way. */
  lemma GlobalBoardMoves(events: set<Event>, e: Event)
    requires e.game in SLUGS
    ensures GlobalBoard(events + {e}) == Moved(GlobalBoard(events), GameBoard(events, e.game), e)
  {
    GlobalBoardGrows(events, e);
    BestAfter(events, e);
    OnGameBoardOnGlobal(events, e.game, e.user);
    MovedBy(GlobalBoard(events), GlobalBoard(events + {e}), GameBoard(events, e.game), e,
            BestOrZero(events + {e}, e.game, e.user), BestOrZero(events, e.game, e.user));
  }

  lemma GlobalRound(before: Db, after: Db, game: Key, global: Key, e: Event)
    requires Recorded(before, after, game, global, e.user, e.points)
    ensures Scores(after, global) == Moved(Scores(before, global), Scores(before, game), e)
  {
  }

  lemma RoundRefinesGlobal(before: Db, after: Db, now: int, p: Period, w: int, events: set<Event>, e: Event)
    requires e.game in SLUGS
    requires Matches(before, p, w, events)
    requires RoundDone(before, after, now, Board(Scope(e.game), p, w), Board(GLOBAL, p, w), p.Ttl(), e.user, e.points)
    ensures Scores(after, Board(GLOBAL, p, w)) == GlobalBoard(events + {e})
  {
    GlobalBoardMoves(events, e);
    GlobalRound(before, after, Board(Scope(e.game), p, w), Board(GLOBAL, p, w), e);
    assert Scores(before, Board(Scope(e.game), p, w)) == GameBoard(events, e.game);
  }

  /** One period's round takes the boards of the event's own window from one aggregate to the next. */
  lemma RoundRefines(before: Db, after: Db, now: int, p: Period, w: int, events: set<Event>, e: Event)
    requires e.game in SLUGS
    requires Matches(before, p, w, events)
    requires RoundDone(before, after, now, Board(Scope(e.game), p, w), Board(GLOBAL, p, w), p.Ttl(), e.user, e.points)
    requires forall g | g in SLUGS && g != e.game :: SameAt(before, after, Board(Scope(g), p, w))
    ensures Matches(after, p, w, events + {e})
  {
    forall g | g in SLUGS
      ensures Scores(after, Board(Scope(g), p, w)) == GameBoard(events + {e}, g)
    {
      RoundRefinesGame(before, after, now, p, w, events, e, g);
    }
    RoundRefinesGlobal(before, after, now, p, w, events, e);
  }

  /** Every window's boards keep holding the aggregate of its events when one more is submitted,
      whichever windows that event falls in, and however often and in what order it comes. */
  lemma SubmitRefines(before: Db, after: Db, now: int, p: Period, w: int, events: set<Event>, e: Event)
    requires e.game in SLUGS
    requires Submitted(before, after, now, e.user, e.game, e.points, e.at)
    requires Matches(before, p, w, InWindow(events, p, w))
    ensures Matches(after, p, w, InWindow(events + {e}, p, w))
  {
    InWindowGrows(events, e, p, w);
    SlugsDistinct();
    if Start(p, e.at) == w {
      assert RoundDone(before, after, now, BoardKey(Scope(e.game), p, e.at), BoardKey(GLOBAL, p, e.at), p.Ttl(), e.user, e.points);
      forall g | g in SLUGS && g != e.game
        ensures SameAt(before, after, Board(Scope(g), p, w))
      {
        assert !Counts(Board(Scope(g), p, w), e.game, e.at);
      }
      RoundRefines(before, after, now, p, w, InWindow(events, p, w), e);
    } else {
      forall s: Scope
        ensures SameAt(before, after, Board(s, p, w))
      {
        assert !Counts(Board(s, p, w), e.game, e.at);
      }
    }
  }

  /** Expiring once, at first write, never drops a key before its window's start plus the expiry: a
      score is written no earlier than it was achieved. */
  lemma SubmitTimely(before: Db, after: Db, now: int, e: Event, k: Key)
    requires Submitted(before, after, now, e.user, e.game, e.points, e.at)
    requires KeyTimely(before, k) && e.at <= now
    ensures KeyTimely(after, k)
  {
    if Counts(k, e.game, e.at) {
      var p := k.period;
      assert RoundDone(before, after, now, BoardKey(Scope(e.game), p, e.at), BoardKey(GLOBAL, p, e.at), p.Ttl(), e.user, e.points);
      WindowsTile(p, e.at, e.at);
      assert k == BoardKey(Scope(e.game), p, e.at) || k == BoardKey(GLOBAL, p, e.at);
      assert Expiry(after, k) == ExpiryAfter(before, after, k, now, p.Ttl());
    } else {
      assert SameAt(before, after, k);
    }
  }

  /** Time passing takes nothing from a window that is still kept. */
  lemma AdvanceRefines(db: Db, to: int, p: Period, w: int, events: set<Event>)
    requires WindowTimely(db, p, w) && Kept(p, w, to) && Matches(db, p, w, events)
    ensures Matches(Surviving(db, to), p, w, events)
  {
    forall s: Scope | s == GLOBAL || s.game in SLUGS
      ensures Scores(Surviving(db, to), Board(s, p, w)) == Scores(db, Board(s, p, w))
    {
      assert KeyTimely(db, Board(s, p, w));
    }
  }

  lemma AdvanceTimely(db: Db, to: int, k: Key)
    requires KeyTimely(db, k)
    ensures KeyTimely(Surviving(db, to), k)
  {
  }

  // ----------------------------------------------------------------------- what matching boards obey

  ghost function EntrySum(db: Db, games: seq<string>, p: Period, w: int, user: int): int {
    if games == [] then 0
    else ScoreOrZero(db, Board(Scope(games[0]), p, w), user) + EntrySum(db, games[1..], p, w, user)
  }

  lemma {:induction false} EntrySumIsTotal(db: Db, games: seq<string>, p: Period, w: int, events: set<Event>, user: int)
    requires Matches(db, p, w, events)
    requires forall g | g in games :: g in SLUGS
    ensures EntrySum(db, games, p, w, user) == Total(events, games, user)
  {
    if games != [] {
      assert Scores(db, Board(Scope(games[0]), p, w)) == GameBoard(events, games[0]);
      PlayersHavePoints(events, games[0], user);
      EntrySumIsTotal(db, games[1..], p, w, events, user);
    }
  }

  lemma {:induction false} TotalBound(events: set<Event>, games: seq<string>, user: int)
    requires forall e | e in events :: ValidEvent(e)
    ensures 0 <= Total(events, games, user) <= MAX_POINTS * |games|
  {
    if games != [] {
      var s := Points(events, games[0], user);
      if s != {} {
        assert SetMax(s) in s;
      }
      TotalBound(events, games[1..], user);
    }
  }

  /** Conservation: a player is on the cross-game board exactly when the player is on some game's
      board, with exactly the sum of those entries, which is never above fifty thousand. */
  lemma Conservation(db: Db, p: Period, w: int, events: set<Event>, user: int)
    requires Matches(db, p, w, events)
    requires forall e | e in events :: ValidEvent(e)
    ensures user in Scores(db, Board(GLOBAL, p, w)) <==>
            exists g :: g in SLUGS && user in Scores(db, Board(Scope(g), p, w))
    ensures user in Scores(db, Board(GLOBAL, p, w)) ==>
              && Scores(db, Board(GLOBAL, p, w))[user] == EntrySum(db, SLUGS, p, w, user)
              && 0 <= Scores(db, Board(GLOBAL, p, w))[user] <= 50_000
  {
    EntrySumIsTotal(db, SLUGS, p, w, events, user);
    TotalBound(events, SLUGS, user);
    if user in Everyone(events) {
      var e :| e in events && e.user == user;
      assert ValidEvent(e);
      assert user in Players(events, e.game);
      assert user in Scores(db, Board(Scope(e.game), p, w));
    }
    if g :| g in SLUGS && user in Scores(db, Board(Scope(g), p, w)) {
      assert Scores(db, Board(Scope(g), p, w)) == GameBoard(events, g);
      assert user in Everyone(events);
    }
  }
}

