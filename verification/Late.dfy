/** What a window's boards hold once they are no longer kept: a score projected late makes a key anew, and
    whoever reads the live board then reads what has been published since. */
module Late {
  import opened Wrappers
  import opened Sets
  import opened Windows
  import opened Keys
  import opened Redis
  import opened Aggregate
  import opened Submit
  import opened Refinement
  import opened Delivery

  // ------------------------------------------------------------------------------ since a key was last gone

  /** What a step publishes. */
  function Carried(s: State, step: Step): set<Event> {
    if step.Publish? && 0 <= step.id < |s.log| then {s.log[step.id]} else {}
  }

  /** What a run has published from one point to another. */
  ghost function Since(states: seq<State>, steps: seq<Step>, i: nat, j: nat): set<Event>
    requires Path(states, steps) && i <= j <= |steps|
    decreases j
  {
    if i == j then {} else Since(states, steps, i, j - 1) + Carried(states[j - 1], steps[j - 1])
  }

  /** The boards an answer for a scope depends on: a game's own, and for the cross-game board all of the
      window's. */
  predicate Feeds(k: Key, scope: Scope, p: Period, w: int) {
    && k.Board? && k.period == p && k.start == w
    && (k.scope == scope || (scope == GLOBAL && k.scope.game in SLUGS))
  }

  predicate StaysAt(states: seq<State>, n: nat, k: Key)
    requires n < |states| - 1
  {
    k in states[n].db ==> k in states[n + 1].db
  }

  /** A key is gone at one point, and up to another does not expire once it is there. */
  ghost predicate MadeSince(states: seq<State>, i: nat, j: nat, k: Key)
    requires i <= j < |states|
  {
    k !in states[i].db && forall n | i <= n < j :: StaysAt(states, n, k)
  }

  /** A game's board of a window holds the aggregate of these events. */
  ghost predicate GameHolds(db: Db, g: string, p: Period, w: int, events: set<Event>) {
    Scores(db, Board(Scope(g), p, w)) == GameBoard(InWindow(events, p, w), g)
  }

  lemma LateGameStep(s: State, step: Step, t: State, g: string, p: Period, w: int, events: set<Event>)
    requires Next(s, step, t) && g in SLUGS && (Board(Scope(g), p, w) in s.db ==> Board(Scope(g), p, w) in t.db)
    requires GameHolds(s.db, g, p, w, events)
    ensures GameHolds(t.db, g, p, w, events + Carried(s, step))
  {
    var k := Board(Scope(g), p, w);
    SlugsDistinct();
    if step.Publish? {
      var e := s.log[step.id];
      InWindowGrows(events, e, p, w);
      GameBoardGrows(InWindow(events, p, w), e, g);
      if Start(p, e.at) == w && e.game == g {
        assert RoundDone(s.db, t.db, s.now, BoardKey(Scope(g), p, e.at), BoardKey(GLOBAL, p, e.at), p.Ttl(), e.user, e.points);
      } else {
        assert SameAt(s.db, t.db, k);
      }
    } else {
      assert events + {} == events;
    }
  }

  lemma NoneLeftListed(db: Db, g: string, p: Period, w: int)
    requires Board(Scope(g), p, w) !in db
    ensures GameHolds(db, g, p, w, {})
  {
    assert Players(InWindow({}, p, w), g) == {};
  }

  /** In every run a game's board holds exactly the aggregate of what was published since its key was last
      not there, kept or not. */
  lemma {:induction false} GameBoardSince(states: seq<State>, steps: seq<Step>, i: nat, j: nat, g: string, p: Period, w: int)
    requires Path(states, steps) && i <= j <= |steps| && g in SLUGS && MadeSince(states, i, j, Board(Scope(g), p, w))
    ensures GameHolds(states[j].db, g, p, w, Since(states, steps, i, j))
    decreases j
  {
    if i == j {
      NoneLeftListed(states[i].db, g, p, w);
    } else {
      GameBoardSince(states, steps, i, j - 1, g, p, w);
      assert StaysAt(states, j - 1, Board(Scope(g), p, w));
      assert Next(states[j - 1], steps[j - 1], states[j]);
      LateGameStep(states[j - 1], steps[j - 1], states[j], g, p, w, Since(states, steps, i, j - 1));
    }
  }

  lemma LateWindowStep(s: State, step: Step, t: State, p: Period, w: int, events: set<Event>)
    requires Inv(s) && Next(s, step, t) && Matches(s.db, p, w, InWindow(events, p, w))
    requires forall k: Key | Feeds(k, GLOBAL, p, w) && k in s.db :: k in t.db
    ensures Matches(t.db, p, w, InWindow(events + Carried(s, step), p, w))
  {
    if step.Publish? {
      var e := s.log[step.id];
      assert ValidEvent(e);
      SubmitRefines(s.db, t.db, s.now, p, w, events, e);
    } else {
      assert events + {} == events;
      forall scope: Scope | scope == GLOBAL || scope.game in SLUGS
        ensures Scores(t.db, Board(scope, p, w)) == Scores(s.db, Board(scope, p, w))
      {
        assert Feeds(Board(scope, p, w), GLOBAL, p, w);
      }
    }
  }

  lemma NoneLeftMatches(db: Db, p: Period, w: int)
    requires forall k: Key | Feeds(k, GLOBAL, p, w) :: k !in db
    ensures Matches(db, p, w, InWindow({}, p, w))
  {
    EmptyBoardsMatch(p, w);
    assert InWindow({}, p, w) == {};
    forall scope: Scope | scope == GLOBAL || scope.game in SLUGS
      ensures Scores(db, Board(scope, p, w)) == Scores(map[], Board(scope, p, w))
    {
      assert Feeds(Board(scope, p, w), GLOBAL, p, w);
    }
  }

  /** And all of a window's boards together, since they were last all of them not there. */
  lemma {:induction false} WindowSince(states: seq<State>, steps: seq<Step>, i: nat, j: nat, p: Period, w: int)
    requires Path(states, steps) && Init(states[0]) && i <= j <= |steps|
    requires forall k: Key | Feeds(k, GLOBAL, p, w) :: MadeSince(states, i, j, k)
    ensures Matches(states[j].db, p, w, InWindow(Since(states, steps, i, j), p, w))
    decreases j
  {
    if i == j {
      NoneLeftMatches(states[i].db, p, w);
    } else {
      forall k: Key | Feeds(k, GLOBAL, p, w) ensures MadeSince(states, i, j - 1, k) {
        assert MadeSince(states, i, j, k);
      }
      WindowSince(states, steps, i, j - 1, p, w);
      InvAt(states, steps, j - 1);
      forall k: Key | Feeds(k, GLOBAL, p, w) && k in states[j - 1].db ensures k in states[j].db {
        assert MadeSince(states, i, j, k) && StaysAt(states, j - 1, k);
      }
      LateWindowStep(states[j - 1], steps[j - 1], states[j], p, w, Since(states, steps, i, j - 1));
    }
  }

  lemma InvAt(states: seq<State>, steps: seq<Step>, j: nat)
    requires Path(states, steps) && Init(states[0]) && j <= |steps|
    ensures Inv(states[j])
  {
    InitInv(states[0]);
    assert Path(states[..j + 1], steps[..j]);
    PathKeeps(states[..j + 1], steps[..j]);
  }

  lemma {:induction false} SinceRecorded(states: seq<State>, steps: seq<Step>, i: nat, j: nat)
    requires Path(states, steps) && i <= j <= |steps|
    ensures Since(states, steps, i, j) <= EventsOf(states[j].log)
    decreases j
  {
    if i < j {
      SinceRecorded(states, steps, i, j - 1);
      var s, t := states[j - 1], states[j];
      assert Next(s, steps[j - 1], t);
      forall e | e in s.log ensures e in t.log {
      }
    }
  }

  // -------------------------------------------------------------------------------- how long a key lasts

  /** The expiry a key gets when it is made. */
  function MadeWith(k: Key, now: int): Option<int>
    requires k.Board?
  {
    if k.period == AllTime then None else Some(now + k.period.Ttl())
  }

  lemma SubmitExpiry(before: Db, after: Db, now: int, e: Event, k: Key)
    requires Submitted(before, after, now, e.user, e.game, e.points, e.at) && k.Board? && k in after
    ensures k !in before ==> after[k].expiry == MadeWith(k, now)
    ensures k in before && (before[k].expiry.Some? || k.period == AllTime) ==> after[k].expiry == before[k].expiry
    ensures k in before ==> k in after
  {
    if Counts(k, e.game, e.at) {
      var p := k.period;
      assert RoundDone(before, after, now, BoardKey(Scope(e.game), p, e.at), BoardKey(GLOBAL, p, e.at), p.Ttl(), e.user, e.points);
      assert k == BoardKey(Scope(e.game), p, e.at) || k == BoardKey(GLOBAL, p, e.at);
      assert Expiry(after, k) == ExpiryAfter(before, after, k, now, p.Ttl());
    } else {
      assert SameAt(before, after, k);
    }
  }

  lemma SubmitKeepsKeys(before: Db, after: Db, now: int, e: Event, k: Key)
    requires Submitted(before, after, now, e.user, e.game, e.points, e.at) && k in before
    ensures k in after
  {
    if Counts(k, e.game, e.at) {
      var p := k.period;
      assert RoundDone(before, after, now, BoardKey(Scope(e.game), p, e.at), BoardKey(GLOBAL, p, e.at), p.Ttl(), e.user, e.points);
      assert k == BoardKey(Scope(e.game), p, e.at) || k == BoardKey(GLOBAL, p, e.at);
    } else {
      assert SameAt(before, after, k);
    }
  }

  /** A key is there with the expiry it was made with. */
  predicate StillThere(s: State, k: Key, expiry: Option<int>) {
    k in s.db && s.db[k].expiry == expiry
  }

  lemma KeyIsMade(s: State, step: Step, t: State, k: Key)
    requires Next(s, step, t) && k.Board? && k !in s.db && k in t.db
    ensures StillThere(t, k, MadeWith(k, s.now)) && t.now == s.now
  {
    if step.Publish? {
      SubmitExpiry(s.db, t.db, s.now, s.log[step.id], k);
    }
  }

  lemma KeyStays(s: State, step: Step, t: State, k: Key, expiry: Option<int>)
    requires Next(s, step, t) && k.Board? && StillThere(s, k, expiry) && (expiry.None? ==> k.period == AllTime)
    ensures expiry.None? || t.now < expiry.value ==> StillThere(t, k, expiry)
    ensures step.Tick? && expiry.Some? && t.now >= expiry.value ==> k !in t.db
  {
    if step.Publish? {
      SubmitKeepsKeys(s.db, t.db, s.now, s.log[step.id], k);
      SubmitExpiry(s.db, t.db, s.now, s.log[step.id], k);
    }
  }

  lemma {:induction false} NowAdvances(states: seq<State>, steps: seq<Step>, i: nat, j: nat)
    requires Path(states, steps) && i <= j <= |steps|
    ensures states[i].now <= states[j].now
    decreases j
  {
    if i < j {
      NowAdvances(states, steps, i, j - 1);
      assert Next(states[j - 1], steps[j - 1], states[j]);
    }
  }

  /** A key lasts exactly its period's time from when it was made, however often it is written to meanwhile, and so
      a window does roll over; an all-time key lasts for ever. */
  lemma {:induction false} KeyLastsItsTime(states: seq<State>, steps: seq<Step>, i: nat, j: nat, k: Key)
    requires Path(states, steps) && i < j <= |steps| && k.Board? && k !in states[i].db && k in states[i + 1].db
    requires k.period == AllTime || states[j].now < states[i].now + k.period.Ttl()
    ensures StillThere(states[j], k, if k.period == AllTime then None else Some(states[i].now + k.period.Ttl()))
    decreases j
  {
    if j == i + 1 {
      KeyIsMade(states[i], steps[i], states[j], k);
    } else {
      NowAdvances(states, steps, j - 1, j);
      KeyLastsItsTime(states, steps, i, j - 1, k);
      KeyStays(states[j - 1], steps[j - 1], states[j], k, MadeWith(k, states[i].now));
    }
  }

  lemma KeyRollsOver(states: seq<State>, steps: seq<Step>, i: nat, j: nat, k: Key)
    requires Path(states, steps) && i < j < |steps| && k.Board? && k.period != AllTime && k !in states[i].db && k in states[i + 1].db
    requires states[j].now < states[i].now + k.period.Ttl() <= states[j + 1].now
    ensures k !in states[j + 1].db
  {
    KeyLastsItsTime(states, steps, i, j, k);
    KeyStays(states[j], steps[j], states[j + 1], k, MadeWith(k, states[i].now));
    assert Next(states[j], steps[j], states[j + 1]);
  }

  // ---------------------------------------------------------------------- when part of the events will do

  /** Some of these events is as good as this one. */
  ghost predicate Outdone(e: Event, some: set<Event>) {
    exists f :: f in some && f.user == e.user && f.game == e.game && f.points >= e.points
  }

  /** A player with points in a game has an event worth the best of them. */
  lemma BestAttained(events: set<Event>, game: string, user: int) returns (best: Event)
    requires Points(events, game, user) != {}
    ensures best in events && best.game == game && best.user == user && best.points == BestOrZero(events, game, user)
  {
    var m := SetMax(Points(events, game, user));
    assert m in Points(events, game, user);
    best :| best in events && best.game == game && best.user == user && best.points == m;
  }

  lemma BestBounds(events: set<Event>, e: Event)
    requires e in events
    ensures Points(events, e.game, e.user) != {} && e.points <= BestOrZero(events, e.game, e.user)
  {
    assert e.points in Points(events, e.game, e.user);
  }

  lemma BestOfFewer(some: set<Event>, all: set<Event>, game: string, user: int)
    requires some <= all && forall e | e in all :: e.points >= 0
    ensures BestOrZero(some, game, user) <= BestOrZero(all, game, user)
  {
    if Points(some, game, user) != {} {
      var best := BestAttained(some, game, user);
      BestBounds(all, best);
    } else if Points(all, game, user) != {} {
      var best := BestAttained(all, game, user);
    }
  }

  /** Worth nothing, or outdone: then leaving it out makes no difference to a sum. */
  ghost predicate Dispensable(e: Event, some: set<Event>) {
    e.points == 0 || Outdone(e, some)
  }

  lemma NoneBeatsBest(some: set<Event>, e: Event)
    requires e.points <= BestOrZero(some, e.game, e.user) && e.points >= 0
    ensures Dispensable(e, some)
  {
    if Points(some, e.game, e.user) != {} {
      var best := BestAttained(some, e.game, e.user);
    }
  }

  /** A best is as good among fewer events exactly if each left out is dispensable. */
  lemma BestOfSome(some: set<Event>, all: set<Event>, game: string, user: int)
    requires some <= all && forall e | e in all :: e.points >= 0
    ensures BestOrZero(some, game, user) == BestOrZero(all, game, user) <==>
            forall e | e in all && e.game == game && e.user == user :: Dispensable(e, some)
  {
    BestOfFewer(some, all, game, user);
    if BestOrZero(some, game, user) == BestOrZero(all, game, user) {
      forall e | e in all && e.game == game && e.user == user ensures Dispensable(e, some) {
        BestBounds(all, e);
        NoneBeatsBest(some, e);
      }
    } else {
      var best := BestAttained(all, game, user);
      if Dispensable(best, some) {
        BestCovered(some, best);
      }
    }
  }

  lemma BestCovered(some: set<Event>, e: Event)
    requires forall f | f in some :: f.points >= 0
    requires Dispensable(e, some)
    ensures BestOrZero(some, e.game, e.user) >= e.points
  {
    if f :| f in some && f.user == e.user && f.game == e.game && f.points >= e.points {
      BestBounds(some, f);
    } else if Points(some, e.game, e.user) != {} {
      var best := BestAttained(some, e.game, e.user);
    }
  }

  lemma {:induction false} TotalOfSome(some: set<Event>, all: set<Event>, games: seq<string>, user: int)
    requires some <= all && forall e | e in all :: e.points >= 0
    ensures Total(some, games, user) <= Total(all, games, user)
    ensures Total(some, games, user) == Total(all, games, user) <==>
            forall g | g in games :: BestOrZero(some, g, user) == BestOrZero(all, g, user)
  {
    if games != [] {
      BestOfFewer(some, all, games[0], user);
      TotalOfSome(some, all, games[1..], user);
      assert forall g :: g in games <==> g == games[0] || g in games[1..];
    }
  }

  lemma SameEntry(some: set<Event>, all: set<Event>, e: Event)
    requires e in all && GameBoard(some, e.game) == GameBoard(all, e.game)
    ensures Outdone(e, some)
  {
    assert e.user in GameBoard(all, e.game) && e.user in GameBoard(some, e.game);
    PlayersHavePoints(some, e.game, e.user);
    assert BestOrZero(some, e.game, e.user) == GameBoard(some, e.game)[e.user];
    BestBounds(all, e);
    var best := BestAttained(some, e.game, e.user);
  }

  ghost predicate AllOutdone(some: set<Event>, all: set<Event>, g: string) {
    forall e | e in all && e.game == g :: Outdone(e, some)
  }

  lemma OutdoneIsListed(some: set<Event>, all: set<Event>, g: string, user: int)
    requires some <= all && AllOutdone(some, all, g)
    ensures user in Players(some, g) <==> user in Players(all, g)
  {
    if user in Players(all, g) {
      var e :| e in all && e.game == g && e.user == user;
      assert Outdone(e, some);
    }
  }

  lemma OutdoneIsBest(some: set<Event>, all: set<Event>, g: string, user: int)
    requires some <= all && (forall e | e in all :: e.points >= 0) && AllOutdone(some, all, g)
    ensures BestOrZero(some, g, user) == BestOrZero(all, g, user)
  {
    BestOfSome(some, all, g, user);
    forall e | e in all && e.game == g && e.user == user ensures Dispensable(e, some) {
      assert Outdone(e, some);
    }
  }

  ghost predicate SameRow(a: set<Event>, b: set<Event>, g: string, user: int) {
    && (user in Players(a, g) <==> user in Players(b, g))
    && BestOrZero(a, g, user) == BestOrZero(b, g, user)
  }

  lemma SameRowsSameBoard(a: set<Event>, b: set<Event>, g: string)
    requires forall user :: SameRow(a, b, g, user)
    ensures GameBoard(a, g) == GameBoard(b, g)
  {
    assert Players(a, g) == Players(b, g) by {
      forall user: int ensures user in Players(a, g) <==> user in Players(b, g) {
        assert SameRow(a, b, g, user);
      }
    }
    forall user | user in Players(a, g) ensures GameBoard(a, g)[user] == GameBoard(b, g)[user] {
      assert SameRow(a, b, g, user);
    }
  }

  lemma OutdoneIsBoard(some: set<Event>, all: set<Event>, g: string)
    requires some <= all && (forall e | e in all :: e.points >= 0) && AllOutdone(some, all, g)
    ensures GameBoard(some, g) == GameBoard(all, g)
  {
    forall user ensures SameRow(some, all, g, user) {
      OutdoneIsListed(some, all, g, user);
      OutdoneIsBest(some, all, g, user);
    }
    SameRowsSameBoard(some, all, g);
  }

  lemma GameBoardOfSome(some: set<Event>, all: set<Event>, g: string)
    requires some <= all && forall e | e in all :: e.points >= 0
    ensures GameBoard(some, g) == GameBoard(all, g) <==> AllOutdone(some, all, g)
  {
    if GameBoard(some, g) == GameBoard(all, g) {
      forall e | e in all && e.game == g ensures Outdone(e, some) {
        SameEntry(some, all, e);
      }
    }
    if AllOutdone(some, all, g) {
      OutdoneIsBoard(some, all, g);
    }
  }

  /** Everybody is among the players of some of the events, and no event left out makes a difference. */
  ghost predicate Adds(some: set<Event>, all: set<Event>) {
    forall e | e in all :: e.user in Everyone(some) && Dispensable(e, some)
  }

  lemma SameTotals(some: set<Event>, all: set<Event>, user: int)
    requires some <= all && forall e | e in all :: ValidEvent(e)
    ensures Total(some, SLUGS, user) == Total(all, SLUGS, user) <==> forall e | e in all && e.user == user :: Dispensable(e, some)
  {
    TotalOfSome(some, all, SLUGS, user);
    if Total(some, SLUGS, user) == Total(all, SLUGS, user) {
      forall e | e in all && e.user == user ensures Dispensable(e, some) {
        assert ValidEvent(e);
        BestOfSome(some, all, e.game, user);
      }
    }
    if forall e | e in all && e.user == user :: Dispensable(e, some) {
      forall g | g in SLUGS ensures BestOrZero(some, g, user) == BestOrZero(all, g, user) {
        BestOfSome(some, all, g, user);
      }
    }
  }

  lemma GlobalBoardOfSome(some: set<Event>, all: set<Event>)
    requires some <= all && forall e | e in all :: ValidEvent(e)
    ensures GlobalBoard(some) == GlobalBoard(all) <==> Adds(some, all)
  {
    if GlobalBoard(some) == GlobalBoard(all) {
      forall e | e in all ensures e.user in Everyone(some) && Dispensable(e, some) {
        assert e.user in GlobalBoard(all) && e.user in GlobalBoard(some);
        assert Total(some, SLUGS, e.user) == GlobalBoard(some)[e.user] == GlobalBoard(all)[e.user] == Total(all, SLUGS, e.user);
        SameTotals(some, all, e.user);
      }
    }
    if Adds(some, all) {
      forall user: int
        ensures user in GlobalBoard(some) <==> user in GlobalBoard(all)
        ensures Total(some, SLUGS, user) == Total(all, SLUGS, user)
      {
        SameTotals(some, all, user);
      }
    }
  }

  /** These events alone make a scope's board what all of them make it. */
  ghost predicate Suffice(scope: Scope, some: set<Event>, all: set<Event>) {
    if scope == GLOBAL then Adds(some, all) else AllOutdone(some, all, scope.game)
  }

  lemma BoardOfSome(scope: Scope, some: set<Event>, all: set<Event>)
    requires some <= all && forall e | e in all :: ValidEvent(e)
    ensures BoardOf(scope, some) == BoardOf(scope, all) <==> Suffice(scope, some, all)
  {
    if scope == GLOBAL {
      GlobalBoardOfSome(some, all);
    } else {
      GameBoardOfSome(some, all, scope.game);
    }
  }

  /** When is the live answer right, whether or not the window is kept? The boards it depends on having been
      gone at some point and not expired since, it is what all of the window's history comes to exactly if
      what was published since that point suffices: for a game, if every score is equalled by one published
      since of the same player; for the cross-game board, if every player has one published since and every
      score worth anything is equalled. */
  lemma LiveIsRightExactly(states: seq<State>, steps: seq<Step>, i: nat, j: nat, scope: Scope, p: Period, w: int)
    requires Path(states, steps) && Init(states[0]) && i <= j <= |steps| && (scope == GLOBAL || scope.game in SLUGS)
    requires forall k: Key | Feeds(k, scope, p, w) :: MadeSince(states, i, j, k)
    ensures var s := states[j];
            var all, since := InWindow(EventsOf(s.log), p, w), InWindow(Since(states, steps, i, j), p, w);
            && Scores(s.db, Board(scope, p, w)) == BoardOf(scope, since)
            && (Scores(s.db, Board(scope, p, w)) == BoardOf(scope, all) <==> Suffice(scope, since, all))
  {
    SinceRecorded(states, steps, i, j);
    InvAt(states, steps, j);
    LiveIsSince(states, steps, i, j, scope, p, w);
    var s := states[j];
    forall e | e in InWindow(EventsOf(s.log), p, w) ensures ValidEvent(e) {
      var n :| 0 <= n < |s.log| && s.log[n] == e;
      assert ValidEvent(s.log[n]);
    }
    BoardOfSome(scope, InWindow(Since(states, steps, i, j), p, w), InWindow(EventsOf(s.log), p, w));
  }

  lemma LiveIsSince(states: seq<State>, steps: seq<Step>, i: nat, j: nat, scope: Scope, p: Period, w: int)
    requires Path(states, steps) && Init(states[0]) && i <= j <= |steps| && (scope == GLOBAL || scope.game in SLUGS)
    requires forall k: Key | Feeds(k, scope, p, w) :: MadeSince(states, i, j, k)
    ensures Scores(states[j].db, Board(scope, p, w)) == BoardOf(scope, InWindow(Since(states, steps, i, j), p, w))
  {
    SlugsDistinct();
    if scope == GLOBAL {
      WindowSince(states, steps, i, j, p, w);
    } else {
      assert scope == Scope(scope.game) && Feeds(Board(scope, p, w), scope, p, w);
      GameBoardSince(states, steps, i, j, scope.game, p, w);
    }
  }

  /** For a game's board there always is such a point. */
  lemma {:induction false} WasGone(states: seq<State>, steps: seq<Step>, j: nat, k: Key) returns (i: nat)
    requires Path(states, steps) && Init(states[0]) && j <= |steps|
    ensures i <= j && MadeSince(states, i, j, k)
    decreases j
  {
    if k !in states[j].db {
      i := j;
    } else {
      i := WasGone(states, steps, j - 1, k);
    }
  }

  // ---------------------------------------------------------------------- the cross-game board on its own

  lemma {:induction false} EntrySumSame(before: Db, after: Db, games: seq<string>, p: Period, w: int, user: int)
    requires forall g | g in games :: Scores(after, Board(Scope(g), p, w)) == Scores(before, Board(Scope(g), p, w))
    ensures EntrySum(after, games, p, w, user) == EntrySum(before, games, p, w, user)
  {
    if games != [] {
      assert games[0] in games;
      EntrySumSame(before, after, games[1..], p, w, user);
    }
  }

  /** What the sum of a player's entries moves by when one game's board does. */
  lemma {:induction false} EntrySumMoves(before: Db, after: Db, games: seq<string>, game: string, p: Period, w: int, user: int)
    requires game in games && forall i, j | 0 <= i < j < |games| :: games[i] != games[j]
    requires forall g | g in games && g != game :: Scores(after, Board(Scope(g), p, w)) == Scores(before, Board(Scope(g), p, w))
    ensures EntrySum(after, games, p, w, user) - EntrySum(before, games, p, w, user) ==
            ScoreOrZero(after, Board(Scope(game), p, w), user) - ScoreOrZero(before, Board(Scope(game), p, w), user)
  {
    if games[0] == game {
      EntrySumSame(before, after, games[1..], p, w, user);
    } else {
      assert games[0] in games;
      EntrySumMoves(before, after, games[1..], game, p, w, user);
    }
  }

  /** A player's cross-game entry, less the sum of the player's game entries. */
  ghost function Excess(db: Db, p: Period, w: int, user: int): int {
    ScoreOrZero(db, Board(GLOBAL, p, w), user) - EntrySum(db, SLUGS, p, w, user)
  }

  /** A score of another window moves neither, and one of this window both alike. */
  lemma ElsewhereBalances(before: Db, after: Db, now: int, e: Event, p: Period, w: int, user: int)
    requires Submitted(before, after, now, e.user, e.game, e.points, e.at) && Start(p, e.at) != w
    ensures Excess(after, p, w, user) == Excess(before, p, w, user)
  {
    forall s: Scope ensures Scores(after, Board(s, p, w)) == Scores(before, Board(s, p, w)) {
      assert SameAt(before, after, Board(s, p, w));
    }
    EntrySumSame(before, after, SLUGS, p, w, user);
  }

  lemma OthersSame(before: Db, after: Db, now: int, e: Event, g: string, p: Period, w: int)
    requires Submitted(before, after, now, e.user, e.game, e.points, e.at) && g in SLUGS && g != e.game
    ensures Scores(after, Board(Scope(g), p, w)) == Scores(before, Board(Scope(g), p, w))
  {
    SlugsDistinct();
    assert !Counts(Board(Scope(g), p, w), e.game, e.at);
    assert SameAt(before, after, Board(Scope(g), p, w));
  }

  lemma RoundBalances(before: Db, after: Db, now: int, game: Key, global: Key, ttl: int, e: Event, user: int)
    requires RoundDone(before, after, now, game, global, ttl, e.user, e.points)
    ensures ScoreOrZero(after, global, user) - ScoreOrZero(before, global, user) ==
            ScoreOrZero(after, game, user) - ScoreOrZero(before, game, user)
  {
  }

  lemma PublishingBalances(before: Db, after: Db, now: int, e: Event, p: Period, w: int, user: int)
    requires Submitted(before, after, now, e.user, e.game, e.points, e.at) && e.game in SLUGS
    ensures Excess(after, p, w, user) == Excess(before, p, w, user)
  {
    if Start(p, e.at) != w {
      ElsewhereBalances(before, after, now, e, p, w, user);
    } else {
      assert RoundDone(before, after, now, BoardKey(Scope(e.game), p, e.at), BoardKey(GLOBAL, p, e.at), p.Ttl(), e.user, e.points);
      RoundBalances(before, after, now, Board(Scope(e.game), p, w), Board(GLOBAL, p, w), p.Ttl(), e, user);
      forall g | g in SLUGS && g != e.game
        ensures Scores(after, Board(Scope(g), p, w)) == Scores(before, Board(Scope(g), p, w))
      {
        OthersSame(before, after, now, e, g, p, w);
      }
      SlugsDistinct();
      EntrySumMoves(before, after, SLUGS, e.game, p, w, user);
    }
  }

  /** What a player's game entries have lost by expiry from one point of a run to another. */
  ghost function Expired(states: seq<State>, steps: seq<Step>, i: nat, j: nat, p: Period, w: int, user: int): int
    requires Path(states, steps) && i <= j <= |steps|
    decreases j
  {
    if i == j then 0
    else
      Expired(states, steps, i, j - 1, p, w, user) +
      if steps[j - 1].Tick? then EntrySum(states[j - 1].db, SLUGS, p, w, user) - EntrySum(states[j].db, SLUGS, p, w, user) else 0
  }

  /** The cross-game board made anew while games' boards are still there starts from nothing, and so counts
      only what is gained from then on: in every run a player's entry on it is the sum of the player's game
      entries exactly if what they came to when it was last gone is what has expired from them since. */
  lemma {:induction false} CrossGameBalance(states: seq<State>, steps: seq<Step>, i: nat, j: nat, p: Period, w: int, user: int)
    requires Path(states, steps) && Init(states[0]) && i <= j <= |steps| && MadeSince(states, i, j, Board(GLOBAL, p, w))
    ensures ScoreOrZero(states[j].db, Board(GLOBAL, p, w), user) ==
            EntrySum(states[j].db, SLUGS, p, w, user) - EntrySum(states[i].db, SLUGS, p, w, user)
            + Expired(states, steps, i, j, p, w, user)
    ensures ScoreOrZero(states[j].db, Board(GLOBAL, p, w), user) == EntrySum(states[j].db, SLUGS, p, w, user) <==>
            EntrySum(states[i].db, SLUGS, p, w, user) == Expired(states, steps, i, j, p, w, user)
    decreases j
  {
    if i < j {
      CrossGameBalance(states, steps, i, j - 1, p, w, user);
      var s, step, t := states[j - 1], steps[j - 1], states[j];
      InvAt(states, steps, j - 1);
      assert StaysAt(states, j - 1, Board(GLOBAL, p, w));
      if step.Publish? {
        var e := s.log[step.id];
        assert ValidEvent(e);
        PublishingBalances(s.db, t.db, s.now, e, p, w, user);
      } else if !step.Tick? {
        assert t.db == s.db;
      }
    }
  }

  // ------------------------------------------------------------------------------------------- two runs

  /** What submitting a score makes of one key it counts for. */
  function Entered(db: Db, now: int, user: int, points: int, own: Key, k: Key, ttl: int): ZSet {
    ZSet(if !Improves(db, own, user, points) then Scores(db, k)
         else if k == own then Scores(db, k)[user := points]
         else Scores(db, k)[user := ScoreOrZero(db, k, user) + points - ScoreOrZero(db, own, user)],
         if ttl > 0 && Expiry(db, k).None? then Some(now + ttl) else Expiry(db, k))
  }

  /** A database after a score. */
  function Submitting(db: Db, now: int, user: int, game: string, points: int, at: int): Db {
    var changed := set p: Period, s: Scope | p in {AllTime, Daily, Weekly, Monthly} && s in {Scope(game), GLOBAL}
                     && (BoardKey(s, p, at) in db || Improves(db, BoardKey(Scope(game), p, at), user, points)) ::
                     BoardKey(s, p, at);
    map k | k in db.Keys + changed ::
      if Counts(k, game, at) then Entered(db, now, user, points, BoardKey(Scope(game), k.period, at), k, k.period.Ttl()) else db[k]
  }

  lemma SubmittingEnters(db: Db, now: int, user: int, game: string, points: int, at: int, k: Key)
    ensures var own := BoardKey(Scope(game), if k.Board? then k.period else AllTime, at);
            var after := Submitting(db, now, user, game, points, at);
            if Counts(k, game, at) then
              && (k in after <==> k in db || Improves(db, own, user, points))
              && (k in after ==> after[k] == Entered(db, now, user, points, own, k, k.period.Ttl()))
            else SameAt(db, after, k)
  {
    if Counts(k, game, at) {
      assert k == BoardKey(k.scope, k.period, at) && k.scope in {Scope(game), GLOBAL};
      assert k.period in {AllTime, Daily, Weekly, Monthly};
    }
  }

  /** A score can always be submitted. */
  lemma SubmittingWorks(db: Db, now: int, user: int, game: string, points: int, at: int)
    requires game != ""
    ensures Submitted(db, Submitting(db, now, user, game, points, at), now, user, game, points, at)
  {
    var after := Submitting(db, now, user, game, points, at);
    forall k | !Counts(k, game, at) ensures SameAt(db, after, k) {
      SubmittingEnters(db, now, user, game, points, at, k);
    }
    forall p: Period
      ensures RoundDone(db, after, now, BoardKey(Scope(game), p, at), BoardKey(GLOBAL, p, at), p.Ttl(), user, points)
    {
      SubmittingEnters(db, now, user, game, points, at, BoardKey(Scope(game), p, at));
      SubmittingEnters(db, now, user, game, points, at, BoardKey(GLOBAL, p, at));
      EnteredRound(db, after, now, user, points, BoardKey(Scope(game), p, at), BoardKey(GLOBAL, p, at), p.Ttl());
    }
  }

  lemma EnteredRound(db: Db, after: Db, now: int, user: int, points: int, own: Key, global: Key, ttl: int)
    requires own != global
    requires forall k | k == own || k == global ::
               && (k in after <==> k in db || Improves(db, own, user, points))
               && (k in after ==> after[k] == Entered(db, now, user, points, own, k, ttl))
    ensures RoundDone(db, after, now, own, global, ttl, user, points)
  {
  }

  /** A game's key and the cross-game one as a score leaves them that found neither. */
  lemma MadeAnew(db: Db, after: Db, now: int, e: Event, p: Period, w: int)
    requires Submitted(db, after, now, e.user, e.game, e.points, e.at) && Start(p, e.at) == w && p != AllTime
    requires Board(Scope(e.game), p, w) !in db && Board(GLOBAL, p, w) !in db
    ensures forall scope | scope == Scope(e.game) || scope == GLOBAL ::
              Board(scope, p, w) in after && after[Board(scope, p, w)] == ZSet(map[e.user := e.points], Some(now + p.Ttl()))
  {
    var own, global := Board(Scope(e.game), p, w), Board(GLOBAL, p, w);
    assert RoundDone(db, after, now, BoardKey(Scope(e.game), p, e.at), BoardKey(GLOBAL, p, e.at), p.Ttl(), e.user, e.points);
    assert after[own] == ZSet(Scores(after, own), Expiry(after, own));
    assert after[global] == ZSet(Scores(after, global), Expiry(after, global));
  }

  /** Whoever has a score in a window is on both its boards. */
  lemma OnTheBoards(log: seq<Event>, e: Event, p: Period)
    requires e in log
    ensures var events := InWindow(EventsOf(log), p, Start(p, e.at)); e.user in GameBoard(events, e.game) && e.user in GlobalBoard(events)
  {
    var events := InWindow(EventsOf(log), p, Start(p, e.at));
    assert e in events;
    assert e.user in Players(events, e.game);
  }

  /** One database becomes another by waiting and then submitting a score. */
  ghost predicate LaterWith(db: Db, to: int, e: Event, after: Db) {
    Submitted(Surviving(db, to), after, to, e.user, e.game, e.points, e.at)
  }

  lemma LaterExists(db: Db, to: int, e: Event) returns (after: Db)
    requires e.game != ""
    ensures LaterWith(db, to, e, after)
  {
    after := Submitting(Surviving(db, to), to, e.user, e.game, e.points, e.at);
    SubmittingWorks(Surviving(db, to), to, e.user, e.game, e.points, e.at);
  }

  lemma Named(g: string)
    requires g in SLUGS
    ensures g != ""
  {
    SlugsDistinct();
  }

  /** A run records one more score now. */
  lemma RecordingOne(start: State, s: State, e: Event) returns (t: State)
    requires Reaches(start, s) && e.id == |s.log| && e.at == s.now && e.game in SLUGS && 0 <= e.points <= MAX_POINTS
    ensures Reaches(start, t) && t == s.(log := s.log + [e])
  {
    t := s.(log := s.log + [e]);
    ReachesByStep(start, s, Record(e.user, e.game, e.points), t);
  }

  /** A run waits, and then projects a score: it is published and marked. */
  lemma ProjectingOne(start: State, s: State, to: int, id: int, db: Db) returns (t: State)
    requires Reaches(start, s) && s.now <= to && 0 <= id < |s.log| && LaterWith(s.db, to, s.log[id], db)
    ensures Reaches(start, t)
    ensures t == State(to, db, s.log, s.projected + {id}, s.heard + {id}, s.published + {s.log[id]})
  {
    var waited := s.(now := to, db := Surviving(s.db, to));
    var told := waited.(db := db, published := s.published + {s.log[id]}, heard := s.heard + {id});
    t := told.(projected := s.projected + {id});
    ReachesByStep(start, s, Tick(to), waited);
    ReachesByStep(start, waited, Publish(id, true), told);
    ReachesByStep(start, told, Mark(id), t);
  }

  predicate Holds(db: Db, scope: Scope, p: Period, w: int, user: int, points: int, until: int) {
    Board(scope, p, w) in db && db[Board(scope, p, w)] == ZSet(map[user := points], Some(until))
  }

  lemma Outlasts(db: Db, scope: Scope, p: Period, w: int, user: int, points: int, until: int, to: int)
    requires Holds(db, scope, p, w, user, points, until)
    ensures if to < until then Holds(Surviving(db, to), scope, p, w, user, points, until) else Board(scope, p, w) !in Surviving(db, to)
  {
  }

  /** Two scores of one time, projected one after the other. */
  lemma TwoProjected(x: Event, y: Event, second: int) returns (start: State, s: State, a: Db)
    requires x.id == 0 && y.id == 1 && ZERO_TIME < x.at == y.at <= second
    requires x.game in SLUGS && y.game in SLUGS && 0 <= x.points <= MAX_POINTS && 0 <= y.points <= MAX_POINTS
    ensures Init(start) && Reaches(start, s) && s.now == second && s.log == [x, y] && s.projected == {0, 1}
    ensures LaterWith(map[], x.at, x, a) && LaterWith(a, second, y, s.db)
  {
    Named(x.game);
    Named(y.game);
    start := State(x.at, map[], [], {}, {}, {});
    ReachesItself(start);
    s := RecordingOne(start, start, x);
    s := RecordingOne(start, s, y);
    a := LaterExists(s.db, x.at, x);
    s := ProjectingOne(start, s, x.at, 0, a);
    var b := LaterExists(a, second, y);
    s := ProjectingOne(start, s, second, 1, b);
  }

  lemma ThreeProjected(x: Event, y: Event, z: Event, second: int, third: int) returns (start: State, s: State, a: Db, b: Db)
    requires x.id == 0 && y.id == 1 && z.id == 2 && ZERO_TIME < x.at == y.at == z.at <= second <= third
    requires x.game in SLUGS && y.game in SLUGS && z.game in SLUGS
    requires 0 <= x.points <= MAX_POINTS && 0 <= y.points <= MAX_POINTS && 0 <= z.points <= MAX_POINTS
    ensures Init(start) && Reaches(start, s) && s.now == third && s.log == [x, y, z] && s.projected == {0, 1, 2}
    ensures LaterWith(map[], x.at, x, a) && LaterWith(a, second, y, b) && LaterWith(b, third, z, s.db)
  {
    Named(x.game);
    Named(y.game);
    Named(z.game);
    start := State(x.at, map[], [], {}, {}, {});
    ReachesItself(start);
    s := RecordingOne(start, start, x);
    s := RecordingOne(start, s, y);
    s := RecordingOne(start, s, z);
    a := LaterExists(s.db, x.at, x);
    s := ProjectingOne(start, s, x.at, 0, a);
    b := LaterExists(a, second, y);
    s := ProjectingOne(start, s, second, 1, b);
    var c := LaterExists(b, third, z);
    s := ProjectingOne(start, s, third, 2, c);
  }

  lemma RemadeBoards(a: Db, b: Db, first: Event, second: Event, p: Period)
    requires p != AllTime && first.at == second.at && first.game == second.game != ""
    requires LaterWith(map[], first.at, first, a) && LaterWith(a, first.at + p.Ttl(), second, b)
    ensures forall scope | scope == Scope(second.game) || scope == GLOBAL ::
              BoardKey(scope, p, second.at) in b && Scores(b, BoardKey(scope, p, second.at)) == map[second.user := second.points]
  {
    var w, to := Start(p, first.at), first.at + p.Ttl();
    MadeAnew(Surviving(map[], first.at), a, first.at, first, p, w);
    Outlasts(a, Scope(first.game), p, w, first.user, first.points, to, to);
    Outlasts(a, GLOBAL, p, w, first.user, first.points, to, to);
    MadeAnew(Surviving(a, to), b, to, second, p, w);
  }

  /** A late sweep can hide a whole window from the live answer: one player's score is projected in time and
      another's at the moment the boards expire. Then nothing is pending any more, both boards are there
      again, and the first player is on neither. */
  lemma LateSweepHides(p: Period, w: int, g: string, early: int, late: int) returns (start: State, s: State)
    requires p != AllTime && Start(p, w) == w && w > ZERO_TIME && g in SLUGS && early != late
    ensures Init(start) && Reaches(start, s) && s.now == w + p.Ttl()
    ensures s.log == [Event(0, early, g, 1, w), Event(1, late, g, 1, w)] && s.projected == {0, 1}
    ensures forall scope | scope == Scope(g) || scope == GLOBAL ::
              && Board(scope, p, w) in s.db && Scores(s.db, Board(scope, p, w)) == map[late := 1]
              && early in BoardOf(scope, InWindow(EventsOf(s.log), p, w))
  {
    var first, second := Event(0, early, g, 1, w), Event(1, late, g, 1, w);
    var a;
    Named(g);
    start, s, a := TwoProjected(first, second, w + p.Ttl());
    RemadeBoards(a, s.db, first, second, p);
    OnTheBoards(s.log, first, p);
  }

  /** A round of a player alone on two boards: the cross-game entry moves by what the game's does. */
  lemma RoundOf(db: Db, after: Db, now: int, e: Event, p: Period, w: int)
    requires Submitted(db, after, now, e.user, e.game, e.points, e.at) && Start(p, e.at) == w && p != AllTime
    requires ScoreOrZero(db, Board(Scope(e.game), p, w), e.user) < e.points
    requires Scores(db, Board(Scope(e.game), p, w)).Keys <= {e.user} && Scores(db, Board(GLOBAL, p, w)).Keys <= {e.user}
    ensures var own, global := Board(Scope(e.game), p, w), Board(GLOBAL, p, w);
            && own in after && global in after
            && after[own] == ZSet(map[e.user := e.points], Some(Expiry(db, own).GetOr(now + p.Ttl())))
            && after[global] == ZSet(map[e.user := ScoreOrZero(db, global, e.user) + e.points - ScoreOrZero(db, own, e.user)],
                                     Some(Expiry(db, global).GetOr(now + p.Ttl())))
  {
    var own, global := Board(Scope(e.game), p, w), Board(GLOBAL, p, w);
    assert RoundDone(db, after, now, BoardKey(Scope(e.game), p, e.at), BoardKey(GLOBAL, p, e.at), p.Ttl(), e.user, e.points);
    assert after[own] == ZSet(Scores(after, own), Expiry(after, own));
    assert after[global] == ZSet(Scores(after, global), Expiry(after, global));
  }

  /** A first score makes the cross-game board, and a second in another game a board that will last longer. */
  lemma FirstTwoBoards(a: Db, b: Db, x: Event, y: Event, p: Period, w: int)
    requires p != AllTime && x.at == y.at && x.user == y.user && Start(p, x.at) == w
    requires x.game != y.game && y.game != "" && 0 < y.points
    requires LaterWith(map[], x.at, x, a) && LaterWith(a, x.at + 1, y, b)
    ensures Holds(b, Scope(y.game), p, w, y.user, y.points, x.at + 1 + p.Ttl())
    ensures Holds(b, GLOBAL, p, w, y.user, x.points + y.points, x.at + p.Ttl())
  {
    MadeAnew(Surviving(map[], x.at), a, x.at, x, p, w);
    Outlasts(a, GLOBAL, p, w, x.user, x.points, x.at + p.Ttl(), x.at + 1);
    NotYetThere(a, x, Scope(y.game), p, w);
    RoundOf(Surviving(a, x.at + 1), b, x.at + 1, y, p, w);
  }

  /** A third comes when only that one is left. */
  lemma ThirdRaises(b: Db, c: Db, z: Event, p: Period, w: int, had: int, all: int, to: int)
    requires p != AllTime && Start(p, z.at) == w && 0 < had < z.points
    requires Holds(b, Scope(z.game), p, w, z.user, had, to + 1) && Holds(b, GLOBAL, p, w, z.user, all, to)
    requires LaterWith(b, to, z, c)
    ensures Scores(c, Board(Scope(z.game), p, w)) == map[z.user := z.points]
    ensures Scores(c, Board(GLOBAL, p, w)) == map[z.user := z.points - had]
  {
    Outlasts(b, Scope(z.game), p, w, z.user, had, to + 1, to);
    Outlasts(b, GLOBAL, p, w, z.user, all, to, to);
    RoundOf(Surviving(b, to), c, to, z, p, w);
  }

  lemma ShortBoards(a: Db, b: Db, c: Db, x: Event, y: Event, z: Event, p: Period, w: int, to: int)
    requires p != AllTime && x.at == y.at == z.at && x.user == y.user == z.user && Start(p, x.at) == w && to == x.at + p.Ttl()
    requires x.game != y.game == z.game && y.game != "" && 0 < y.points < z.points
    requires LaterWith(map[], x.at, x, a) && LaterWith(a, x.at + 1, y, b) && LaterWith(b, to, z, c)
    ensures Scores(c, Board(Scope(z.game), p, w)) == map[z.user := z.points]
    ensures Scores(c, Board(GLOBAL, p, w)) == map[z.user := z.points - y.points]
  {
    FirstTwoBoards(a, b, x, y, p, w);
    ThirdRaises(b, c, z, p, w, y.points, x.points + y.points, to);
  }

  lemma NotYetThere(a: Db, x: Event, scope: Scope, p: Period, w: int)
    requires LaterWith(map[], x.at, x, a) && scope != Scope(x.game) && scope != GLOBAL
    ensures Board(scope, p, w) !in a
  {
    assert SameAt(Surviving(map[], x.at), a, Board(scope, p, w));
  }

  lemma TtlIsLong(p: Period)
    requires p != AllTime
    ensures p.Ttl() > 1
  {
  }

  lemma ShortRun(p: Period, w: int, x: Event, y: Event, z: Event) returns (start: State, s: State)
    requires p != AllTime && Start(p, x.at) == w && x.user == y.user == z.user
    requires x.id == 0 && y.id == 1 && z.id == 2 && ZERO_TIME < x.at == y.at == z.at
    requires x.game in SLUGS && y.game in SLUGS && x.game != y.game == z.game
    requires 0 < x.points <= MAX_POINTS && 0 < y.points < z.points <= MAX_POINTS
    ensures Init(start) && Reaches(start, s) && s.now == x.at + p.Ttl() && s.log == [x, y, z] && s.projected == {0, 1, 2}
    ensures Scores(s.db, Board(Scope(z.game), p, w)) == map[z.user := z.points]
    ensures Scores(s.db, Board(GLOBAL, p, w)) == map[z.user := z.points - y.points]
  {
    var a, b;
    TtlIsLong(p);
    Named(y.game);
    start, s, a, b := ThreeProjected(x, y, z, x.at + 1, x.at + p.Ttl());
    ShortBoards(a, b, s.db, x, y, z, p, w, s.now);
  }

  /** A cross-game entry can be less than the one game entry it is made of: the board is made anew by a late
      score that raises an entry which was made later than the cross-game board and so outlived it. */
  lemma CrossGameFallsShort(p: Period, w: int, g: string, h: string, user: int) returns (start: State, s: State)
    requires p != AllTime && Start(p, w) == w && w > ZERO_TIME && g in SLUGS && h in SLUGS && g != h
    ensures Init(start) && Reaches(start, s) && s.now == w + p.Ttl()
    ensures s.log == [Event(0, user, g, 1, w), Event(1, user, h, 1, w), Event(2, user, h, 2, w)] && s.projected == {0, 1, 2}
    ensures Scores(s.db, Board(Scope(h), p, w)) == map[user := 2]
    ensures Scores(s.db, Board(GLOBAL, p, w)) == map[user := 1]
  {
    start, s := ShortRun(p, w, Event(0, user, g, 1, w), Event(1, user, h, 1, w), Event(2, user, h, 2, w));
  }
}
