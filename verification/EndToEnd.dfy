/** From a move in a game to a place on a board: the sessions and the delivery of their scores, as one
    machine. The transaction that writes a session's score is the step that records it for delivery. */
module EndToEnd {
  import opened Sets
  import opened Windows
  import opened Keys
  import opened Redis
  import opened Aggregate
  import opened Refinement
  import opened Engine
  import WordScramble
  import Session
  import Delivery

  /** The sources tell which session each recorded score is of. */
  datatype System = System(tables: Session.Tables, boards: Delivery.State, sources: seq<int>)

  datatype Step = Tick(to: int) | Serve(request: Session.Step) | Deliver(delivery: Delivery.Step)

  /** A request has ended a session with a score. */
  predicate Scored(t: Session.Tables, request: Session.Step, u: Session.Tables) {
    (request.Play? || request.Finish?) && request.id in u.scores && request.id !in t.scores
  }

  ghost predicate Next(env: Env, s: System, step: Step, t: System) {
    match step
    case Tick(to) =>
      && Session.Next(env, s.tables, Session.Step.Tick(to), t.tables)
      && Delivery.Next(s.boards, Delivery.Step.Tick(to), t.boards)
      && t.sources == s.sources
    case Serve(request) =>
      && !request.Tick? && Session.Next(env, s.tables, request, t.tables)
      && if Scored(s.tables, request, t.tables) then
           var score := t.tables.scores[request.id];
           && Delivery.Next(s.boards, Delivery.Step.Record(score.user, SlugOf(score.game), score.points), t.boards)
           && t.sources == s.sources + [request.id]
         else t.boards == s.boards && t.sources == s.sources
    case Deliver(delivery) =>
      && (delivery.Publish? || delivery.Mark? || delivery.Fault?)
      && Delivery.Next(s.boards, delivery, t.boards) && t.tables == s.tables && t.sources == s.sources
  }

  ghost predicate Init(s: System) {
    Session.Init(s.tables) && Delivery.Init(s.boards) && s.tables.now == s.boards.now && s.sources == []
  }

  ghost predicate Path(env: Env, states: seq<System>, steps: seq<Step>) {
    && |states| == |steps| + 1
    && forall i | 0 <= i < |steps| :: Next(env, states[i], steps[i], states[i + 1])
  }

  /** An entry of the log is the score of its session. */
  predicate Records(e: Event, id: int, scores: map<int, Session.Score>) {
    && id in scores
    && e.user == scores[id].user && e.game == SlugOf(scores[id].game)
    && e.points == scores[id].points && e.at == scores[id].achievedAt
  }

  /** Every session with a score is in the log, once. */
  ghost predicate Linked(log: seq<Event>, sources: seq<int>, scores: map<int, Session.Score>) {
    && |sources| == |log|
    && (forall i | 0 <= i < |log| :: Records(log[i], sources[i], scores))
    && (forall id | id in scores :: id in sources)
    && (forall i, j | 0 <= i < j < |sources| :: sources[i] != sources[j])
  }

  ghost predicate Inv(env: Env, s: System) {
    && Session.Inv(env, s.tables) && Delivery.Inv(s.boards) && s.tables.now == s.boards.now
    && Linked(s.boards.log, s.sources, s.tables.scores)
  }

  /** A request makes one score at most, of the session it names and at the time it is served. */
  lemma RequestScores(env: Env, t: Session.Tables, request: Session.Step, u: Session.Tables)
    requires Session.Inv(env, t) && Session.Next(env, t, request, u) && !request.Tick?
    ensures u.now == t.now
    ensures if Scored(t, request, u) then
              u.scores == t.scores[request.id := u.scores[request.id]] && u.scores[request.id].achievedAt == t.now
            else u.scores == t.scores
  {
    if (request.Play? || request.Finish?) && Session.Playable(t, request.user, request.id) {
      assert Session.RowHolds(env, t, request.id);
    }
  }

  /** And it is one that the log takes. */
  lemma ScoreCanBeRecorded(env: Env, t: Session.Tables, request: Session.Step, u: Session.Tables)
    requires Session.Inv(env, t) && Session.Next(env, t, request, u) && Scored(t, request, u)
    ensures SlugOf(u.scores[request.id].game) in SLUGS && 0 <= u.scores[request.id].points <= MAX_POINTS
  {
    Session.NextKeeps(env, t, request, u);
    assert request.id in u.sessions;
    assert Session.RowHolds(env, u, request.id);
    PointsRange(u.sessions[request.id].game, Raw(u.sessions[request.id].state));
  }

  lemma LinkedGrows(log: seq<Event>, sources: seq<int>, scores: map<int, Session.Score>, e: Event, id: int, score: Session.Score)
    requires Linked(log, sources, scores) && id !in scores
    requires Records(e, id, scores[id := score])
    ensures Linked(log + [e], sources + [id], scores[id := score])
  {
    var more, ids, all := log + [e], sources + [id], scores[id := score];
    forall i | 0 <= i < |more| ensures Records(more[i], ids[i], all) {
      if i < |log| {
        assert Records(log[i], sources[i], scores);
      }
    }
    forall i, j | 0 <= i < j < |ids| ensures ids[i] != ids[j] {
      assert Records(log[i], sources[i], scores);
    }
  }

  lemma ServeKeeps(env: Env, s: System, request: Session.Step, t: System)
    requires Inv(env, s) && Next(env, s, Serve(request), t)
    ensures Inv(env, t)
  {
    Session.NextKeeps(env, s.tables, request, t.tables);
    RequestScores(env, s.tables, request, t.tables);
    if Scored(s.tables, request, t.tables) {
      var score := t.tables.scores[request.id];
      Delivery.NextKeeps(s.boards, Delivery.Step.Record(score.user, SlugOf(score.game), score.points), t.boards);
      var e := Event(|s.boards.log|, score.user, SlugOf(score.game), score.points, s.boards.now);
      LinkedGrows(s.boards.log, s.sources, s.tables.scores, e, request.id, score);
    }
  }

  lemma NextKeeps(env: Env, s: System, step: Step, t: System)
    requires Inv(env, s) && Next(env, s, step, t)
    ensures Inv(env, t)
  {
    match step
    case Tick(to) =>
      Session.NextKeeps(env, s.tables, Session.Step.Tick(to), t.tables);
      Delivery.NextKeeps(s.boards, Delivery.Step.Tick(to), t.boards);
    case Serve(request) => ServeKeeps(env, s, request, t);
    case Deliver(delivery) => Delivery.NextKeeps(s.boards, delivery, t.boards);
  }

  lemma {:induction false} PathKeeps(env: Env, states: seq<System>, steps: seq<Step>)
    requires WordScramble.WordList(env.words)
    requires Path(env, states, steps) && Init(states[0])
    ensures Inv(env, states[|steps|])
  {
    if steps == [] {
      Delivery.InitInv(states[0].boards);
    } else {
      var n := |steps| - 1;
      PathKeeps(env, states[..n + 1], steps[..n]);
      NextKeeps(env, states[n], steps[n], states[n + 1]);
    }
  }

  /** A finished session that counts for a window of a game. */
  predicate Counts(t: Session.Tables, id: int, user: int, game: Game, p: Period, w: int) {
    && id in t.sessions && t.sessions[id].status == Session.Finished
    && t.sessions[id].user == user && t.sessions[id].game == game
    && id in t.scores && Windows.Start(p, t.scores[id].achievedAt) == w
  }

  /** The points that replaying a session's accepted moves from its seed earns. */
  ghost function ReplayedPoints(env: Env, t: Session.Tables, id: int): int
    requires WordScramble.WordList(env.words) && id in t.sessions && id in t.accepted
  {
    var row := t.sessions[id];
    match Session.Replayed(env, row.game, row.seed, row.startedAt, t.accepted[id])
    case None => 0
    case Some(state) => Engine.Points(row.game, Raw(state))
  }

  lemma ScoreIsReplay(env: Env, t: Session.Tables, id: int)
    requires Session.Inv(env, t) && id in t.scores
    ensures id in t.sessions && id in t.accepted && t.sessions[id].status == Session.Finished
    ensures t.scores[id].user == t.sessions[id].user && t.scores[id].game == t.sessions[id].game
    ensures t.scores[id].points == ReplayedPoints(env, t, id)
  {
    assert Session.RowHolds(env, t, id);
  }

  lemma SlugsNameGames(g: Game, h: Game)
    ensures SlugOf(g) == SlugOf(h) <==> g == h
  {
    SlugsDistinct();
  }

  lemma EventHasSession(env: Env, s: System, i: nat, game: Game, p: Period)
    requires Inv(env, s) && i < |s.boards.log| && s.boards.log[i].game == SlugOf(game)
    ensures i < |s.sources|
    ensures var e := s.boards.log[i];
            && Counts(s.tables, s.sources[i], e.user, game, p, Windows.Start(p, e.at))
            && s.tables.scores[s.sources[i]].points == e.points
  {
    assert Records(s.boards.log[i], s.sources[i], s.tables.scores);
    ScoreIsReplay(env, s.tables, s.sources[i]);
    SlugsNameGames(s.tables.scores[s.sources[i]].game, game);
  }

  lemma SessionHasEvent(env: Env, s: System, id: int, user: int, game: Game, p: Period, w: int) returns (e: Event)
    requires Inv(env, s) && Counts(s.tables, id, user, game, p, w)
    ensures e in InWindow(EventsOf(s.boards.log), p, w)
    ensures e.game == SlugOf(game) && e.user == user && e.points == s.tables.scores[id].points
  {
    ScoreIsReplay(env, s.tables, id);
    var i :| 0 <= i < |s.sources| && s.sources[i] == id;
    e := s.boards.log[i];
    assert Records(e, id, s.tables.scores);
  }

  /** The log's points of a player in a game and window are those of the finished sessions that count. */
  lemma PointsAreReplays(env: Env, s: System, user: int, game: Game, p: Period, w: int, x: int)
    requires Inv(env, s)
    ensures x in Aggregate.Points(InWindow(EventsOf(s.boards.log), p, w), SlugOf(game), user) <==>
            exists id :: Counts(s.tables, id, user, game, p, w) && s.tables.scores[id].points == x
  {
    if x in Aggregate.Points(InWindow(EventsOf(s.boards.log), p, w), SlugOf(game), user) {
      var id := SessionOfPoints(env, s, user, game, p, w, x);
    }
    if id :| Counts(s.tables, id, user, game, p, w) && s.tables.scores[id].points == x {
      var e := SessionHasEvent(env, s, id, user, game, p, w);
      EventHasPoints(InWindow(EventsOf(s.boards.log), p, w), e);
    }
  }

  lemma SessionOfPoints(env: Env, s: System, user: int, game: Game, p: Period, w: int, x: int) returns (id: int)
    requires Inv(env, s) && x in Aggregate.Points(InWindow(EventsOf(s.boards.log), p, w), SlugOf(game), user)
    ensures Counts(s.tables, id, user, game, p, w) && s.tables.scores[id].points == x
  {
    var i := IndexOfPoints(s.boards.log, SlugOf(game), user, p, w, x);
    EventHasSession(env, s, i, game, p);
    id := s.sources[i];
  }

  lemma IndexOfPoints(log: seq<Event>, slug: string, user: int, p: Period, w: int, x: int) returns (i: nat)
    requires x in Aggregate.Points(InWindow(EventsOf(log), p, w), slug, user)
    ensures i < |log| && log[i].game == slug && log[i].user == user && log[i].points == x && Windows.Start(p, log[i].at) == w
  {
    var e :| e in InWindow(EventsOf(log), p, w) && e.game == slug && e.user == user && e.points == x;
    i :| 0 <= i < |log| && log[i] == e;
  }

  lemma EventHasPoints(events: set<Event>, e: Event)
    requires e in events
    ensures e.points in Aggregate.Points(events, e.game, e.user)
  {
  }

  /** A board shows a player exactly if some finished session counts for it, and then the best points that
      replaying such a session's accepted moves from its seed earns. */
  ghost predicate ShowsBestReplay(env: Env, t: Session.Tables, board: map<int, int>, user: int, game: Game, p: Period, w: int)
    requires WordScramble.WordList(env.words)
  {
    && (user in board ==> exists id :: Replays(env, t, id, user, game, p, w, board[user]))
    && forall id | Counts(t, id, user, game, p, w) ::
         user in board && id in t.accepted && ReplayedPoints(env, t, id) <= board[user]
  }

  ghost predicate Replays(env: Env, t: Session.Tables, id: int, user: int, game: Game, p: Period, w: int, points: int)
    requires WordScramble.WordList(env.words)
  {
    Counts(t, id, user, game, p, w) && id in t.accepted && points == ReplayedPoints(env, t, id)
  }

  lemma EntryIsBest(s: Delivery.State, user: int, slug: string, p: Period, w: int)
    requires Delivery.Inv(s) && Kept(p, w, s.now) && slug in SLUGS && forall e | e in s.log :: e.id in s.projected
    ensures var board := Scores(s.db, Board(Scope(slug), p, w));
            var points := Aggregate.Points(InWindow(EventsOf(s.log), p, w), slug, user);
            (user in board <==> points != {}) && (user in board ==> IsMax(points, board[user]))
  {
    NothingPending(s);
    var events := InWindow(EventsOf(s.log), p, w);
    assert Matches(s.db, p, w, InWindow(s.published, p, w));
    assert Scores(s.db, Board(Scope(slug), p, w)) == GameBoard(events, slug);
    PlayersHavePoints(events, slug, user);
  }

  ghost predicate Delivered(s: System, p: Period, w: int) {
    Kept(p, w, s.boards.now) && forall e | e in s.boards.log :: e.id in s.boards.projected
  }

  lemma EveryReplayIsShown(env: Env, s: System, id: int, user: int, game: Game, p: Period, w: int)
    requires Inv(env, s) && Delivered(s, p, w) && Counts(s.tables, id, user, game, p, w)
    ensures var board := Scores(s.boards.db, Board(Scope(SlugOf(game)), p, w));
            user in board && id in s.tables.accepted && ReplayedPoints(env, s.tables, id) <= board[user]
  {
    EntryIsBest(s.boards, user, SlugOf(game), p, w);
    PointsAreReplays(env, s, user, game, p, w, s.tables.scores[id].points);
    ScoreIsReplay(env, s.tables, id);
  }

  lemma EntryIsReplay(env: Env, s: System, user: int, game: Game, p: Period, w: int) returns (id: int)
    requires Inv(env, s) && Delivered(s, p, w) && user in Scores(s.boards.db, Board(Scope(SlugOf(game)), p, w))
    ensures Replays(env, s.tables, id, user, game, p, w, Scores(s.boards.db, Board(Scope(SlugOf(game)), p, w))[user])
  {
    var points := Scores(s.boards.db, Board(Scope(SlugOf(game)), p, w))[user];
    EntryIsBest(s.boards, user, SlugOf(game), p, w);
    id := SessionOfPoints(env, s, user, game, p, w, points);
    ScoreIsReplay(env, s.tables, id);
  }

  lemma ShownWhenDelivered(env: Env, s: System, user: int, game: Game, p: Period, w: int)
    requires Inv(env, s) && Delivered(s, p, w)
    ensures ShowsBestReplay(env, s.tables, Scores(s.boards.db, Board(Scope(SlugOf(game)), p, w)), user, game, p, w)
  {
    forall id | Counts(s.tables, id, user, game, p, w)
      ensures var board := Scores(s.boards.db, Board(Scope(SlugOf(game)), p, w));
              user in board && id in s.tables.accepted && ReplayedPoints(env, s.tables, id) <= board[user]
    {
      EveryReplayIsShown(env, s, id, user, game, p, w);
    }
    if user in Scores(s.boards.db, Board(Scope(SlugOf(game)), p, w)) {
      var id := EntryIsReplay(env, s, user, game, p, w);
    }
  }

  /** In every run of the two together: once nothing is pending, a game's board of any window still kept
      shows just that. */
  lemma BoardShowsBestReplay(env: Env, states: seq<System>, steps: seq<Step>, user: int, game: Game, p: Period, w: int)
    requires WordScramble.WordList(env.words)
    requires Path(env, states, steps) && Init(states[0])
    requires Delivered(states[|steps|], p, w)
    ensures var s := states[|steps|];
            ShowsBestReplay(env, s.tables, Scores(s.boards.db, Board(Scope(SlugOf(game)), p, w)), user, game, p, w)
  {
    PathKeeps(env, states, steps);
    ShownWhenDelivered(env, states[|steps|], user, game, p, w);
  }

  lemma NothingPending(s: Delivery.State)
    requires Delivery.Inv(s) && forall e | e in s.log :: e.id in s.projected
    ensures s.published == EventsOf(s.log)
  {
    forall e | e in s.log ensures e in s.published {
      var i :| 0 <= i < |s.log| && s.log[i] == e;
      assert s.log[i].id == i;
    }
  }

  lemma SumOfBoards(s: Delivery.State, user: int, p: Period, w: int)
    requires Delivery.Inv(s) && Kept(p, w, s.now)
    ensures var global := Scores(s.db, Board(GLOBAL, p, w));
            && (user in global <==> exists g :: g in SLUGS && user in Scores(s.db, Board(Scope(g), p, w)))
            && (user in global ==> global[user] == EntrySum(s.db, SLUGS, p, w, user) && 0 <= global[user] <= 50_000)
  {
    var events := InWindow(s.published, p, w);
    forall e | e in events ensures ValidEvent(e) {
      assert e in EventsOf(s.log);
      var i :| 0 <= i < |s.log| && s.log[i] == e;
      assert ValidEvent(s.log[i]);
    }
    assert Matches(s.db, p, w, events);
    Conservation(s.db, p, w, events, user);
  }

  /** At every point of every run, with scores pending or not, the cross-game board of a window still kept
      shows whoever is on a game's board, with the sum. */
  lemma GlobalShowsSum(env: Env, states: seq<System>, steps: seq<Step>, user: int, p: Period, w: int)
    requires WordScramble.WordList(env.words)
    requires Path(env, states, steps) && Init(states[0])
    requires Kept(p, w, states[|steps|].boards.now)
    ensures var db := states[|steps|].boards.db;
            var global := Scores(db, Board(GLOBAL, p, w));
            && (user in global <==> exists g :: g in SLUGS && user in Scores(db, Board(Scope(g), p, w)))
            && (user in global ==> global[user] == EntrySum(db, SLUGS, p, w, user) && 0 <= global[user] <= 50_000)
  {
    PathKeeps(env, states, steps);
    SumOfBoards(states[|steps|].boards, user, p, w);
  }
}
