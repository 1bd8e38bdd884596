/** The life of a game session: active, then finished with exactly one score, or abandoned with none. */
module Session {
  import opened Wrappers
  import opened Keys
  import Games
  import Reaction
  import WordScramble
  import opened Engine

  datatype Status = Active | Finished | Abandoned

  /** One row of game_sessions. */
  datatype Row = Row(user: int, game: Game, seed: int, state: Engine.State, status: Status, moves: int, startedAt: int)

  /** One row of score_events; the table holds at most one per session. */
  datatype Score = Score(user: int, game: Game, raw: real, points: int, achievedAt: int)

  datatype Error = NoSuchGame | NotFound | AlreadyEnded | Rejected(reason: Games.Error) | Failed

  /** Both tables and, for every session, the moves accepted so far and when they came. */
  datatype Tables = Tables(now: int, sessions: map<int, Row>, scores: map<int, Score>, accepted: map<int, seq<(Move, int)>>)

  datatype Step =
    | Tick(to: int)
    | Open(user: int, game: Game, seed: int, id: int)
    | Play(user: int, id: int, move: Move)
    | Finish(user: int, id: int)
    | AbandonStale(before: int)
    | Fault

  // ------------------------------------------------------------------------------ what each step does

  /** Every active session of a user in a game is closed. */
  function Closed(sessions: map<int, Row>, user: int, game: Game): map<int, Row> {
    map id | id in sessions ::
      if sessions[id].status == Active && sessions[id].user == user && sessions[id].game == game
      then sessions[id].(status := Abandoned) else sessions[id]
  }

  function Stale(sessions: map<int, Row>, before: int): map<int, Row> {
    map id | id in sessions ::
      if sessions[id].status == Active && sessions[id].startedAt < before
      then sessions[id].(status := Abandoned) else sessions[id]
  }

  function Opened(env: Env, t: Tables, user: int, game: Game, seed: int, id: int): Tables {
    t.(sessions := Closed(t.sessions, user, game)[id := Row(user, game, seed, Start(env, game, seed, t.now), Active, 0, t.now)],
       accepted := t.accepted[id := []])
  }

  function ScoreOf(row: Row, now: int): Score {
    Score(row.user, row.game, Raw(row.state), Points(row.game, Raw(row.state)), now)
  }

  /** Marks a session finished and writes its score. */
  function Settled(t: Tables, id: int): Tables
    requires id in t.sessions
  {
    t.(sessions := t.sessions[id := t.sessions[id].(status := Finished)],
       scores := t.scores[id := ScoreOf(t.sessions[id], t.now)])
  }

  function Moved(t: Tables, id: int, move: Move, state: Engine.State): Tables
    requires id in t.sessions && id in t.accepted
  {
    var row := t.sessions[id];
    t.(sessions := t.sessions[id := row.(state := state, moves := row.moves + 1)],
       accepted := t.accepted[id := t.accepted[id] + [(move, t.now)]])
  }

  predicate Playable(t: Tables, user: int, id: int) {
    id in t.sessions && t.sessions[id].user == user && t.sessions[id].status == Active
  }

  /** A move on an active session of the user's own, if the engine takes it. */
  ghost function Played(env: Env, t: Tables, user: int, id: int, move: Move): Tables {
    if !Playable(t, user, id) || !Decodable(env, t, id) then t
    else
      match Apply(env, t.sessions[id].state, move, t.now)
      case Err(_) => t
      case Ok((state, outcome)) =>
        if outcome.done then Settled(Moved(t, id, move, state), id) else Moved(t, id, move, state)
  }

  /** What a stored session always is: see Inv. */
  ghost predicate Decodable(env: Env, t: Tables, id: int)
    requires id in t.sessions
  {
    Valid(t.sessions[id].state) && WordScramble.WordList(env.words) && id in t.accepted
  }

  /** The engine turns a move down, and says why. */
  ghost predicate RejectedBy(env: Env, t: Tables, user: int, id: int, move: Move, reason: Games.Error) {
    Playable(t, user, id) && Decodable(env, t, id) && Apply(env, t.sessions[id].state, move, t.now) == Err(reason)
  }

  ghost predicate Next(env: Env, t: Tables, step: Step, u: Tables) {
    match step
    case Tick(to) => t.now <= to && u == t.(now := to)
    case Open(user, game, seed, id) => id !in t.sessions && u == Opened(env, t, user, game, seed, id)
    case Play(user, id, move) => u == Played(env, t, user, id, move)
    case Finish(user, id) => u == if Playable(t, user, id) then Settled(t, id) else t
    case AbandonStale(before) => u == t.(sessions := Stale(t.sessions, before))
    case Fault => u == t
  }

  // --------------------------------------------------------------------------- what every step keeps

  /** The engine run from the seed over a list of accepted moves. */
  ghost function Replayed(env: Env, game: Game, seed: int, start: int, moves: seq<(Move, int)>): Option<Engine.State>
    requires WordScramble.WordList(env.words)
  {
    if moves == [] then Some(Start(env, game, seed, start))
    else
      var n := |moves| - 1;
      match Replayed(env, game, seed, start, moves[..n])
      case None => None
      case Some(s) =>
        if !Valid(s) then None
        else
          match Apply(env, s, moves[n].0, moves[n].1)
          case Err(_) => None
          case Ok((t, _)) => Some(t)
  }

  ghost predicate RowHolds(env: Env, t: Tables, id: int)
    requires id in t.sessions && WordScramble.WordList(env.words)
  {
    var row := t.sessions[id];
    && Valid(row.state) && GameOf(row.state) == row.game
    && (row.status == Active ==> !Done(row.state))
    && (row.status == Finished <==> id in t.scores)
    && id in t.accepted && row.moves == |t.accepted[id]|
    && Replayed(env, row.game, row.seed, row.startedAt, t.accepted[id]) == Some(row.state)
    && (id in t.scores ==>
          t.scores[id] == ScoreOf(row, t.scores[id].achievedAt) && t.scores[id].achievedAt <= t.now)
  }

  ghost predicate OneActive(sessions: map<int, Row>) {
    forall i, j | i in sessions && j in sessions && sessions[i].status == Active && sessions[j].status == Active
                  && sessions[i].user == sessions[j].user && sessions[i].game == sessions[j].game :: i == j
  }

  ghost predicate Inv(env: Env, t: Tables) {
    && WordScramble.WordList(env.words)
    && (forall id | id in t.sessions :: RowHolds(env, t, id))
    && (forall id | id in t.scores :: id in t.sessions)
    && OneActive(t.sessions)
  }

  lemma OpenKeeps(env: Env, t: Tables, user: int, game: Game, seed: int, id: int)
    requires Inv(env, t) && id !in t.sessions
    ensures Inv(env, Opened(env, t, user, game, seed, id))
  {
    var u := Opened(env, t, user, game, seed, id);
    forall i | i in u.sessions
      ensures RowHolds(env, u, i)
    {
      if i == id {
        OpenedRow(env, t, user, game, seed, id);
      } else {
        OtherRow(env, t, user, game, seed, id, i);
      }
    }
    OpenedAlone(t, user, game, Row(user, game, seed, Engine.Start(env, game, seed, t.now), Active, 0, t.now), id);
  }

  lemma OtherRow(env: Env, t: Tables, user: int, game: Game, seed: int, id: int, i: int)
    requires Inv(env, t) && id !in t.sessions && i in t.sessions
    ensures RowHolds(env, Opened(env, t, user, game, seed, id), i)
  {
    assert RowHolds(env, t, i);
  }

  /** Closing what was open leaves the new session the only active one of its user and game. */
  lemma OpenedAlone(t: Tables, user: int, game: Game, row: Row, id: int)
    requires OneActive(t.sessions) && id !in t.sessions && row.user == user && row.game == game
    ensures OneActive(Closed(t.sessions, user, game)[id := row])
  {
  }

  lemma OpenedRow(env: Env, t: Tables, user: int, game: Game, seed: int, id: int)
    requires Inv(env, t) && id !in t.sessions
    ensures RowHolds(env, Opened(env, t, user, game, seed, id), id)
  {
    StartIsNothing(env, game, seed, t.now);
  }

  lemma SettleKeeps(env: Env, t: Tables, id: int)
    requires WordScramble.WordList(env.words)
    requires id in t.sessions && t.sessions[id].status == Active
    requires forall i | i in t.sessions && i != id :: RowHolds(env, t, i)
    requires forall i | i in t.scores :: i in t.sessions
    requires OneActive(t.sessions)
    requires var row := t.sessions[id];
             && Valid(row.state) && GameOf(row.state) == row.game
             && id in t.accepted && row.moves == |t.accepted[id]|
             && Replayed(env, row.game, row.seed, row.startedAt, t.accepted[id]) == Some(row.state)
    ensures Inv(env, Settled(t, id))
  {
    var u := Settled(t, id);
    forall i | i in u.sessions
      ensures RowHolds(env, u, i)
    {
      if i != id {
        assert RowHolds(env, t, i);
      }
    }
  }

  lemma MoveKeepsRows(env: Env, t: Tables, id: int, move: Move)
    requires Inv(env, t) && id in t.sessions && t.sessions[id].status == Active
    requires RowHolds(env, t, id) && Apply(env, t.sessions[id].state, move, t.now).Ok?
    ensures var (state, outcome) := Apply(env, t.sessions[id].state, move, t.now).value;
            var u := Moved(t, id, move, state);
            && (forall i | i in u.sessions && i != id :: RowHolds(env, u, i))
            && Valid(state) && GameOf(state) == t.sessions[id].game && (outcome.done <==> Done(state))
            && Replayed(env, t.sessions[id].game, t.sessions[id].seed, t.sessions[id].startedAt, u.accepted[id]) == Some(state)
            && OneActive(u.sessions)
  {
    var (state, outcome) := Apply(env, t.sessions[id].state, move, t.now).value;
    MoveKeeps(env, t.sessions[id].state, move, t.now);
    var u := Moved(t, id, move, state);
    var moves := u.accepted[id];
    assert moves[..|moves| - 1] == t.accepted[id];
    forall i | i in u.sessions && i != id
      ensures RowHolds(env, u, i)
    {
      assert RowHolds(env, t, i);
    }
  }

  lemma PlayKeeps(env: Env, t: Tables, user: int, id: int, move: Move)
    requires Inv(env, t)
    ensures Inv(env, Played(env, t, user, id, move))
  {
    if Playable(t, user, id) {
      assert RowHolds(env, t, id);
      if Apply(env, t.sessions[id].state, move, t.now).Ok? {
        var (state, outcome) := Apply(env, t.sessions[id].state, move, t.now).value;
        MoveKeepsRows(env, t, id, move);
        var u := Moved(t, id, move, state);
        if outcome.done {
          SettleKeeps(env, u, id);
        } else {
          assert RowHolds(env, u, id);
        }
      }
    }
  }

  lemma NextKeeps(env: Env, t: Tables, step: Step, u: Tables)
    requires Inv(env, t) && Next(env, t, step, u)
    ensures Inv(env, u)
  {
    match step
    case Tick(to) =>
      forall i | i in u.sessions ensures RowHolds(env, u, i) {
        assert RowHolds(env, t, i);
      }
    case Open(user, game, seed, id) => OpenKeeps(env, t, user, game, seed, id);
    case Play(user, id, move) => PlayKeeps(env, t, user, id, move);
    case Finish(user, id) =>
      if Playable(t, user, id) {
        assert RowHolds(env, t, id);
        SettleKeeps(env, t, id);
      }
    case AbandonStale(before) =>
      forall i | i in u.sessions ensures RowHolds(env, u, i) {
        assert RowHolds(env, t, i);
      }
    case Fault =>
  }

  /** A session that has ended stays as it is, score and all. */
  lemma EndedIsFinal(env: Env, t: Tables, step: Step, u: Tables, id: int)
    requires Inv(env, t) && Next(env, t, step, u)
    requires id in t.sessions && t.sessions[id].status != Active
    ensures id in u.sessions && u.sessions[id] == t.sessions[id]
    ensures id in u.scores <==> id in t.scores
    ensures id in t.scores ==> u.scores[id] == t.scores[id]
  {
  }

  ghost predicate Init(t: Tables) {
    t.sessions == map[] && t.scores == map[] && t.accepted == map[]
  }

  ghost predicate Path(env: Env, states: seq<Tables>, steps: seq<Step>) {
    && |states| == |steps| + 1
    && forall i | 0 <= i < |steps| :: Next(env, states[i], steps[i], states[i + 1])
  }

  lemma {:induction false} PathKeeps(env: Env, states: seq<Tables>, steps: seq<Step>)
    requires Path(env, states, steps) && Inv(env, states[0])
    ensures Inv(env, states[|steps|])
  {
    if steps != [] {
      var n := |steps| - 1;
      PathKeeps(env, states[..n + 1], steps[..n]);
      NextKeeps(env, states[n], steps[n], states[n + 1]);
    }
  }

  /** In every run: a session is finished exactly when it has a score, an active one is not done, a user
      has one active session of a game at most, and a stored score is what replaying the accepted moves
      from the seed through the engine earns, which is between 0 and 10000. */
  lemma RunsKeepScores(env: Env, states: seq<Tables>, steps: seq<Step>, id: int)
    requires WordScramble.WordList(env.words)
    requires Path(env, states, steps) && Init(states[0])
    requires id in states[|steps|].sessions
    ensures var t := states[|steps|];
            var row := t.sessions[id];
            && (row.status == Finished <==> id in t.scores)
            && (row.status == Active ==> !Done(row.state))
            && OneActive(t.sessions) && id in t.accepted
            && (id in t.scores ==>
                  var replay := Replayed(env, row.game, row.seed, row.startedAt, t.accepted[id]);
                  && replay.Some?
                  && t.scores[id].points == Points(row.game, Raw(replay.value))
                  && 0 <= t.scores[id].points <= Games.MAX_POINTS
                  && t.scores[id].user == row.user && SlugOf(t.scores[id].game) in SLUGS)
  {
    PathKeeps(env, states, steps);
    assert RowHolds(env, states[|steps|], id);
    PointsRange(states[|steps|].sessions[id].game, Raw(states[|steps|].sessions[id].state));
  }

  /** A score comes about when its session ends by being finished, by a request of its player's, and is worth what
      the session had come to at that moment. */
  lemma ScoresComeFromFinishing(env: Env, t: Tables, step: Step, u: Tables, id: int)
    requires Inv(env, t) && Next(env, t, step, u) && id !in t.scores && id in u.scores
    ensures (step.Play? || step.Finish?) && step.id == id
    ensures id in t.sessions && t.sessions[id].status == Active && t.sessions[id].user == step.user
    ensures id in u.sessions && u.sessions[id].status == Finished
    ensures var row := u.sessions[id];
            u.scores[id] == Score(row.user, row.game, Raw(row.state), Points(row.game, Raw(row.state)), t.now)
  {
  }

  // ------------------------------------------------------------------------------ whose sessions change

  /** One session has come in, and of those before only the active ones of that user and that game have
      changed, by having been abandoned. */
  predicate OneOpened(before: map<int, Row>, after: map<int, Row>, user: int, game: Game, id: int) {
    && id !in before && after.Keys == before.Keys + {id}
    && forall i | i in before ::
         if before[i].status == Active && before[i].user == user && before[i].game == game
         then after[i] == before[i].(status := Abandoned) else after[i] == before[i]
  }

  lemma OpeningTouchesOwn(sessions: map<int, Row>, user: int, game: Game, row: Row, id: int)
    requires id !in sessions
    ensures OneOpened(sessions, Closed(sessions, user, game)[id := row], user, game, id)
  {
  }

  /** Whom a step is a request of. */
  predicate Serves(step: Step, user: int) {
    match step
    case Open(u, _, _, _) => u == user
    case Play(u, _, _) => u == user
    case Finish(u, _) => u == user
    case _ => false
  }

  /** A user's sessions, scores and accepted moves are the same in both. */
  ghost predicate SameFor(t: Tables, u: Tables, user: int) {
    forall id | id in t.sessions || id in u.sessions :: SameSession(t, u, user, id)
  }

  predicate SameSession(t: Tables, u: Tables, user: int, id: int) {
    && (id in t.sessions && t.sessions[id].user == user <==> id in u.sessions && u.sessions[id].user == user)
    && (id in t.sessions && t.sessions[id].user == user ==>
          && u.sessions[id] == t.sessions[id]
          && (id in t.scores <==> id in u.scores) && (id in t.scores ==> u.scores[id] == t.scores[id])
          && (id in t.accepted <==> id in u.accepted) && (id in t.accepted ==> u.accepted[id] == t.accepted[id]))
  }

  lemma OtherStepsLeaveAlone(env: Env, t: Tables, step: Step, u: Tables, user: int, id: int)
    requires Next(env, t, step, u) && !Serves(step, user) && !step.AbandonStale?
    ensures SameSession(t, u, user, id)
  {
  }

  /** Nobody's sessions are touched by what others do: as long as a user makes no request, and nothing is
      closed for having been left alone, all the user's sessions stay as they are, scores and moves and
      all. */
  lemma {:induction false} OthersLeaveSessionsAlone(env: Env, states: seq<Tables>, steps: seq<Step>, user: int)
    requires Path(env, states, steps)
    requires forall n {:trigger steps[n]} | 0 <= n < |steps| :: !Serves(steps[n], user) && !steps[n].AbandonStale?
    ensures SameFor(states[0], states[|steps|], user)
    decreases |steps|
  {
    if steps != [] {
      var n := |steps| - 1;
      OthersLeaveSessionsAlone(env, states[..n + 1], steps[..n], user);
      var s, t := states[n], states[n + 1];
      assert Next(env, s, steps[n], t);
      forall id | id in states[0].sessions || id in t.sessions ensures SameSession(states[0], t, user, id) {
        OtherStepsLeaveAlone(env, s, steps[n], t, user, id);
        if id in states[0].sessions || id in s.sessions {
          assert SameSession(states[0], s, user, id);
        }
      }
    }
  }

  // ------------------------------------------------------------------------------- quitting never pays

  /** A move that is a tap comes in time: see Reaction.TapPays. */
  predicate InTime(s: Engine.State, now: int) {
    s.Reacting? && s.reaction.goAt.Some? ==> Reaction.Charged(Reaction.Milliseconds(now - s.reaction.goAt.value)) <= 500
  }

  /** From the i-th on every move of a list that is a reaction tap comes in time. */
  ghost predicate TapsInTime(env: Env, game: Game, seed: int, start: int, moves: seq<(Move, int)>, i: nat)
    requires WordScramble.WordList(env.words)
  {
    forall k | i <= k < |moves| :: TapInTime(env, game, seed, start, moves, k)
  }

  ghost predicate TapInTime(env: Env, game: Game, seed: int, start: int, moves: seq<(Move, int)>, k: nat)
    requires WordScramble.WordList(env.words) && k < |moves|
  {
    Replayed(env, game, seed, start, moves[..k]).Some? ==>
      InTime(Replayed(env, game, seed, start, moves[..k]).value, moves[k].1)
  }

  lemma ReplayedStep(env: Env, game: Game, seed: int, start: int, moves: seq<(Move, int)>)
    requires WordScramble.WordList(env.words) && moves != []
    requires Replayed(env, game, seed, start, moves).Some?
    ensures var n := |moves| - 1;
            var before := Replayed(env, game, seed, start, moves[..n]);
            && before.Some? && Valid(before.value) && Apply(env, before.value, moves[n].0, moves[n].1).Ok?
            && Replayed(env, game, seed, start, moves).value == Apply(env, before.value, moves[n].0, moves[n].1).value.0
  {
  }

  lemma {:induction false} ReplayedIsOfGame(env: Env, game: Game, seed: int, start: int, moves: seq<(Move, int)>)
    requires WordScramble.WordList(env.words)
    requires Replayed(env, game, seed, start, moves).Some?
    ensures GameOf(Replayed(env, game, seed, start, moves).value) == game
    decreases |moves|
  {
    if moves == [] {
      StartIsNothing(env, game, seed, start);
    } else {
      var n := |moves| - 1;
      ReplayedStep(env, game, seed, start, moves);
      ReplayedIsOfGame(env, game, seed, start, moves[..n]);
      MoveKeeps(env, Replayed(env, game, seed, start, moves[..n]).value, moves[n].0, moves[n].1);
    }
  }

  /** What replaying a list of moves earns, nothing if one is not accepted. */
  ghost function Earned(env: Env, game: Game, seed: int, start: int, moves: seq<(Move, int)>): int
    requires WordScramble.WordList(env.words)
  {
    var replay := Replayed(env, game, seed, start, moves);
    if replay.Some? then Points(game, Raw(replay.value)) else 0
  }

  lemma LastNeverCosts(env: Env, game: Game, seed: int, start: int, moves: seq<(Move, int)>)
    requires WordScramble.WordList(env.words) && moves != []
    requires Replayed(env, game, seed, start, moves).Some? && TapInTime(env, game, seed, start, moves, |moves| - 1)
    ensures Replayed(env, game, seed, start, moves[..|moves| - 1]).Some?
    ensures Earned(env, game, seed, start, moves[..|moves| - 1]) <= Earned(env, game, seed, start, moves)
  {
    var n := |moves| - 1;
    ReplayedStep(env, game, seed, start, moves);
    ReplayedIsOfGame(env, game, seed, start, moves[..n]);
    PlayingOnNeverCosts(env, Replayed(env, game, seed, start, moves[..n]).value, moves[n].0, moves[n].1);
  }

  lemma FrontInTime(env: Env, game: Game, seed: int, start: int, moves: seq<(Move, int)>, i: nat)
    requires WordScramble.WordList(env.words) && i < |moves| && TapsInTime(env, game, seed, start, moves, i)
    ensures TapsInTime(env, game, seed, start, moves[..|moves| - 1], i)
  {
    var front := moves[..|moves| - 1];
    forall k | i <= k < |front| ensures TapInTime(env, game, seed, start, front, k) {
      assert TapInTime(env, game, seed, start, moves, k);
      assert front[..k] == moves[..k];
    }
  }

  /** Whoever plays on for any number of accepted moves ends with at least the points of quitting before,
      in every game, as long as no reaction tap among them is charged over half a second. */
  lemma {:induction false} QuittingNeverPays(env: Env, game: Game, seed: int, start: int, moves: seq<(Move, int)>, i: nat)
    requires WordScramble.WordList(env.words) && i <= |moves|
    requires Replayed(env, game, seed, start, moves).Some? && TapsInTime(env, game, seed, start, moves, i)
    ensures Replayed(env, game, seed, start, moves[..i]).Some?
    ensures Earned(env, game, seed, start, moves[..i]) <= Earned(env, game, seed, start, moves)
    decreases |moves|
  {
    if i == |moves| {
      assert moves[..i] == moves;
    } else {
      var front := moves[..|moves| - 1];
      assert TapInTime(env, game, seed, start, moves, |front|);
      LastNeverCosts(env, game, seed, start, moves);
      FrontInTime(env, game, seed, start, moves, i);
      QuittingNeverPays(env, game, seed, start, front, i);
      assert front[..i] == moves[..i];
    }
  }

  // ----------------------------------------------------------------------------------- the service

  class Service {
    const env: Env
    var now: int
    var sessions: map<int, Row>
    var scores: map<int, Score>
    ghost var accepted: map<int, seq<(Move, int)>>

    constructor (env: Env, now: int)
      requires WordScramble.WordList(env.words)
      ensures this.env == env && this.now == now && Init(Store()) && Inv(env, Store())
    {
      this.env, this.now := env, now;
      sessions, scores, accepted := map[], map[], map[];
    }

    ghost function Store(): Tables
      reads this
    {
      Tables(now, sessions, scores, accepted)
    }

    /** Opens a session and closes any the user had open for the same game. */
    method Open(user: int, slug: string, seed: int, id: int, fails: bool) returns (r: Result<Row, Error>)
      requires Inv(env, Store()) && id !in sessions
      modifies this
      ensures Inv(env, Store())
      ensures r.Ok? <==> slug in SLUGS && !fails
      ensures r.Ok? ==>
                && SlugOf(r.value.game) == slug && id in sessions && r.value == sessions[id]
                && Next(env, old(Store()), Step.Open(user, r.value.game, seed, id), Store())
                && OneOpened(old(sessions), sessions, user, r.value.game, id)
                && r.value == Row(user, r.value.game, seed, Engine.Start(env, r.value.game, seed, now), Active, 0, now)
      ensures r.Err? ==> Store() == old(Store()) && r.error == if slug in SLUGS then Failed else NoSuchGame
    {
      var game := Lookup(slug);
      if game.None? {
        return Err(NoSuchGame);
      }
      if fails {
        return Err(Failed);
      }
      var row := Insert(user, game.value, seed, id);
      return Ok(row);
    }

    /** The transaction: what was open is closed, and a fresh session goes in. */
    method Insert(user: int, game: Game, seed: int, id: int) returns (row: Row)
      requires Inv(env, Store()) && id !in sessions
      modifies this`sessions, this`accepted
      ensures Inv(env, Store()) && Next(env, old(Store()), Step.Open(user, game, seed, id), Store())
      ensures OneOpened(old(sessions), sessions, user, game, id) && sessions[id] == row
      ensures row == Row(user, game, seed, Engine.Start(env, game, seed, now), Active, 0, now)
    {
      row := Row(user, game, seed, Engine.Start(env, game, seed, now), Active, 0, now);
      OpenKeeps(env, Store(), user, game, seed, id);
      OpeningTouchesOwn(sessions, user, game, row, id);
      sessions := Closed(sessions, user, game)[id := row];
      accepted := accepted[id := []];
    }

    method Lookup(slug: string) returns (game: Option<Game>)
      ensures game.Some? <==> slug in SLUGS
      ensures game.Some? ==> SlugOf(game.value) == slug
    {
      if slug == SLUGS[0] { return Some(OfReaction); }
      if slug == SLUGS[1] { return Some(OfMathSprint); }
      if slug == SLUGS[2] { return Some(OfMemory); }
      if slug == SLUGS[3] { return Some(OfWordScramble); }
      if slug == SLUGS[4] { return Some(OfNumberGuess); }
      return None;
    }

    /** Applies one move; a move that ends the game settles it in the same transaction. */
    method Play(user: int, id: int, move: Move, fails: bool) returns (r: Result<Option<Score>, Error>)
      requires Inv(env, Store())
      modifies this
      ensures Inv(env, Store())
      ensures Next(env, old(Store()), if r == Err(Failed) then Fault else Step.Play(user, id, move), Store())
      ensures r == Err(Failed) ==> fails
      ensures r == Err(NotFound) <==> id !in old(sessions) || old(sessions)[id].user != user
      ensures r == Err(AlreadyEnded) <==> id in old(sessions) && old(sessions)[id].user == user && old(sessions)[id].status != Active
      ensures r.Ok? ==> r.value == (if id in scores then Some(scores[id]) else None)
      ensures r != Err(NoSuchGame) && forall e :: r == Err(Rejected(e)) <==> RejectedBy(env, old(Store()), user, id, move, e)
    {
      if id !in sessions || sessions[id].user != user {
        return Err(NotFound);
      }
      var row := sessions[id];
      if row.status != Active {
        return Err(AlreadyEnded);
      }
      assert RowHolds(env, Store(), id);
      var result := Apply(env, row.state, move, now);
      if result.Err? {
        return Err(Rejected(result.error));
      }
      if fails {
        return Err(Failed);
      }
      PlayKeeps(env, Store(), user, id, move);
      var ended := Save(id, move, result.value.0, result.value.1.done);
      return Ok(ended);
    }

    /** Stores the state a move led to, and settles the session if the game is over. */
    method Save(id: int, move: Move, state: Engine.State, done: bool) returns (ended: Option<Score>)
      requires id in sessions && sessions[id].status == Active && id !in scores && id in accepted
      modifies this`sessions, this`scores, this`accepted
      ensures var moved := Moved(old(Store()), id, move, state);
              Store() == if done then Settled(moved, id) else moved
      ensures ended == if done then Some(ScoreOf(old(sessions)[id].(state := state), now)) else None
      ensures done ==> id in scores && scores[id] == ended.value
      ensures !done ==> scores == old(scores)
    {
      var row := sessions[id];
      sessions := sessions[id := row.(state := state, moves := row.moves + 1)];
      accepted := accepted[id := accepted[id] + [(move, now)]];
      if done {
        var score := Settle(id);
        return Some(score);
      }
      return None;
    }

    /** Marks an active session finished and writes its score; there is none yet. */
    method Settle(id: int) returns (score: Score)
      requires id in sessions && sessions[id].status == Active && id !in scores
      modifies this`sessions, this`scores
      ensures Store() == Settled(old(Store()), id) && id in scores && score == scores[id]
    {
      var row := sessions[id];
      var raw := Raw(row.state);
      sessions := sessions[id := row.(status := Finished)];
      score := Score(row.user, row.game, raw, Points(row.game, raw), now);
      scores := scores[id := score];
    }

    /** Ends a session and records its score; asked again, answers with the score already there. */
    method Finish(user: int, id: int, fails: bool) returns (r: Result<Score, Error>)
      requires Inv(env, Store())
      modifies this
      ensures Inv(env, Store())
      ensures Next(env, old(Store()), if r == Err(Failed) then Fault else Step.Finish(user, id), Store())
      ensures r == Err(Failed) ==> fails
      ensures r == Err(NotFound) <==> id !in old(sessions) || old(sessions)[id].user != user
      ensures r == Err(AlreadyEnded) <==> id in old(sessions) && old(sessions)[id].user == user && old(sessions)[id].status == Abandoned
      ensures r.Err? ==> r.error == NotFound || r.error == AlreadyEnded || r.error == Failed
      ensures r.Ok? ==> id in scores && r.value == scores[id] && (id in old(scores) ==> r.value == old(scores)[id])
    {
      if id !in sessions || sessions[id].user != user {
        return Err(NotFound);
      }
      assert RowHolds(env, Store(), id);
      if sessions[id].status != Active {
        if id !in scores {
          return Err(AlreadyEnded);
        }
        return Ok(scores[id]);
      }
      if fails {
        return Err(Failed);
      }
      SettleKeeps(env, Store(), id);
      var score := Settle(id);
      return Ok(score);
    }

    /** Closes what nobody has touched for too long, and says how many that were. */
    method AbandonStaleSessions(before: int) returns (closed: nat)
      requires Inv(env, Store())
      modifies this`sessions
      ensures Inv(env, Store()) && Next(env, old(Store()), AbandonStale(before), Store())
      ensures sessions.Keys == old(sessions).Keys
      ensures forall id | id in sessions ::
                sessions[id] == if old(sessions)[id].status == Active && old(sessions)[id].startedAt < before
                                then old(sessions)[id].(status := Abandoned) else old(sessions)[id]
      ensures closed == |set id | id in old(sessions) && old(sessions)[id].status == Active && old(sessions)[id].startedAt < before|
    {
      ghost var was := Store();
      closed := |set id | id in sessions && sessions[id].status == Active && sessions[id].startedAt < before|;
      sessions := Stale(sessions, before);
      NextKeeps(env, was, AbandonStale(before), Store());
    }
  }
}
