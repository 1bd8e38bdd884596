/** Delivering recorded scores to the boards at least once.

    A score is recorded first and published after. Publishing may fail, may take effect without the
    caller hearing of it, and may be followed by a crash before the score is marked as projected, so
    any recorded score may be published any number of times, in any order, by several processes. */
module Delivery {
  import opened Wrappers
  import opened Windows
  import opened Keys
  import opened Redis
  import opened Aggregate
  import opened Submit
  import opened Refinement

  /** Both stores, and two things only the past knows: which marks a caller is entitled to make, and
      which events have reached the boards. */
  datatype State = State(now: int, db: Db, log: seq<Event>, projected: set<int>, heard: set<int>, published: set<Event>)

  datatype Step =
    | Tick(to: int)
    | Record(user: int, game: string, points: int)
    | Publish(id: int, answered: bool)
    | Mark(id: int)
    | Fault

  ghost predicate Init(s: State) {
    s.now > ZERO_TIME && s.db == map[] && s.log == [] && s.projected == {} && s.heard == {} && s.published == {}
  }

  ghost predicate Next(s: State, step: Step, t: State) {
    match step
    case Tick(to) => s.now <= to && t == s.(now := to, db := Surviving(s.db, to))
    case Record(user, game, points) =>
      && game in SLUGS && 0 <= points <= MAX_POINTS
      && t == s.(log := s.log + [Event(|s.log|, user, game, points, s.now)])
    case Publish(id, answered) =>
      && 0 <= id < |s.log|
      && (var e := s.log[id];
          && Submitted(s.db, t.db, s.now, e.user, e.game, e.points, e.at)
          && t == s.(db := t.db, published := s.published + {e}, heard := if answered then s.heard + {id} else s.heard))
    case Mark(id) => id in s.heard && t == s.(projected := s.projected + {id})
    case Fault => t == s
  }

  /** A path of steps from one state to another. */
  ghost predicate Path(states: seq<State>, steps: seq<Step>) {
    && |states| == |steps| + 1
    && forall i | 0 <= i < |steps| :: Next(states[i], steps[i], states[i + 1])
  }

  ghost predicate Joins(states: seq<State>, steps: seq<Step>, s: State, t: State) {
    Path(states, steps) && states[0] == s && states[|steps|] == t
  }

  ghost predicate Reaches(s: State, t: State) {
    exists states: seq<State>, steps: seq<Step> :: Joins(states, steps, s, t)
  }

  function Recorded(s: State): set<Event> {
    EventsOf(s.log)
  }

  /** The events marked as projected. */
  function Marked(s: State): set<Event> {
    set e | e in s.log && e.id in s.projected
  }

  ghost predicate ValidLog(log: seq<Event>, now: int) {
    forall i | 0 <= i < |log| :: log[i].id == i && ValidEvent(log[i]) && log[i].at <= now
  }

  ghost predicate BoardsHold(db: Db, now: int, events: set<Event>) {
    forall p: Period, w: int | Kept(p, w, now) :: Matches(db, p, w, InWindow(events, p, w))
  }

  ghost predicate Inv(s: State) {
    && s.now > ZERO_TIME
    && ValidLog(s.log, s.now)
    && s.published <= Recorded(s)
    && (forall id | id in s.heard :: 0 <= id < |s.log| && s.log[id] in s.published)
    && s.projected <= s.heard
    && Timely(s.db)
    && BoardsHold(s.db, s.now, s.published)
  }

  lemma EmptyBoardsMatch(p: Period, w: int)
    ensures Matches(map[], p, w, {})
  {
    forall g | g in SLUGS
      ensures Scores(map[], Board(Scope(g), p, w)) == GameBoard({}, g)
    {
      assert Players({}, g) == {};
    }
    assert Everyone({}) == {};
  }

  lemma InitInv(s: State)
    requires Init(s)
    ensures Inv(s)
  {
    forall p: Period, w: int
      ensures Matches(s.db, p, w, InWindow(s.published, p, w))
    {
      EmptyBoardsMatch(p, w);
      assert InWindow({}, p, w) == {};
    }
  }

  lemma PublishKeeps(s: State, id: int, answered: bool, t: State)
    requires Inv(s) && Next(s, Publish(id, answered), t)
    ensures Inv(t)
  {
    var e := s.log[id];
    assert ValidEvent(e) && e.at <= s.now;
    forall k: Key ensures KeyTimely(t.db, k) {
      SubmitTimely(s.db, t.db, s.now, e, k);
    }
    forall p: Period, w: int | Kept(p, w, t.now)
      ensures Matches(t.db, p, w, InWindow(t.published, p, w))
    {
      SubmitRefines(s.db, t.db, s.now, p, w, s.published, e);
    }
  }

  lemma TickKeeps(s: State, to: int, t: State)
    requires Inv(s) && Next(s, Tick(to), t)
    ensures Inv(t)
  {
    forall p: Period, w: int | Kept(p, w, to)
      ensures Matches(t.db, p, w, InWindow(t.published, p, w))
    {
      assert Kept(p, w, s.now);
      AdvanceRefines(s.db, to, p, w, InWindow(s.published, p, w));
    }
    forall k: Key ensures KeyTimely(t.db, k) {
      AdvanceTimely(s.db, to, k);
    }
  }

  lemma NextKeeps(s: State, step: Step, t: State)
    requires Inv(s) && Next(s, step, t)
    ensures Inv(t)
  {
    match step
    case Tick(to) => TickKeeps(s, to, t);
    case Publish(id, answered) => PublishKeeps(s, id, answered, t);
    case Record(user, game, points) =>
      assert forall e :: e in s.log ==> e in t.log;
    case Mark(_) =>
    case Fault =>
  }

  lemma {:induction false} PathKeeps(states: seq<State>, steps: seq<Step>)
    requires Path(states, steps) && Inv(states[0])
    ensures Inv(states[|steps|])
  {
    if steps != [] {
      var n := |steps| - 1;
      assert states[..n + 1][0] == states[0];
      PathKeeps(states[..n + 1], steps[..n]);
      NextKeeps(states[n], steps[n], states[n + 1]);
    }
  }

  lemma ReachesKeeps(s: State, t: State)
    requires Reaches(s, t) && Inv(s)
    ensures Inv(t)
  {
    var states, steps :| Joins(states, steps, s, t);
    PathKeeps(states, steps);
  }

  lemma ReachesItself(s: State)
    ensures Reaches(s, s)
  {
    assert Joins([s], [], s, s);
  }

  lemma ReachesByStep(s: State, t: State, step: Step, u: State)
    requires Reaches(s, t) && Next(t, step, u)
    ensures Reaches(s, u)
  {
    var states, steps :| Joins(states, steps, s, t);
    assert Joins(states + [u], steps + [step], s, u);
  }

  lemma ReachesChains(s: State, t: State, u: State)
    requires Reaches(s, t) && Reaches(t, u)
    ensures Reaches(s, u)
  {
    var a, x :| Joins(a, x, s, t);
    var b, y :| Joins(b, y, t, u);
    var states, steps := a + b[1..], x + y;
    forall i | 0 <= i < |steps|
      ensures Next(states[i], steps[i], states[i + 1])
    {
      if i >= |x| {
        assert states[i] == b[i - |x|];
      }
    }
    assert Joins(states, steps, s, u);
  }

  /** In every run, all boards of every window still kept hold the aggregate of one set of events that
      has every projected score in it and nothing that was not recorded. */
  lemma BoardsLieBetween(states: seq<State>, steps: seq<Step>)
    requires Path(states, steps) && Init(states[0])
    ensures var s := states[|steps|];
            exists events :: Marked(s) <= events <= Recorded(s) && BoardsHold(s.db, s.now, events)
  {
    InitInv(states[0]);
    PathKeeps(states, steps);
    var s := states[|steps|];
    assert Marked(s) <= s.published;
    assert s.published <= Recorded(s) && BoardsHold(s.db, s.now, s.published);
  }

  /** So once nothing is pending the boards hold the aggregate of everything recorded. */
  lemma NothingPendingNothingMissing(states: seq<State>, steps: seq<Step>)
    requires Path(states, steps) && Init(states[0])
    requires forall e | e in states[|steps|].log :: e.id in states[|steps|].projected
    ensures var s := states[|steps|];
            BoardsHold(s.db, s.now, Recorded(s))
  {
    InitInv(states[0]);
    PathKeeps(states, steps);
    var s := states[|steps|];
    assert s.published == Recorded(s);
  }

  /** Repeats, order, timing and faults leave no trace: two runs that have published the same events
      show the same scores on every board of every window both still keep. */
  lemma OnlyTheEventsMatter(a: seq<State>, x: seq<Step>, b: seq<State>, y: seq<Step>, p: Period, w: int, s: Scope)
    requires Path(a, x) && Init(a[0]) && Path(b, y) && Init(b[0])
    requires a[|x|].published == b[|y|].published
    requires Kept(p, w, a[|x|].now) && Kept(p, w, b[|y|].now)
    requires s == GLOBAL || s.game in SLUGS
    ensures Scores(a[|x|].db, Board(s, p, w)) == Scores(b[|y|].db, Board(s, p, w))
  {
    InitInv(a[0]);
    InitInv(b[0]);
    PathKeeps(a, x);
    PathKeeps(b, y);
    var events := InWindow(a[|x|].published, p, w);
    assert Matches(a[|x|].db, p, w, events) && Matches(b[|y|].db, p, w, events);
    assert s != GLOBAL ==> s == Scope(s.game);
  }

  /** The point up to which a window is kept is the last one that can be promised: a score achieved and
      published just as a window starts is gone from its boards when that point comes. */
  lemma KeptIsTight(p: Period, w: int, user: int) returns (states: seq<State>, steps: seq<Step>)
    requires p != AllTime && Start(p, w) == w && w > ZERO_TIME
    ensures Path(states, steps) && Init(states[0])
    ensures var s := states[|steps|];
            && s.now == w + p.Ttl()
            && InWindow(s.published, p, w) != {}
            && !Matches(s.db, p, w, InWindow(s.published, p, w))
  {
    var game := SLUGS[0];
    assert game in SLUGS;
    SlugsDistinct();
    var e := Event(0, user, game, 1, w);
    var s0 := State(w, map[], [], {}, {}, {});
    var s1 := s0.(log := [e]);
    var db := FirstBoards(e, w);
    FirstSubmit(e, w);
    FirstEntry(e, w, p, Scope(game));
    var s2 := s1.(db := db, published := {e});
    var to := w + p.Ttl();
    var s3 := s2.(now := to, db := Surviving(db, to));
    states, steps := [s0, s1, s2, s3], [Record(user, game, 1), Publish(0, false), Tick(to)];
    assert s1.log == s0.log + [Event(|s0.log|, user, game, 1, s0.now)];
    assert s2.published == s1.published + {e};
    assert Next(s0, steps[0], s1) && Next(s1, steps[1], s2) && Next(s2, steps[2], s3);
    assert Path(states, steps);
    var seen := InWindow(s3.published, p, w);
    assert e in seen;
    var k := Board(Scope(game), p, w);
    assert k == BoardKey(Scope(game), p, e.at);
    assert k !in s3.db;
    assert user in Players(seen, game);
    assert user in GameBoard(seen, game);
    assert !Matches(s3.db, p, w, seen);
    assert states[|steps|] == s3;
  }

  /** What the first submit of all leaves behind. */
  function FirstBoards(e: Event, now: int): Db {
    map p: Period, s: Scope | s in {Scope(e.game), GLOBAL} && p in {AllTime, Daily, Weekly, Monthly} ::
        BoardKey(s, p, e.at) :=
          ZSet(map[e.user := e.points], if p == AllTime then None else Some(now + p.Ttl()))
  }

  lemma FirstEntry(e: Event, now: int, p: Period, s: Scope)
    requires s == Scope(e.game) || s == GLOBAL
    ensures BoardKey(s, p, e.at) in FirstBoards(e, now)
    ensures FirstBoards(e, now)[BoardKey(s, p, e.at)] ==
            ZSet(map[e.user := e.points], if p == AllTime then None else Some(now + p.Ttl()))
  {
  }

  lemma FirstSubmit(e: Event, now: int)
    requires e.game != ""
    ensures Submitted(map[], FirstBoards(e, now), now, e.user, e.game, e.points, e.at)
  {
    var db := FirstBoards(e, now);
    forall k | !Counts(k, e.game, e.at)
      ensures SameAt(map[], db, k)
    {
    }
    forall p: Period
      ensures RoundDone(map[], db, now, BoardKey(Scope(e.game), p, e.at), BoardKey(GLOBAL, p, e.at), p.Ttl(), e.user, e.points)
    {
      FirstEntry(e, now, p, Scope(e.game));
      FirstEntry(e, now, p, GLOBAL);
    }
  }

  /** What a player's worthless first score in another game then adds: a place on that game's boards. */
  function SecondBoards(first: Event, second: Event, now: int): Db {
    FirstBoards(first, now) +
    map p: Period | p in {AllTime, Daily, Weekly, Monthly} ::
        BoardKey(Scope(second.game), p, second.at) :=
          ZSet(map[second.user := 0], if p == AllTime then None else Some(now + p.Ttl()))
  }

  lemma SecondEntry(first: Event, second: Event, now: int, p: Period)
    requires second.game != first.game && second.game != "" && second.at == first.at
    ensures var own, global := BoardKey(Scope(second.game), p, second.at), BoardKey(GLOBAL, p, second.at);
            && own !in FirstBoards(first, now)
            && own in SecondBoards(first, second, now)
            && SecondBoards(first, second, now)[own] ==
               ZSet(map[second.user := 0], if p == AllTime then None else Some(now + p.Ttl()))
            && SameAt(FirstBoards(first, now), SecondBoards(first, second, now), global)
  {
  }

  lemma SecondSubmit(first: Event, second: Event, now: int)
    requires second.game != first.game && second.game != "" && second.at == first.at
    requires second.user == first.user && second.points == 0
    ensures Submitted(FirstBoards(first, now), SecondBoards(first, second, now), now, second.user, second.game, 0, second.at)
  {
    var a, b := FirstBoards(first, now), SecondBoards(first, second, now);
    forall k | !Counts(k, second.game, second.at)
      ensures SameAt(a, b, k)
    {
    }
    forall p: Period
      ensures RoundDone(a, b, now, BoardKey(Scope(second.game), p, second.at), BoardKey(GLOBAL, p, second.at), p.Ttl(), second.user, 0)
    {
      SecondEntry(first, second, now, p);
      FirstEntry(first, now, p, GLOBAL);
      var own := Scores(a, BoardKey(GLOBAL, p, second.at));
      assert own[second.user := own[second.user]] == own;
    }
  }

  /** A cross-game board can be announced without having changed: a player with points in one game
      finishes a first session of another with none. */
  lemma AnnouncedUnchanged(user: int, now: int) returns (states: seq<State>, steps: seq<Step>)
    requires now > ZERO_TIME
    ensures Path(states, steps) && Init(states[0])
    ensures |steps| == 4 && steps[3] == Publish(1, true) && states[3].log == [Event(0, user, SLUGS[0], 1, now), Event(1, user, SLUGS[1], 0, now)]
    ensures AllAnnounced(states[3].db, states[4].db, user, SLUGS[1], 0, now)
    ensures forall p: Period ::
              Scores(states[4].db, BoardKey(GLOBAL, p, now)) == Scores(states[3].db, BoardKey(GLOBAL, p, now))
  {
    SlugsDistinct();
    assert SLUGS[0] in SLUGS && SLUGS[1] in SLUGS;
    var first, second := Event(0, user, SLUGS[0], 1, now), Event(1, user, SLUGS[1], 0, now);
    FirstSubmit(first, now);
    SecondSubmit(first, second, now);
    var s0 := State(now, map[], [], {}, {}, {});
    var s1 := s0.(log := [first]);
    var s2 := s1.(db := FirstBoards(first, now), published := {first}, heard := {0});
    var s3 := s2.(log := [first, second]);
    var s4 := s3.(db := SecondBoards(first, second, now), published := {first, second}, heard := {0, 1});
    states, steps := [s0, s1, s2, s3, s4], [Record(user, SLUGS[0], 1), Publish(0, true), Record(user, SLUGS[1], 0), Publish(1, true)];
    assert s1.log == s0.log + [first] && s3.log == s2.log + [second];
    FourSteps(states, steps);
    SecondLeavesGlobal(first, second, now);
  }

  lemma FourSteps(states: seq<State>, steps: seq<Step>)
    requires |states| == 5 && |steps| == 4
    requires Next(states[0], steps[0], states[1]) && Next(states[1], steps[1], states[2])
    requires Next(states[2], steps[2], states[3]) && Next(states[3], steps[3], states[4])
    ensures Path(states, steps)
  {
  }

  lemma SecondLeavesGlobal(first: Event, second: Event, now: int)
    requires second.game != first.game && second.game != "" && second.at == first.at && second.points == 0
    ensures var before, after := FirstBoards(first, now), SecondBoards(first, second, now);
            && AllAnnounced(before, after, second.user, second.game, 0, second.at)
            && forall p: Period :: Scores(after, BoardKey(GLOBAL, p, second.at)) == Scores(before, BoardKey(GLOBAL, p, second.at))
  {
    var before, after := FirstBoards(first, now), SecondBoards(first, second, now);
    forall p: Period
      ensures second.user !in Scores(before, BoardKey(Scope(second.game), p, second.at))
      ensures Scores(after, BoardKey(GLOBAL, p, second.at)) == Scores(before, BoardKey(GLOBAL, p, second.at))
    {
      SecondEntry(first, second, now, p);
    }
    FirstScoreAnnounces(before, after, second.user, second.game, 0, second.at);
  }

  /** Whatever placement a submit reports, every period is announced for the cross-game board. */
  ghost predicate AllAnnounced(before: Db, after: Db, user: int, game: string, points: int, at: int) {
    forall placement, p: Period | Places(placement, before, after, user, game, points, at) ::
      (GLOBAL.Name(), p) in Notices(placement.improved, game, 4)
  }

  /** A player's first score in a game is announced, whatever it is worth. */
  lemma FirstScoreAnnounces(before: Db, after: Db, user: int, game: string, points: int, at: int)
    requires forall p: Period :: user !in Scores(before, BoardKey(Scope(game), p, at))
    ensures AllAnnounced(before, after, user, game, points, at)
  {
    forall placement, p: Period | Places(placement, before, after, user, game, points, at)
      ensures (GLOBAL.Name(), p) in Notices(placement.improved, game, 4)
    {
      assert PERIODS[PlaceOf(p)] == p;
      NoticesMembers(placement.improved, game, 4, p);
    }
  }
}
