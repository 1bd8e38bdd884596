/** What a rebuild is good for afterwards: the runs that go on from it, and what rebuilds leave staged. */
module Recovery {
  import opened Wrappers
  import opened Sets
  import opened Windows
  import opened Keys
  import opened Redis
  import opened Aggregate
  import opened Submit
  import opened Refinement
  import opened Delivery
  import opened Rebuild

  // -------------------------------------------------------------------------------- runs after a rebuild

  /** Along a run that starts rebuilt: the boards of one window that was current then. */
  ghost predicate Restored(s: State, base: set<Event>, p: Period, w: int) {
    && s.now > ZERO_TIME && ValidLog(s.log, s.now)
    && base <= Delivery.Recorded(s) && s.published <= Delivery.Recorded(s)
    && WindowTimely(s.db, p, w)
    && (Kept(p, w, s.now) ==> Matches(s.db, p, w, InWindow(base + s.published, p, w)))
  }

  lemma RebuildTimely(before: Db, after: Db, now: int, events: set<Event>, p: Period)
    requires Rebuilt(before, after, now, events)
    ensures WindowTimely(after, p, Start(p, now))
  {
    WindowsTile(p, now, now);
    forall s: Scope | s == GLOBAL || s.game in SLUGS
      ensures KeyTimely(after, Board(s, p, Start(p, now)))
    {
      var k := Board(s, p, Start(p, now));
      assert Replaced(before, after, k, Wanted(k, events), ExpiryFrom(now, k.period.Ttl()));
    }
  }

  lemma RestoredByTick(s: State, to: int, t: State, base: set<Event>, p: Period, w: int)
    requires Restored(s, base, p, w) && Next(s, Tick(to), t)
    ensures Restored(t, base, p, w)
  {
    forall k: Scope | k == GLOBAL || k.game in SLUGS ensures KeyTimely(t.db, Board(k, p, w)) {
      assert KeyTimely(s.db, Board(k, p, w));
      AdvanceTimely(s.db, to, Board(k, p, w));
    }
    if Kept(p, w, to) {
      AdvanceRefines(s.db, to, p, w, InWindow(base + s.published, p, w));
    }
  }

  lemma RestoredByPublish(s: State, id: int, answered: bool, t: State, base: set<Event>, p: Period, w: int)
    requires Restored(s, base, p, w) && Next(s, Publish(id, answered), t)
    ensures Restored(t, base, p, w)
  {
    var e := s.log[id];
    assert ValidEvent(e) && e.at <= s.now && e in s.log;
    forall k: Scope | k == GLOBAL || k.game in SLUGS ensures KeyTimely(t.db, Board(k, p, w)) {
      assert KeyTimely(s.db, Board(k, p, w));
      SubmitTimely(s.db, t.db, s.now, e, Board(k, p, w));
    }
    if Kept(p, w, s.now) {
      SubmitRefines(s.db, t.db, s.now, p, w, base + s.published, e);
      assert base + s.published + {e} == base + t.published;
    }
  }

  lemma RestoredByStep(s: State, step: Step, t: State, base: set<Event>, p: Period, w: int)
    requires Restored(s, base, p, w) && Next(s, step, t)
    ensures Restored(t, base, p, w)
  {
    match step
    case Tick(to) => RestoredByTick(s, to, t, base, p, w);
    case Publish(id, answered) => RestoredByPublish(s, id, answered, t, base, p, w);
    case Record(user, game, points) =>
      assert forall e :: e in s.log ==> e in t.log;
    case Mark(_) =>
    case Fault =>
  }

  lemma {:induction false} RestoredByPath(states: seq<State>, steps: seq<Step>, base: set<Event>, p: Period, w: int)
    requires Path(states, steps) && Restored(states[0], base, p, w)
    ensures Restored(states[|steps|], base, p, w)
  {
    if steps != [] {
      var n := |steps| - 1;
      RestoredByPath(states[..n + 1], steps[..n], base, p, w);
      RestoredByStep(states[n], steps[n], states[n + 1], base, p, w);
    }
  }

  /** After a rebuild anything may go on: time passes, scores are recorded, published, swept again, marked
      or lost track of. As long as a window that was current at the rebuild is kept, its boards hold the
      aggregate of the log at the rebuild and of what was published since; and once everything recorded has
      been published, of the whole log. */
  lemma RunsAfterRebuild(before: Db, states: seq<State>, steps: seq<Step>, p: Period)
    requires Path(states, steps)
    requires states[0].now > ZERO_TIME && ValidLog(states[0].log, states[0].now)
    requires states[0].published <= Delivery.Recorded(states[0])
    requires Rebuilt(before, states[0].db, states[0].now, Delivery.Recorded(states[0]))
    requires Kept(p, Start(p, states[0].now), states[|steps|].now)
    ensures var s, w := states[|steps|], Start(p, states[0].now);
            && Matches(s.db, p, w, InWindow(Delivery.Recorded(states[0]) + s.published, p, w))
            && (s.published == Delivery.Recorded(s) ==> Matches(s.db, p, w, InWindow(Delivery.Recorded(s), p, w)))
  {
    var base, w := Delivery.Recorded(states[0]), Start(p, states[0].now);
    RebuildMatches(before, states[0].db, states[0].now, base, p);
    RebuildTimely(before, states[0].db, states[0].now, base, p);
    assert base + states[0].published == base;
    RestoredByPath(states, steps, base, p, w);
    var s := states[|steps|];
    if s.published == Delivery.Recorded(s) {
      assert base + s.published == Delivery.Recorded(s);
    }
  }

  // ---------------------------------------------------------------------------------- what stays staged

  /** What happens to Redis over time, rebuilds that break off included. */
  datatype Chore = Finished | BrokenOff | Publishing(e: Event) | Waiting(to: int) | Recording(more: set<Event>)

  datatype Upkeep = Upkeep(now: int, db: Db, events: set<Event>)

  ghost predicate Does(s: Upkeep, chore: Chore, t: Upkeep) {
    match chore
    case Finished => Rebuilt(s.db, t.db, s.now, s.events) && t == s.(db := t.db)
    case BrokenOff => Unbroken(s.db, t.db, s.now, s.events) && t == s.(db := t.db)
    case Publishing(e) =>
      e in s.events && Submitted(s.db, t.db, s.now, e.user, e.game, e.points, e.at) && t == s.(db := t.db)
    case Waiting(to) => s.now <= to && t == s.(now := to, db := Surviving(s.db, to))
    case Recording(more) => t == s.(events := s.events + more)
  }

  ghost predicate Course(states: seq<Upkeep>, chores: seq<Chore>) {
    && |states| == |chores| + 1
    && forall i | 0 <= i < |chores| :: Does(states[i], chores[i], states[i + 1])
  }

  /** Members are staged only for boards that are not to be empty. */
  ghost predicate StagedOnly(s: Upkeep) {
    forall k: Key :: StagedRightly(s, k)
  }

  ghost predicate StagedRightly(s: Upkeep, k: Key) {
    k.Board? && Rebuilding(k) in s.db ==> Wanted(k, s.events) != map[]
  }

  lemma WantedGrows(k: Key, events: set<Event>, more: set<Event>)
    requires k.Board? && Wanted(k, events) != map[]
    ensures Wanted(k, events + more) != map[]
  {
    var own := InWindow(events, k.period, k.start);
    var all := InWindow(events + more, k.period, k.start);
    assert own <= all;
    var u := Any(Wanted(k, events).Keys);
    if k.scope == GLOBAL {
      var e :| e in own && e.user == u;
      assert u in Everyone(all);
      assert u in Wanted(k, events + more);
    } else {
      var e :| e in own && e.game == k.scope.game && e.user == u;
      assert u in Players(all, k.scope.game);
      assert u in Wanted(k, events + more);
    }
  }

  lemma ChoreStagesRightly(s: Upkeep, chore: Chore, t: Upkeep, k: Key)
    requires Does(s, chore, t) && StagedRightly(s, k)
    ensures StagedRightly(t, k)
  {
    if k.Board? && Rebuilding(k) in t.db {
      match chore
      case Finished =>
        assert Current(k, s.now) ==> Replaced(s.db, t.db, k, Wanted(k, s.events), ExpiryFrom(s.now, k.period.Ttl()));
        assert !Current(k, s.now) ==> SameAt(s.db, t.db, Rebuilding(k));
      case BrokenOff =>
        assert Current(k, s.now) ==> Untorn(s.db, t.db, k, Wanted(k, s.events), ExpiryFrom(s.now, k.period.Ttl()));
        assert !Current(k, s.now) ==> SameAt(s.db, t.db, Rebuilding(k));
      case Publishing(e) => assert SameAt(s.db, t.db, Rebuilding(k));
      case Waiting(to) =>
      case Recording(more) => WantedGrows(k, s.events, more);
    }
  }

  lemma {:induction false} CourseStagesRightly(states: seq<Upkeep>, chores: seq<Chore>)
    requires Course(states, chores) && states[0].db == map[]
    ensures StagedOnly(states[|chores|])
  {
    if chores != [] {
      var n := |chores| - 1;
      CourseStagesRightly(states[..n + 1], chores[..n]);
      var s, t := states[n], states[n + 1];
      forall k: Key ensures StagedRightly(t, k) {
        assert StagedRightly(s, k);
        ChoreStagesRightly(s, chores[n], t, k);
      }
    }
  }

  /** As long as nobody but Podium writes to Redis, a rebuild that finishes leaves nothing staged for any
      board it rebuilt, however many broke off before it. */
  lemma FinishedLeavesNothingStaged(states: seq<Upkeep>, chores: seq<Chore>, k: Key)
    requires Course(states, chores) && states[0].db == map[]
    requires chores != [] && chores[|chores| - 1] == Finished
    requires Current(k, states[|chores|].now)
    ensures Rebuilding(k) !in states[|chores|].db
  {
    var n := |chores| - 1;
    CourseStagesRightly(states[..n + 1], chores[..n]);
    assert Does(states[n], Finished, states[n + 1]);
    assert StagedRightly(states[n], k);
    StagingLeftover(states[n].db, states[n + 1].db, states[n].now, states[n].events, k);
  }

  /** Something foreign under a staging key does stay, if its board is empty. */
  lemma ForeignStagingStays(k: Key, now: int) returns (before: Db, after: Db)
    requires Current(k, now)
    ensures Rebuilt(before, after, now, {})
    ensures Rebuilding(k) in after
  {
    before := map[Rebuilding(k) := ZSet(map[1 := 1], None)];
    after := before;
    forall l | Current(l, now)
      ensures Replaced(before, after, l, Wanted(l, {}), ExpiryFrom(now, l.period.Ttl()))
    {
      EmptyWanted(l);
    }
  }

  lemma EmptyWanted(k: Key)
    requires k.Board?
    ensures Wanted(k, {}) == map[]
  {
    assert InWindow({}, k.period, k.start) == {};
    assert Everyone({}) == {} && Players({}, k.scope.game) == {};
  }

  /** A board's window has passed. */
  predicate Past(k: Key, now: int) {
    k.Board? && k.start < Start(k.period, now)
  }

  lemma PastStays(k: Key, now: int, later: int)
    requires Past(k, now) && now <= later
    ensures Past(k, later) && !Current(k, later)
  {
    StartAscends(k.period, now, later);
  }

  /** A sorted set is staged as long as it has not expired. */
  predicate StagedUntilExpiry(s: Upkeep, k: Key, z: ZSet) {
    (Rebuilding(k) in s.db <==> Alive(z, s.now)) && (Rebuilding(k) in s.db ==> s.db[Rebuilding(k)] == z)
  }

  lemma ChoreLeavesPast(s: Upkeep, chore: Chore, t: Upkeep, k: Key, z: ZSet)
    requires Does(s, chore, t) && Past(k, s.now) && StagedUntilExpiry(s, k, z)
    ensures Past(k, t.now) && StagedUntilExpiry(t, k, z)
  {
    PastStays(k, s.now, s.now);
    PastStays(k, s.now, t.now);
    if chore.Finished? || chore.BrokenOff? || chore.Publishing? {
      assert SameAt(s.db, t.db, Rebuilding(k));
    }
  }

  lemma {:induction false} CourseLeavesPast(states: seq<Upkeep>, chores: seq<Chore>, k: Key, z: ZSet)
    requires Course(states, chores) && Past(k, states[0].now) && StagedUntilExpiry(states[0], k, z)
    ensures Past(k, states[|chores|].now) && StagedUntilExpiry(states[|chores|], k, z)
  {
    if chores != [] {
      var n := |chores| - 1;
      CourseLeavesPast(states[..n + 1], chores[..n], k, z);
      ChoreLeavesPast(states[n], chores[n], states[n + 1], k, z);
    }
  }

  /** What is staged for a window that has passed is touched by nothing any more but its own expiry: through
      any course it is there, unchanged, exactly as long as that has not come, and so for ever exactly if it
      has none. */
  lemma StrandedStays(states: seq<Upkeep>, chores: seq<Chore>, k: Key)
    requires Course(states, chores) && Past(k, states[0].now)
    requires Rebuilding(k) in states[0].db && Alive(states[0].db[Rebuilding(k)], states[0].now)
    ensures var z, last := states[0].db[Rebuilding(k)], states[|chores|];
            && (Rebuilding(k) in last.db <==> Alive(z, last.now))
            && (Rebuilding(k) in last.db ==> last.db[Rebuilding(k)] == z)
  {
    CourseLeavesPast(states, chores, k, states[0].db[Rebuilding(k)]);
  }

  /** A rebuild that breaks off between staging the members of a board and giving them their expiry, with
      nothing more before the window ends, leaves such a set. */
  lemma StagingCanStrand(p: Period, e: Event) returns (states: seq<Upkeep>, chores: seq<Chore>)
    requires p != AllTime && ValidEvent(e)
    ensures Course(states, chores) && states[0] == Upkeep(e.at, map[], {})
    ensures chores == [Recording({e}), BrokenOff, Waiting(End(p, e.at))]
    ensures var k := BoardKey(Scope(e.game), p, e.at);
            Past(k, states[3].now) && Rebuilding(k) in states[3].db && states[3].db[Rebuilding(k)].expiry == None
  {
    var k := BoardKey(Scope(e.game), p, e.at);
    var db: Db := map[Rebuilding(k) := ZSet(Wanted(k, {e}), None)];
    EndStartsLater(p, e.at);
    OneEventWanted(p, e);
    chores := [Recording({e}), BrokenOff, Waiting(End(p, e.at))];
    states := [Upkeep(e.at, map[], {}), Upkeep(e.at, map[], {e}), Upkeep(e.at, db, {e}), Upkeep(End(p, e.at), db, {e})];
    forall l | Current(l, e.at)
      ensures Untorn(map[], db, l, Wanted(l, {e}), ExpiryFrom(e.at, l.period.Ttl()))
    {
    }
    assert {} + {e} == {e};
    assert Surviving(db, End(p, e.at)) == db;
    assert Does(states[0], chores[0], states[1]) && Does(states[1], chores[1], states[2]) && Does(states[2], chores[2], states[3]);
  }

  lemma OneEventWanted(p: Period, e: Event)
    requires ValidEvent(e)
    ensures var k := BoardKey(Scope(e.game), p, e.at); Current(k, e.at) && k.scope != GLOBAL && Wanted(k, {e}) != map[]
  {
    SlugsDistinct();
    var events := InWindow({e}, p, Start(p, e.at));
    assert e in events;
    assert e.user in Players(events, e.game);
    assert e.user in Wanted(BoardKey(Scope(e.game), p, e.at), {e});
  }

  /** The code does come to it: one rebuild, of one score, that stops there. */
  method StrandByRebuild(p: Period, user: int, now: int) returns (redis: Server)
    requires p != AllTime && now > ZERO_TIME
    ensures fresh(redis) && redis.Valid() && redis.now == End(p, now)
    ensures var k := BoardKey(Scope(SLUGS[0]), p, now);
            Past(k, redis.now) && Rebuilding(k) in redis.db && redis.db[Rebuilding(k)].expiry == None
  {
    var e := Event(0, user, SLUGS[0], 1, now);
    var key := BoardKey(Scope(SLUGS[0]), p, now);
    redis := new Server(now);
    ghost var before := redis.db;
    EndStartsLater(p, now);
    EventValid(e);
    OneEventWanted(p, e);
    var faults := OneFault(key);
    var keys, entries, ok := Rebuild.Rebuild(redis, [e], faults);
    assert EventsOf([e]) == {e};
    OnlyThere(before, redis.db, now, {e}, key);
    redis.Advance(End(p, now));
  }

  lemma EventValid(e: Event)
    requires e.game == SLUGS[0] && e.points == 1 && e.at > ZERO_TIME
    ensures ValidEvent(e)
  {
    assert SLUGS[0] in SLUGS;
  }

  /** The third command for one key fails, and nothing else. */
  function OneFault(key: Key): Faults {
    Faults(true, (p: Period) => true, (k: Key) => if k == key then Some(2) else None)
  }

  lemma OnlyThere(before: Db, after: Db, now: int, events: set<Event>, key: Key)
    requires Current(key, now) && Wanted(key, events) != map[]
    requires !Untroubled(OneFault(key), now) ==> Stopped(before, after, now, events, OneFault(key))
    ensures Rebuilding(key) in after && after[Rebuilding(key)] == ZSet(Wanted(key, events), None)
  {
    assert OneFault(key).stops(key) == Some(2);
    assert forall k :: StoppedHere(before, after, now, events, OneFault(key), k) ==> k == key;
  }
}
