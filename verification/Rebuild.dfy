/** Recreating the current boards from the recorded scores, whatever Redis holds. */
module Rebuild {
  import opened Wrappers
  import opened Sets
  import opened Windows
  import opened Keys
  import opened Redis
  import opened Aggregate
  import opened Submit
  import opened Refinement
  import opened Delivery
  import opened History

  function ExpiryFrom(now: int, ttl: int): Option<int> {
    if ttl > 0 then Some(now + ttl) else None
  }

  /** What replacing a key leaves: the new members and nothing staged; or no key, and whatever an
      earlier rebuild that never finished may have staged for it. */
  predicate Replaced(before: Db, after: Db, k: Key, scores: map<int, int>, expiry: Option<int>) {
    if scores == map[] then k !in after && SameAt(before, after, Rebuilding(k))
    else k in after && after[k] == ZSet(scores, expiry) && Rebuilding(k) !in after
  }

  /** What an attempt leaves that broke off: the whole old board or the whole new one; and staged what was
      before, nothing, or the new members, with their expiry or still without. */
  predicate Untorn(before: Db, after: Db, k: Key, scores: map<int, int>, expiry: Option<int>) {
    && (SameAt(before, after, k) || (if scores == map[] then k !in after else k in after && after[k] == ZSet(scores, expiry)))
    && (|| SameAt(before, after, Rebuilding(k))
        || Rebuilding(k) !in after
        || (scores != map[] && (after[Rebuilding(k)] == ZSet(scores, None) || after[Rebuilding(k)] == ZSet(scores, expiry))))
  }

  /** What is staged once so many of the commands that stage have taken effect: the deletion, the members
      and their expiry. */
  predicate StagedBy(before: Db, after: Db, staging: Key, scores: map<int, int>, expiry: Option<int>, commands: nat) {
    if commands == 0 then SameAt(before, after, staging)
    else if commands == 1 then staging !in after
    else staging in after && after[staging] == ZSet(scores, if commands == 2 then None else expiry)
  }

  /** What an attempt leaves that broke off once so many commands had taken effect, to the letter. */
  predicate StoppedAt(before: Db, after: Db, k: Key, scores: map<int, int>, expiry: Option<int>, commands: nat) {
    if scores == map[] then
      (if commands == 0 then SameAt(before, after, k) else k !in after) && SameAt(before, after, Rebuilding(k))
    else if commands <= 3 then
      SameAt(before, after, k) && StagedBy(before, after, Rebuilding(k), scores, expiry, commands)
    else
      k in after && after[k] == ZSet(scores, expiry) && Rebuilding(k) !in after
  }

  /** Builds a sorted set under a staging key and moves it into place. The attempt may break off with an
      error once some of its commands have taken effect. */
  method ReplaceKey(redis: Server, key: Key, ttl: int, scores: map<int, int>, stops: Option<nat>) returns (written: nat, ok: bool)
    requires redis.Valid() && key.Board?
    modifies redis`db
    ensures redis.Valid() && SameExcept(old(redis.db), redis.db, {key, Rebuilding(key)})
    ensures ok <==> stops.None?
    ensures ok ==> Replaced(old(redis.db), redis.db, key, scores, ExpiryFrom(redis.now, ttl)) && written == |scores|
    ensures !ok ==> Untorn(old(redis.db), redis.db, key, scores, ExpiryFrom(redis.now, ttl))
    ensures !ok ==> StoppedAt(old(redis.db), redis.db, key, scores, ExpiryFrom(redis.now, ttl), stops.value)
  {
    if scores == map[] {
      if stops != Some(0) {
        redis.Del(key);
      }
      return 0, stops.None?;
    }
    var staged := Stage(redis, Rebuilding(key), ttl, scores, stops);
    if !staged {
      return 0, false;
    }
    ghost var halfway := redis.db;
    redis.Rename(Rebuilding(key), key);
    forall k | k !in {key, Rebuilding(key)}
      ensures SameAt(old(redis.db), redis.db, k)
    {
      assert SameAt(old(redis.db), halfway, k);
    }
    if stops.Some? {
      return 0, false;
    }
    return |scores|, true;
  }

  /** Writes the members, whatever the staging key held before, and their expiry. */
  method Stage(redis: Server, staging: Key, ttl: int, scores: map<int, int>, stops: Option<nat>) returns (staged: bool)
    requires redis.Valid() && scores != map[]
    modifies redis`db
    ensures redis.Valid() && SameExcept(old(redis.db), redis.db, {staging})
    ensures staged <==> stops.None? || stops.value > 3
    ensures StagedBy(old(redis.db), redis.db, staging, scores, ExpiryFrom(redis.now, ttl), if staged then 3 else stops.value)
  {
    if stops == Some(0) {
      return false;
    }
    redis.Del(staging);
    if stops == Some(1) {
      return false;
    }
    Fill(redis, staging, scores);
    if stops == Some(2) {
      return false;
    }
    if ttl > 0 {
      redis.Expire(staging, ttl);
    }
    return stops != Some(3);
  }

  /** One ZADD of all members to a key that does not exist. */
  method Fill(redis: Server, staging: Key, scores: map<int, int>)
    requires redis.Valid() && scores != map[] && staging !in redis.db
    modifies redis`db
    ensures redis.Valid() && SameExcept(old(redis.db), redis.db, {staging})
    ensures staging in redis.db && redis.db[staging] == ZSet(scores, None)
  {
    var left := scores.Keys;
    while left != {}
      invariant redis.Valid() && left <= scores.Keys
      invariant SameExcept(old(redis.db), redis.db, {staging})
      invariant Scores(redis.db, staging) == map m | m in scores && m !in left :: scores[m]
      invariant Expiry(redis.db, staging) == None
      decreases left
    {
      ghost var some := Any(left);
      var m :| m in left;
      redis.ZAdd(staging, m, scores[m]);
      left := left - {m};
    }
    assert Scores(redis.db, staging) == scores;
  }

  // --------------------------------------------------------------------------- which keys are rebuilt

  /** The boards of the windows an instant lies in. */
  predicate Current(k: Key, now: int) {
    k.Board? && k.start == Start(k.period, now) && (k.scope == GLOBAL || k.scope.game in SLUGS)
  }

  ghost function Wanted(k: Key, events: set<Event>): map<int, int>
    requires k.Board?
  {
    BoardOf(k.scope, InWindow(events, k.period, k.start))
  }

  /** The keys in done have been replaced, and nothing else is touched. */
  ghost predicate Progress(before: Db, after: Db, now: int, events: set<Event>, done: set<Key>) {
    && (forall k | k in done :: k.Board? && Replaced(before, after, k, Wanted(k, events), ExpiryFrom(now, k.period.Ttl())))
    && (forall k | k !in done && !(k.Rebuilding? && k.of in done) :: SameAt(before, after, k))
  }

  lemma ProgressGrows(a: Db, b: Db, c: Db, now: int, events: set<Event>, done: set<Key>, k: Key)
    requires Progress(a, b, now, events, done)
    requires k.Board? && k !in done
    requires Replaced(b, c, k, Wanted(k, events), ExpiryFrom(now, k.period.Ttl()))
    requires SameExcept(b, c, {k, Rebuilding(k)})
    ensures Progress(a, c, now, events, done + {k})
  {
    forall l | l in done + {k}
      ensures Replaced(a, c, l, Wanted(l, events), ExpiryFrom(now, l.period.Ttl()))
    {
      if l == k {
        assert SameAt(a, b, Rebuilding(k));
      } else {
        assert SameAt(b, c, l) && SameAt(b, c, Rebuilding(l));
      }
    }
    forall l | l !in done + {k} && !(l.Rebuilding? && l.of in done + {k})
      ensures SameAt(a, c, l)
    {
      assert SameAt(a, b, l) && SameAt(b, c, l);
    }
  }

  /** What a rebuild of some boards that broke off leaves: of each the whole old one or the whole new one,
      staged members for none that is to be empty, and everything else as it was. */
  ghost predicate Partial(before: Db, after: Db, now: int, events: set<Event>, keys: set<Key>) {
    && (forall k | k in keys :: k.Board? && Untorn(before, after, k, Wanted(k, events), ExpiryFrom(now, k.period.Ttl())))
    && (forall k | k !in keys && !(k.Rebuilding? && k.of in keys) :: SameAt(before, after, k))
  }

  lemma ProgressIsPartial(before: Db, after: Db, now: int, events: set<Event>, done: set<Key>)
    requires Progress(before, after, now, events, done)
    ensures Partial(before, after, now, events, done)
  {
  }

  lemma PartialOfMore(before: Db, after: Db, now: int, events: set<Event>, keys: set<Key>, more: set<Key>)
    requires Partial(before, after, now, events, keys) && keys <= more && forall k | k in more :: k.Board?
    ensures Partial(before, after, now, events, more)
  {
    forall k | k in more
      ensures Untorn(before, after, k, Wanted(k, events), ExpiryFrom(now, k.period.Ttl()))
    {
      if k !in keys {
        assert SameAt(before, after, k) && SameAt(before, after, Rebuilding(k));
      }
    }
  }

  lemma BrokenOff(a: Db, b: Db, c: Db, now: int, events: set<Event>, done: set<Key>, k: Key)
    requires Progress(a, b, now, events, done) && k.Board? && k !in done
    requires Untorn(b, c, k, Wanted(k, events), ExpiryFrom(now, k.period.Ttl()))
    requires SameExcept(b, c, {k, Rebuilding(k)})
    ensures Partial(a, c, now, events, done + {k})
  {
    ProgressIsPartial(a, b, now, events, done);
    forall l | l in done + {k}
      ensures Untorn(a, c, l, Wanted(l, events), ExpiryFrom(now, l.period.Ttl()))
    {
      if l == k {
        assert SameAt(a, b, k) && SameAt(a, b, Rebuilding(k));
      } else {
        assert Untorn(a, b, l, Wanted(l, events), ExpiryFrom(now, l.period.Ttl()));
        assert SameAt(b, c, l) && SameAt(b, c, Rebuilding(l));
      }
    }
    forall l | l !in done + {k} && !(l.Rebuilding? && l.of in done + {k})
      ensures SameAt(a, c, l)
    {
      assert SameAt(a, b, l) && SameAt(b, c, l);
    }
  }

  /** What may go wrong: the clock or the history cannot be read, or replacing a key breaks off once a
      number of commands have taken effect. */
  datatype Faults = Faults(clock: bool, history: Period -> bool, stops: Key -> Option<nat>)

  /** Nothing stops at any of some keys. */
  ghost predicate NoStops(faults: Faults, keys: set<Key>) {
    forall k | k in keys :: faults.stops(k).None?
  }

  /** One of some keys is where it broke off, and left as the commands that took effect leave it. */
  ghost predicate BrokeAt(before: Db, after: Db, now: int, events: set<Event>, faults: Faults, keys: set<Key>, k: Key) {
    && k in keys && k.Board? && faults.stops(k).Some?
    && StoppedAt(before, after, k, Wanted(k, events), ExpiryFrom(now, k.period.Ttl()), faults.stops(k).value)
  }

  ghost predicate Broke(before: Db, after: Db, now: int, events: set<Event>, faults: Faults, keys: set<Key>) {
    exists k :: BrokeAt(before, after, now, events, faults, keys, k)
  }

  lemma BrokeOfMore(before: Db, after: Db, now: int, events: set<Event>, faults: Faults, keys: set<Key>, more: set<Key>)
    requires Broke(before, after, now, events, faults, keys) && keys <= more
    ensures Broke(before, after, now, events, faults, more)
  {
    var k :| BrokeAt(before, after, now, events, faults, keys, k);
    assert BrokeAt(before, after, now, events, faults, more, k);
  }

  lemma StoppedSince(a: Db, b: Db, c: Db, k: Key, scores: map<int, int>, expiry: Option<int>, commands: nat)
    requires SameAt(a, b, k) && SameAt(a, b, Rebuilding(k)) && StoppedAt(b, c, k, scores, expiry, commands)
    ensures StoppedAt(a, c, k, scores, expiry, commands)
  {
  }

  // ------------------------------------------------------------------------------------- rebuilding

  function ScopesKeys(p: Period, now: int, n: nat): set<Key>
    requires n <= |SLUGS|
  {
    if n == 0 then {} else ScopesKeys(p, now, n - 1) + {BoardKey(Scope(SLUGS[n - 1]), p, now)}
  }

  /** Every key of the first n periods' current boards. */
  function PeriodsKeys(now: int, n: nat): set<Key>
    requires n <= 4
  {
    if n == 0 then {}
    else
      var p := PERIODS[n - 1];
      PeriodsKeys(now, n - 1) + (ScopesKeys(p, now, |SLUGS|) + {BoardKey(GLOBAL, p, now)})
  }

  lemma {:induction false} ScopesKeysMembers(p: Period, now: int, n: nat, k: Key)
    requires n <= |SLUGS|
    ensures k in ScopesKeys(p, now, n) <==> exists i :: 0 <= i < n && k == BoardKey(Scope(SLUGS[i]), p, now)
  {
    if n > 0 {
      ScopesKeysMembers(p, now, n - 1, k);
    }
  }

  lemma {:induction false} PeriodsKeysMembers(now: int, n: nat, k: Key)
    requires n <= 4
    ensures k in PeriodsKeys(now, n) <==> Current(k, now) && k.period in PERIODS[..n]
  {
    if n > 0 {
      var p := PERIODS[n - 1];
      assert PERIODS[..n] == PERIODS[..n - 1] + [p];
      PeriodsKeysMembers(now, n - 1, k);
      ScopesKeysMembers(p, now, |SLUGS|, k);
      if Current(k, now) && k.period == p && k.scope != GLOBAL {
        var i :| 0 <= i < |SLUGS| && SLUGS[i] == k.scope.game;
        assert k == BoardKey(Scope(SLUGS[i]), p, now);
      }
    }
  }

  /** Replaces one more key with its aggregate. */
  method ReplaceNext(redis: Server, key: Key, ttl: int, scores: map<int, int>, stops: Option<nat>,
                     ghost before: Db, ghost events: set<Event>, ghost done: set<Key>)
    returns (written: nat, ok: bool)
    requires redis.Valid() && Progress(before, redis.db, redis.now, events, done)
    requires key.Board? && key !in done && ttl == key.period.Ttl() && scores == Wanted(key, events)
    modifies redis`db
    ensures redis.Valid() && (ok <==> stops.None?)
    ensures ok ==> Progress(before, redis.db, redis.now, events, done + {key}) && written == |Wanted(key, events)|
    ensures !ok ==> Partial(before, redis.db, redis.now, events, done + {key})
    ensures !ok ==> StoppedAt(before, redis.db, key, scores, ExpiryFrom(redis.now, ttl), stops.value)
  {
    ghost var halfway := redis.db;
    written, ok := ReplaceKey(redis, key, ttl, scores, stops);
    if ok {
      ProgressGrows(before, halfway, redis.db, redis.now, events, done, key);
    } else {
      BrokenOff(before, halfway, redis.db, redis.now, events, done, key);
      assert SameAt(before, halfway, key) && SameAt(before, halfway, Rebuilding(key));
      StoppedSince(before, halfway, redis.db, key, scores, ExpiryFrom(redis.now, ttl), stops.value);
    }
  }

  /** How many entries the first n games' boards of a period take. */
  ghost function GamesEntries(p: Period, now: int, events: set<Event>, n: nat): nat
    requires n <= |SLUGS|
  {
    if n == 0 then 0
    else GamesEntries(p, now, events, n - 1) + |Wanted(BoardKey(Scope(SLUGS[n - 1]), p, now), events)|
  }

  ghost function PeriodEntries(p: Period, now: int, events: set<Event>): nat {
    GamesEntries(p, now, events, |SLUGS|) + |Wanted(BoardKey(GLOBAL, p, now), events)|
  }

  ghost function Entries(now: int, events: set<Event>, n: nat): nat
    requires n <= 4
  {
    if n == 0 then 0 else Entries(now, events, n - 1) + PeriodEntries(PERIODS[n - 1], now, events)
  }

  /** Every row that some keys' boards are to have, with its board. */
  ghost function RowsOn(keys: set<Key>, events: set<Event>): set<(Key, int)>
    requires forall k | k in keys :: k.Board?
  {
    set k, u | k in keys && u in Wanted(k, events).Keys :: (k, u)
  }

  function Paired(k: Key, users: set<int>): set<(Key, int)> {
    set u | u in users :: (k, u)
  }

  lemma {:induction false} PairedCount(k: Key, users: set<int>)
    ensures |Paired(k, users)| == |users|
    decreases users
  {
    if users == {} {
      assert Paired(k, users) == {};
    } else {
      var u := Any(users);
      PairedCount(k, users - {u});
      assert Paired(k, users) == Paired(k, users - {u}) + {(k, u)};
    }
  }

  lemma RowsOnGrow(keys: set<Key>, k: Key, events: set<Event>)
    requires (forall l | l in keys :: l.Board?) && k.Board? && k !in keys
    ensures |RowsOn(keys + {k}, events)| == |RowsOn(keys, events)| + |Wanted(k, events)|
  {
    assert RowsOn(keys + {k}, events) == RowsOn(keys, events) + Paired(k, Wanted(k, events).Keys);
    PairedCount(k, Wanted(k, events).Keys);
    assert |Wanted(k, events).Keys| == |Wanted(k, events)|;
  }

  lemma {:induction false} GamesEntriesAreRows(p: Period, now: int, events: set<Event>, n: nat, done: set<Key>)
    requires n <= |SLUGS| && (forall k | k in done :: k.Board? && k.period != p)
    ensures forall k | k in done + ScopesKeys(p, now, n) :: k.Board?
    ensures |RowsOn(done + ScopesKeys(p, now, n), events)| == |RowsOn(done, events)| + GamesEntries(p, now, events, n)
  {
    if n == 0 {
      assert done + ScopesKeys(p, now, 0) == done;
    } else {
      GamesEntriesAreRows(p, now, events, n - 1, done);
      GameNotDone(p, now, done, n - 1);
      RowsOnGrow(done + ScopesKeys(p, now, n - 1), BoardKey(Scope(SLUGS[n - 1]), p, now), events);
      assert done + ScopesKeys(p, now, n) == done + ScopesKeys(p, now, n - 1) + {BoardKey(Scope(SLUGS[n - 1]), p, now)};
    }
  }

  /** What a rebuild counts as entries is the number of rows on all the boards it rebuilt. */
  lemma {:induction false} EntriesAreRows(now: int, events: set<Event>, n: nat)
    requires n <= 4
    ensures forall k | k in PeriodsKeys(now, n) :: k.Board?
    ensures |RowsOn(PeriodsKeys(now, n), events)| == Entries(now, events, n)
  {
    if n == 0 {
      assert RowsOn({}, events) == {};
    } else {
      var p := PERIODS[n - 1];
      var done := PeriodsKeys(now, n - 1);
      EntriesAreRows(now, events, n - 1);
      DoneAreEarlier(now, n - 1);
      GamesEntriesAreRows(p, now, events, |SLUGS|, done);
      GlobalNotDone(p, now, done);
      RowsOnGrow(done + ScopesKeys(p, now, |SLUGS|), BoardKey(GLOBAL, p, now), events);
      assert PeriodsKeys(now, n) == done + ScopesKeys(p, now, |SLUGS|) + {BoardKey(GLOBAL, p, now)};
    }
  }

  /** The tallied boards of the games are those wanted for a window. */
  ghost predicate TalliedFor(perGame: map<string, map<int, int>>, p: Period, now: int, events: set<Event>) {
    forall g :: (if g in perGame then perGame[g] else map[]) == GameBoard(InWindow(events, p, Start(p, now)), g)
  }

  lemma GameIsWanted(perGame: map<string, map<int, int>>, p: Period, now: int, events: set<Event>, i: nat)
    requires TalliedFor(perGame, p, now, events) && i < |SLUGS|
    ensures (if SLUGS[i] in perGame then perGame[SLUGS[i]] else map[]) == Wanted(BoardKey(Scope(SLUGS[i]), p, now), events)
  {
    SlugsDistinct();
    assert SLUGS[i] in SLUGS;
  }

  lemma GameNotDone(p: Period, now: int, done: set<Key>, i: nat)
    requires i < |SLUGS| && forall k | k in done :: k.Board? && k.period != p
    ensures BoardKey(Scope(SLUGS[i]), p, now) !in done + ScopesKeys(p, now, i)
  {
    SlugsDistinct();
    ScopesKeysMembers(p, now, i, BoardKey(Scope(SLUGS[i]), p, now));
  }

  /** The boards of the first n games are done, with so many entries, and nothing stopped there. */
  ghost predicate GamesDone(before: Db, after: Db, p: Period, now: int, events: set<Event>, faults: Faults, done: set<Key>,
                            n: nat, entries: int)
    requires n <= |SLUGS|
  {
    && Progress(before, after, now, events, done + ScopesKeys(p, now, n)) && entries == GamesEntries(p, now, events, n)
    && NoStops(faults, ScopesKeys(p, now, n))
  }

  /** It broke off at one of the first n games. */
  ghost predicate GamesBroke(before: Db, after: Db, p: Period, now: int, events: set<Event>, faults: Faults, done: set<Key>, n: nat)
    requires n <= |SLUGS|
  {
    && Partial(before, after, now, events, done + ScopesKeys(p, now, n))
    && Broke(before, after, now, events, faults, done + ScopesKeys(p, now, n))
  }

  lemma NoGamesDone(before: Db, after: Db, p: Period, now: int, events: set<Event>, faults: Faults, done: set<Key>)
    requires Progress(before, after, now, events, done)
    ensures GamesDone(before, after, p, now, events, faults, done, 0, 0)
  {
    assert done + ScopesKeys(p, now, 0) == done;
  }

  /** Writes one more game's board. */
  method RebuildGame(redis: Server, p: Period, now: int, perGame: map<string, map<int, int>>, i: nat, faults: Faults,
                     ghost before: Db, ghost events: set<Event>, ghost done: set<Key>, ghost sofar: int)
    returns (written: nat, ok: bool)
    requires redis.Valid() && redis.now == now && i < |SLUGS| && TalliedFor(perGame, p, now, events)
    requires GamesDone(before, redis.db, p, now, events, faults, done, i, sofar)
    requires forall k | k in done :: k.Board? && k.period != p
    modifies redis`db
    ensures redis.Valid()
    ensures if ok then GamesDone(before, redis.db, p, now, events, faults, done, i + 1, sofar + written)
            else GamesBroke(before, redis.db, p, now, events, faults, done, i + 1)
  {
    GameIsWanted(perGame, p, now, events, i);
    GameNotDone(p, now, done, i);
    var slug := SLUGS[i];
    var key := BoardKey(Scope(slug), p, now);
    written, ok := ReplaceNext(redis, key, p.Ttl(), if slug in perGame then perGame[slug] else map[], faults.stops(key),
                               before, events, done + ScopesKeys(p, now, i));
    assert done + ScopesKeys(p, now, i + 1) == done + ScopesKeys(p, now, i) + {key};
    if ok {
      NoStopsGrows(faults, p, now, i);
    } else {
      assert BrokeAt(before, redis.db, now, events, faults, done + ScopesKeys(p, now, i + 1), key);
    }
  }

  lemma NoStopsGrows(faults: Faults, p: Period, now: int, i: nat)
    requires i < |SLUGS| && NoStops(faults, ScopesKeys(p, now, i)) && faults.stops(BoardKey(Scope(SLUGS[i]), p, now)).None?
    ensures NoStops(faults, ScopesKeys(p, now, i + 1))
  {
  }

  lemma {:induction false} ScopesKeysGrow(p: Period, now: int, i: nat, n: nat)
    requires i <= n <= |SLUGS|
    ensures ScopesKeys(p, now, i) <= ScopesKeys(p, now, n) && forall k | k in ScopesKeys(p, now, n) :: k.Board?
  {
    if i < n {
      ScopesKeysGrow(p, now, i, n - 1);
    } else if n > 0 {
      ScopesKeysGrow(p, now, n - 1, n - 1);
    }
  }

  lemma PartialGames(before: Db, after: Db, p: Period, now: int, events: set<Event>, faults: Faults, done: set<Key>, i: nat, n: nat)
    requires i <= n <= |SLUGS| && forall k | k in done :: k.Board?
    requires GamesBroke(before, after, p, now, events, faults, done, i)
    ensures GamesBroke(before, after, p, now, events, faults, done, n)
  {
    ScopesKeysGrow(p, now, i, n);
    BrokeOfMore(before, after, now, events, faults, done + ScopesKeys(p, now, i), done + ScopesKeys(p, now, n));
    PartialOfMore(before, after, now, events, done + ScopesKeys(p, now, i), done + ScopesKeys(p, now, n));
  }

  /** Writes the boards of the first n games. */
  method RebuildGames(redis: Server, p: Period, now: int, perGame: map<string, map<int, int>>, n: nat, faults: Faults,
                      ghost before: Db, ghost events: set<Event>, ghost done: set<Key>)
    returns (keys: nat, entries: nat, ok: bool)
    requires redis.Valid() && redis.now == now && n <= |SLUGS| && TalliedFor(perGame, p, now, events)
    requires Progress(before, redis.db, now, events, done) && forall k | k in done :: k.Board? && k.period != p
    modifies redis`db
    ensures redis.Valid()
    ensures if ok then GamesDone(before, redis.db, p, now, events, faults, done, n, entries) && keys == n
            else GamesBroke(before, redis.db, p, now, events, faults, done, n)
  {
    keys, entries := 0, 0;
    NoGamesDone(before, redis.db, p, now, events, faults, done);
    for i := 0 to n
      invariant redis.Valid() && keys == i
      invariant GamesDone(before, redis.db, p, now, events, faults, done, i, entries)
    {
      var written, fine := RebuildGame(redis, p, now, perGame, i, faults, before, events, done, entries);
      if !fine {
        PartialGames(before, redis.db, p, now, events, faults, done, i + 1, n);
        return 0, 0, false;
      }
      keys, entries := keys + 1, entries + written;
    }
    ok := true;
  }

  /** Writes one period's boards, for every game and then the cross-game total. */
  method RebuildPeriod(redis: Server, p: Period, now: int, rows: seq<Best>, faults: Faults,
                       ghost before: Db, ghost events: set<Event>, ghost done: set<Key>)
    returns (keys: nat, entries: nat, ok: bool)
    requires redis.Valid() && redis.now == now
    requires Grouped(rows) && SameBoards(RowEvents(rows), InWindow(events, p, Start(p, now)))
    requires forall e | e in events :: e.game in SLUGS
    requires Progress(before, redis.db, now, events, done) && forall k | k in done :: k.Board? && k.period != p
    modifies redis`db
    ensures redis.Valid()
    ensures ok ==>
              && Progress(before, redis.db, now, events, done + (ScopesKeys(p, now, |SLUGS|) + {BoardKey(GLOBAL, p, now)}))
              && keys == 6 && entries == PeriodEntries(p, now, events)
    ensures ok ==> NoStops(faults, ScopesKeys(p, now, |SLUGS|) + {BoardKey(GLOBAL, p, now)})
    ensures !ok ==> Partial(before, redis.db, now, events, done + (ScopesKeys(p, now, |SLUGS|) + {BoardKey(GLOBAL, p, now)}))
    ensures !ok ==> Broke(before, redis.db, now, events, faults, done + (ScopesKeys(p, now, |SLUGS|) + {BoardKey(GLOBAL, p, now)}))
  {
    var perGame, global := TallyWindow(rows, p, now, events);
    keys, entries, ok := RebuildGames(redis, p, now, perGame, |SLUGS|, faults, before, events, done);
    var key := BoardKey(GLOBAL, p, now);
    ghost var reached := done + ScopesKeys(p, now, |SLUGS|);
    if !ok {
      ScopesKeysGrow(p, now, |SLUGS|, |SLUGS|);
      PartialOfMore(before, redis.db, now, events, reached, done + (ScopesKeys(p, now, |SLUGS|) + {key}));
      BrokeOfMore(before, redis.db, now, events, faults, reached, done + (ScopesKeys(p, now, |SLUGS|) + {key}));
      return 0, 0, false;
    }
    GlobalNotDone(p, now, done);
    var written;
    written, ok := ReplaceNext(redis, key, p.Ttl(), global, faults.stops(key), before, events, reached);
    assert reached + {key} == done + (ScopesKeys(p, now, |SLUGS|) + {key});
    if !ok {
      assert BrokeAt(before, redis.db, now, events, faults, reached + {key}, key);
      return 0, 0, false;
    }
    keys, entries := keys + 1, entries + written;
  }

  method TallyWindow(rows: seq<Best>, p: Period, now: int, ghost events: set<Event>)
    returns (perGame: map<string, map<int, int>>, global: map<int, int>)
    requires Grouped(rows) && SameBoards(RowEvents(rows), InWindow(events, p, Start(p, now)))
    requires forall e | e in events :: e.game in SLUGS
    ensures TalliedFor(perGame, p, now, events) && global == Wanted(BoardKey(GLOBAL, p, now), events)
  {
    RowsAreOfTheGames(rows, InWindow(events, p, Start(p, now)));
    perGame, global := Tally(rows);
    SameGlobal(RowEvents(rows), InWindow(events, p, Start(p, now)));
  }

  lemma GlobalNotDone(p: Period, now: int, done: set<Key>)
    requires forall k | k in done :: k.Board? && k.period != p
    ensures BoardKey(GLOBAL, p, now) !in done + ScopesKeys(p, now, |SLUGS|)
  {
    SlugsDistinct();
    ScopesKeysMembers(p, now, |SLUGS|, BoardKey(GLOBAL, p, now));
  }

  /** What a rebuild comes to. */
  ghost predicate Rebuilt(before: Db, after: Db, now: int, events: set<Event>) {
    && (forall k | Current(k, now) :: Replaced(before, after, k, Wanted(k, events), ExpiryFrom(now, k.period.Ttl())))
    && (forall k | !Current(k, now) && !(k.Rebuilding? && Current(k.of, now)) :: SameAt(before, after, k))
  }

  /** A rebuilt board's key starts its time afresh, and an all-time one is kept for ever. */
  lemma RebuiltExpiry(before: Db, after: Db, now: int, events: set<Event>, k: Key)
    requires Rebuilt(before, after, now, events) && Current(k, now) && k in after
    ensures k.period == AllTime ==> after[k].expiry == None
    ensures k.period != AllTime ==> after[k].expiry == Some(now + k.period.Ttl())
  {
    assert Replaced(before, after, k, Wanted(k, events), ExpiryFrom(now, k.period.Ttl()));
  }

  /** What a rebuild that broke off comes to. */
  ghost predicate Unbroken(before: Db, after: Db, now: int, events: set<Event>) {
    && (forall k | Current(k, now) :: Untorn(before, after, k, Wanted(k, events), ExpiryFrom(now, k.period.Ttl())))
    && (forall k | !Current(k, now) && !(k.Rebuilding? && Current(k.of, now)) :: SameAt(before, after, k))
  }

  lemma AllPeriodsPartial(before: Db, after: Db, now: int, events: set<Event>)
    requires Partial(before, after, now, events, PeriodsKeys(now, 4))
    ensures Unbroken(before, after, now, events)
  {
    AllPeriodsCurrent(now);
  }

  /** Nothing goes wrong with anything the rebuild touches. */
  ghost predicate Untroubled(faults: Faults, now: int) {
    && faults.clock && (forall p: Period :: faults.history(p))
    && forall k | Current(k, now) :: faults.stops(k).None?
  }

  /** Why a rebuild broke off: it could not read the clock or the history, or stopped at a board, which then
      is as the commands that took effect leave it. */
  ghost predicate Stopped(before: Db, after: Db, now: int, events: set<Event>, faults: Faults) {
    || !faults.clock
    || (exists p: Period :: !faults.history(p))
    || exists k :: StoppedHere(before, after, now, events, faults, k)
  }

  ghost predicate StoppedHere(before: Db, after: Db, now: int, events: set<Event>, faults: Faults, k: Key) {
    && Current(k, now) && faults.stops(k).Some?
    && StoppedAt(before, after, k, Wanted(k, events), ExpiryFrom(now, k.period.Ttl()), faults.stops(k).value)
  }

  lemma StoppedIsTrouble(before: Db, after: Db, now: int, events: set<Event>, faults: Faults)
    requires Stopped(before, after, now, events, faults)
    ensures !Untroubled(faults, now)
  {
  }

  ghost predicate NoTrouble(faults: Faults, now: int, n: nat)
    requires n <= 4
  {
    faults.clock && (forall i: nat | i < n :: faults.history(PERIODS[i])) && NoStops(faults, PeriodsKeys(now, n))
  }

  lemma AllUntroubled(faults: Faults, now: int)
    requires NoTrouble(faults, now, 4)
    ensures Untroubled(faults, now)
  {
    AllPeriodsCurrent(now);
    forall p: Period ensures faults.history(p) {
      assert faults.history(PERIODS[PlaceOf(p)]);
    }
  }

  lemma AllPeriodsBroke(before: Db, after: Db, now: int, events: set<Event>, faults: Faults)
    requires Broke(before, after, now, events, faults, PeriodsKeys(now, 4))
    ensures Stopped(before, after, now, events, faults)
  {
    AllPeriodsCurrent(now);
    var k :| BrokeAt(before, after, now, events, faults, PeriodsKeys(now, 4), k);
    assert StoppedHere(before, after, now, events, faults, k);
  }

  lemma AllPeriodsCurrent(now: int)
    ensures forall k: Key :: k in PeriodsKeys(now, 4) <==> Current(k, now)
  {
    forall k: Key
      ensures k in PeriodsKeys(now, 4) <==> Current(k, now)
    {
      PeriodsKeysMembers(now, 4, k);
      assert PERIODS[..4] == [AllTime, Daily, Weekly, Monthly];
    }
  }

  lemma AllPeriodsDone(before: Db, after: Db, now: int, events: set<Event>)
    requires Progress(before, after, now, events, PeriodsKeys(now, 4))
    ensures Rebuilt(before, after, now, events)
  {
    AllPeriodsCurrent(now);
  }

  /** The rows of the window a period is in now. */
  method ReadWindow(log: seq<Event>, p: Period, now: int) returns (best: seq<Best>)
    requires now > ZERO_TIME && forall e | e in log :: e.at > ZERO_TIME
    ensures Grouped(best) && SameBoards(RowEvents(best), InWindow(EventsOf(log), p, Start(p, now)))
  {
    var window := Window(p, now);
    best := BestPoints(log, window.0, window.1);
    BoundsAreWindow(log, p, now);
  }

  lemma {:induction false} PeriodsKeysGrow(now: int, i: nat, n: nat)
    requires i <= n <= 4
    ensures PeriodsKeys(now, i) <= PeriodsKeys(now, n) && forall k | k in PeriodsKeys(now, n) :: k.Board?
  {
    if n > 0 {
      ScopesKeysGrow(PERIODS[n - 1], now, 0, |SLUGS|);
      PeriodsKeysGrow(now, if i < n then i else n - 1, n - 1);
    }
  }

  lemma PartialPeriods(before: Db, after: Db, now: int, events: set<Event>, i: nat, n: nat)
    requires i <= n <= 4 && Partial(before, after, now, events, PeriodsKeys(now, i))
    ensures Partial(before, after, now, events, PeriodsKeys(now, n))
  {
    PeriodsKeysGrow(now, i, n);
    PartialOfMore(before, after, now, events, PeriodsKeys(now, i), PeriodsKeys(now, n));
  }

  lemma BrokePeriods(before: Db, after: Db, now: int, events: set<Event>, faults: Faults, i: nat, n: nat)
    requires i <= n <= 4 && Broke(before, after, now, events, faults, PeriodsKeys(now, i))
    ensures Broke(before, after, now, events, faults, PeriodsKeys(now, n))
  {
    PeriodsKeysGrow(now, i, n);
    BrokeOfMore(before, after, now, events, faults, PeriodsKeys(now, i), PeriodsKeys(now, n));
  }

  /** The boards of the first n periods are done, and nothing went wrong. */
  ghost predicate PeriodsDone(before: Db, after: Db, now: int, events: set<Event>, faults: Faults, n: nat, keys: int, entries: int)
    requires n <= 4
  {
    && Progress(before, after, now, events, PeriodsKeys(now, n)) && NoTrouble(faults, now, n)
    && keys == 6 * n && entries == Entries(now, events, n)
  }

  /** It broke off: nothing is torn, and this is why. */
  ghost predicate RebuildBroke(before: Db, after: Db, now: int, events: set<Event>, faults: Faults) {
    Unbroken(before, after, now, events) && Stopped(before, after, now, events, faults)
  }

  lemma PeriodBroke(before: Db, after: Db, now: int, events: set<Event>, faults: Faults, i: nat)
    requires i < 4 && Partial(before, after, now, events, PeriodsKeys(now, i + 1))
    requires !faults.history(PERIODS[i]) || Broke(before, after, now, events, faults, PeriodsKeys(now, i + 1))
    ensures RebuildBroke(before, after, now, events, faults)
  {
    PartialPeriods(before, after, now, events, i + 1, 4);
    AllPeriodsPartial(before, after, now, events);
    if faults.history(PERIODS[i]) {
      BrokePeriods(before, after, now, events, faults, i + 1, 4);
      AllPeriodsBroke(before, after, now, events, faults);
    }
  }

  lemma PeriodDone(before: Db, after: Db, now: int, events: set<Event>, faults: Faults, i: nat, keys: int, entries: int, more: int)
    requires i < 4 && NoTrouble(faults, now, i) && faults.history(PERIODS[i])
    requires keys == 6 * i && entries == Entries(now, events, i) && more == PeriodEntries(PERIODS[i], now, events)
    requires Progress(before, after, now, events, PeriodsKeys(now, i + 1))
    requires NoStops(faults, ScopesKeys(PERIODS[i], now, |SLUGS|) + {BoardKey(GLOBAL, PERIODS[i], now)})
    ensures PeriodsDone(before, after, now, events, faults, i + 1, keys + 6, entries + more)
  {
  }

  /** The loop's body: one more period. */
  method RebuildNext(redis: Server, log: seq<Event>, i: nat, faults: Faults, ghost before: Db, ghost k: int, ghost n: int)
    returns (keys: nat, entries: nat, ok: bool)
    requires redis.Valid() && redis.now > ZERO_TIME && i < 4
    requires forall e | e in log :: ValidEvent(e)
    requires PeriodsDone(before, redis.db, redis.now, EventsOf(log), faults, i, k, n)
    modifies redis`db
    ensures redis.Valid()
    ensures if ok then PeriodsDone(before, redis.db, redis.now, EventsOf(log), faults, i + 1, k + keys, n + entries)
            else RebuildBroke(before, redis.db, redis.now, EventsOf(log), faults)
  {
    ghost var events := EventsOf(log);
    if !faults.history(PERIODS[i]) {
      ProgressIsPartial(before, redis.db, redis.now, events, PeriodsKeys(redis.now, i));
      PartialPeriods(before, redis.db, redis.now, events, i, i + 1);
      PeriodBroke(before, redis.db, redis.now, events, faults, i);
      return 0, 0, false;
    }
    var best := ReadWindow(log, PERIODS[i], redis.now);
    DoneAreEarlier(redis.now, i);
    keys, entries, ok := RebuildPeriod(redis, PERIODS[i], redis.now, best, faults, before, events, PeriodsKeys(redis.now, i));
    if ok {
      PeriodDone(before, redis.db, redis.now, events, faults, i, k, n, entries);
    } else {
      PeriodBroke(before, redis.db, redis.now, events, faults, i);
    }
  }

  /** Recreates the boards of all current windows from the recorded scores, whatever Redis held. It succeeds
      exactly if nothing it touches fails; one that breaks off leaves no board torn. */
  method Rebuild(redis: Server, log: seq<Event>, faults: Faults) returns (keys: nat, entries: nat, ok: bool)
    requires redis.Valid() && redis.now > ZERO_TIME
    requires forall e | e in log :: ValidEvent(e)
    modifies redis`db
    ensures redis.Valid() && (ok <==> Untroubled(faults, redis.now))
    ensures ok ==>
              && Rebuilt(old(redis.db), redis.db, redis.now, EventsOf(log))
              && keys == 24 && entries == Entries(redis.now, EventsOf(log), 4)
    ensures !ok ==> Unbroken(old(redis.db), redis.db, redis.now, EventsOf(log)) && keys == 0 && entries == 0
    ensures !ok ==> Stopped(old(redis.db), redis.db, redis.now, EventsOf(log), faults)
  {
    keys, entries := 0, 0;
    if !faults.clock {
      return 0, 0, false;
    }
    for i := 0 to |PERIODS|
      invariant redis.Valid()
      invariant PeriodsDone(old(redis.db), redis.db, redis.now, EventsOf(log), faults, i, keys, entries)
    {
      var k, n, fine := RebuildNext(redis, log, i, faults, old(redis.db), keys, entries);
      if !fine {
        StoppedIsTrouble(old(redis.db), redis.db, redis.now, EventsOf(log), faults);
        return 0, 0, false;
      }
      keys, entries := keys + k, entries + n;
    }
    AllPeriodsDone(old(redis.db), redis.db, redis.now, EventsOf(log));
    AllUntroubled(faults, redis.now);
    ok := true;
  }

  lemma DoneAreEarlier(now: int, i: nat)
    requires i < 4
    ensures forall k | k in PeriodsKeys(now, i) :: k.Board? && k.period != PERIODS[i]
  {
    forall k | k in PeriodsKeys(now, i)
      ensures k.Board? && k.period != PERIODS[i]
    {
      PeriodsKeysMembers(now, i, k);
    }
  }

  // ------------------------------------------------------------------------- what a rebuild promises

  lemma CurrentBoards(p: Period, now: int)
    ensures Current(Board(GLOBAL, p, Start(p, now)), now)
    ensures forall g | g in SLUGS :: Current(Board(Scope(g), p, Start(p, now)), now)
  {
  }

  /** Every current board holds the aggregate of the recorded scores of its window. */
  lemma RebuildMatches(before: Db, after: Db, now: int, events: set<Event>, p: Period)
    requires Rebuilt(before, after, now, events)
    ensures Matches(after, p, Start(p, now), InWindow(events, p, Start(p, now)))
  {
    var w := Start(p, now);
    SlugsDistinct();
    CurrentBoards(p, now);
    forall g | g in SLUGS
      ensures Scores(after, Board(Scope(g), p, w)) == GameBoard(InWindow(events, p, w), g)
    {
      assert Current(Board(Scope(g), p, w), now);
    }
    assert Scores(after, Board(GLOBAL, p, w)) == GlobalBoard(InWindow(events, p, w));
  }

  /** Whatever Redis held, a rebuild gives what publishing the recorded scores one by one would have. */
  lemma RebuildEqualsIncremental(states: seq<State>, steps: seq<Step>, before: Db, after: Db, k: Key)
    requires Path(states, steps) && Init(states[0])
    requires states[|steps|].published == Delivery.Recorded(states[|steps|])
    requires Rebuilt(before, after, states[|steps|].now, Delivery.Recorded(states[|steps|]))
    requires Current(k, states[|steps|].now)
    ensures Scores(after, k) == Scores(states[|steps|].db, k)
  {
    var s := states[|steps|];
    InitInv(states[0]);
    PathKeeps(states, steps);
    RebuildMatches(before, after, s.now, s.published, k.period);
    WindowsTile(k.period, s.now, s.now);
    assert Kept(k.period, k.start, s.now);
    assert Matches(s.db, k.period, k.start, InWindow(s.published, k.period, k.start));
    assert k.scope != GLOBAL ==> k.scope == Scope(k.scope.game);
  }

  /** Rebuilding again at once changes nothing at all. */
  lemma RebuildIdempotent(a: Db, b: Db, c: Db, now: int, events: set<Event>)
    requires Rebuilt(a, b, now, events) && Rebuilt(b, c, now, events)
    ensures b == c
  {
    forall k: Key
      ensures SameAt(b, c, k)
    {
      if Current(k, now) {
        assert Replaced(a, b, k, Wanted(k, events), ExpiryFrom(now, k.period.Ttl()));
        assert Replaced(b, c, k, Wanted(k, events), ExpiryFrom(now, k.period.Ttl()));
      } else if k.Rebuilding? && Current(k.of, now) {
        assert Replaced(a, b, k.of, Wanted(k.of, events), ExpiryFrom(now, k.of.period.Ttl()));
        assert Replaced(b, c, k.of, Wanted(k.of, events), ExpiryFrom(now, k.of.period.Ttl()));
      }
    }
    forall k | k in b ensures k in c && c[k] == b[k] {
      assert SameAt(b, c, k);
    }
    forall k | k in c ensures k in b {
      assert SameAt(b, c, k);
    }
  }

  /** A board's staging key is left over exactly when a rebuild that never finished had left it there
      and the board is empty now, since then the code does not go near it. */
  lemma StagingLeftover(before: Db, after: Db, now: int, events: set<Event>, k: Key)
    requires Rebuilt(before, after, now, events) && Current(k, now)
    ensures Rebuilding(k) in after <==> Rebuilding(k) in before && Wanted(k, events) == map[]
  {
    assert Replaced(before, after, k, Wanted(k, events), ExpiryFrom(now, k.period.Ttl()));
  }

  /** Publishing an event that the boards of a window already take in leaves them as they are. */
  lemma PublishingAgain(db: Db, after: Db, now: int, k: Key, events: set<Event>, e: Event)
    requires k.Board? && Published(db, after, now, events, e)
    requires Matches(db, k.period, k.start, InWindow(events, k.period, k.start))
    ensures Matches(after, k.period, k.start, InWindow(events, k.period, k.start))
  {
    SubmitRefines(db, after, now, k.period, k.start, events, e);
    assert events + {e} == events;
  }

  ghost predicate Published(before: Db, after: Db, now: int, events: set<Event>, e: Event) {
    e in events && e.game in SLUGS && Submitted(before, after, now, e.user, e.game, e.points, e.at)
  }

  lemma MatchedBoard(db: Db, k: Key, events: set<Event>)
    requires k.Board? && (k.scope == GLOBAL || k.scope.game in SLUGS)
    requires Matches(db, k.period, k.start, InWindow(events, k.period, k.start))
    ensures Scores(db, k) == Wanted(k, events)
  {
    assert k.scope != GLOBAL ==> k.scope == Scope(k.scope.game);
  }

  lemma {:induction false} PublishingOnlyRepeats(before: Db, dbs: seq<Db>, at: int, times: seq<int>, events: set<Event>, swept: seq<Event>, k: Key)
    requires |dbs| == |swept| + 1 && |times| == |swept|
    requires Rebuilt(before, dbs[0], at, events) && Current(k, at)
    requires forall i | 0 <= i < |swept| :: Published(dbs[i], dbs[i + 1], times[i], events, swept[i])
    ensures Matches(dbs[|swept|], k.period, k.start, InWindow(events, k.period, k.start))
  {
    if swept == [] {
      RebuildMatches(before, dbs[0], at, events, k.period);
    } else {
      var n := |swept| - 1;
      PublishingOnlyRepeats(before, dbs[..n + 1], at, times[..n], events, swept[..n], k);
      PublishingAgain(dbs[n], dbs[n + 1], times[n], k, events, swept[n]);
    }
  }

  /** Sweeping scores that a rebuild already took in, however many and often, changes no score on the
      rebuilt boards. */
  lemma SweepingAfterRebuild(before: Db, dbs: seq<Db>, at: int, times: seq<int>, events: set<Event>, swept: seq<Event>, k: Key)
    requires |dbs| == |swept| + 1 && |times| == |swept|
    requires Rebuilt(before, dbs[0], at, events) && Current(k, at)
    requires forall i | 0 <= i < |swept| :: Published(dbs[i], dbs[i + 1], times[i], events, swept[i])
    ensures Scores(dbs[|swept|], k) == Scores(dbs[0], k) == Wanted(k, events)
  {
    RebuildMatches(before, dbs[0], at, events, k.period);
    PublishingOnlyRepeats(before, dbs, at, times, events, swept, k);
    MatchedBoard(dbs[0], k, events);
    MatchedBoard(dbs[|swept|], k, events);
  }
}
