/** Recording one score across the eight boards it counts for, and why replaying scores is harmless:
    the boards always hold the aggregate of the events submitted so far. */
module Submit {
  import opened Wrappers
  import opened Windows
  import opened Keys
  import opened Listing
  import opened Redis
  import Ranking

  // ---------------------------------------------------------------- what the script does to one period

  function ScoreOrZero(db: Db, k: Key, member: int): int {
    if member in Scores(db, k) then Scores(db, k)[member] else 0
  }

  predicate Improves(db: Db, game: Key, member: int, points: int) {
    member !in Scores(db, game) || points > Scores(db, game)[member]
  }

  /** Two databases that differ in nothing but the named keys. */
  ghost predicate SameExcept(before: Db, after: Db, keys: set<Key>) {
    forall k | k !in keys :: SameAt(before, after, k)
  }

  predicate SameAt(before: Db, after: Db, k: Key) {
    (k in after <==> k in before) && (k in before ==> after[k] == before[k])
  }

  lemma SameExceptChains(a: Db, b: Db, c: Db, ks: set<Key>, ls: set<Key>)
    requires SameExcept(a, b, ks) && SameExcept(b, c, ls)
    ensures SameExcept(a, c, ks + ls)
  {
    forall k | k !in ks + ls
      ensures SameAt(a, c, k)
    {
      assert SameAt(a, b, k) && SameAt(b, c, k);
    }
  }

  /** The game's board takes a better score, and the cross-game board moves by the difference. Neither
      loses anything, and a key has come to exist only where a score was written. */
  predicate Recorded(before: Db, after: Db, game: Key, global: Key, member: int, points: int) {
    var improved := Improves(before, game, member, points);
    && (game in after <==> game in before || improved)
    && (global in after <==> global in before || improved)
    && Scores(after, game) == (if improved then Scores(before, game)[member := points] else Scores(before, game))
    && Scores(after, global) ==
       (if improved
        then Scores(before, global)[member := ScoreOrZero(before, global, member) + points - ScoreOrZero(before, game, member)]
        else Scores(before, global))
  }

  /** An expiry is given to a key that exists and has none yet, and never moved. */
  function ExpiryAfter(before: Db, after: Db, k: Key, now: int, ttl: int): Option<int> {
    if ttl > 0 && Expiry(before, k).None? && k in after then Some(now + ttl) else Expiry(before, k)
  }

  /** One round of the script, for one period. */
  predicate RoundDone(before: Db, after: Db, now: int, game: Key, global: Key, ttl: int, member: int, points: int) {
    && Recorded(before, after, game, global, member, points)
    && Expiry(after, game) == ExpiryAfter(before, after, game, now, ttl)
    && Expiry(after, global) == ExpiryAfter(before, after, global, now, ttl)
  }

  /** The databases a run of the script passes through. */
  ghost predicate Rounds(dbs: seq<Db>, now: int, keys: seq<Key>, ttls: seq<int>, member: int, points: int) {
    && |keys| == 8 && |ttls| == 4 && 1 <= |dbs| <= 5
    && forall i | 0 <= i < |dbs| - 1 ::
         && SameExcept(dbs[i], dbs[i + 1], {keys[i], keys[i + 4]})
         && RoundDone(dbs[i], dbs[i + 1], now, keys[i], keys[i + 4], ttls[i], member, points)
  }

  /** A member's score and competition rank: one more than the number of members scoring strictly
      higher. */
  datatype Standing = Standing(score: int, rank: int)

  function StandingIn(scores: map<int, int>, member: int): Standing {
    var score := if member in scores then scores[member] else 0;
    Standing(score, |Above(scores, score)| + 1)
  }

  /** What the script reports for a period. */
  datatype Reply = Reply(improved: bool, game: Standing, global: Standing)

  ghost predicate Describes(reply: Reply, before: Db, after: Db, game: Key, global: Key, member: int, points: int) {
    && reply.improved == Improves(before, game, member, points)
    && reply.game == StandingIn(Scores(after, game), member)
    && reply.global == StandingIn(Scores(after, global), member)
  }

  /** lua/submit.lua */
  method Script(redis: Server, keys: seq<Key>, member: int, points: int, ttls: seq<int>)
    returns (result: seq<Reply>, ghost dbs: seq<Db>)
    requires |keys| == 8 && |ttls| == 4 && redis.Valid()
    requires forall i | 0 <= i < 4 :: keys[i] != keys[i + 4]
    modifies redis`db
    ensures redis.Valid()
    ensures |dbs| == 5 && dbs[0] == old(redis.db) && dbs[4] == redis.db
    ensures Rounds(dbs, redis.now, keys, ttls, member, points)
    ensures |result| == 4
    ensures forall i | 0 <= i < 4 :: Describes(result[i], dbs[i], dbs[i + 1], keys[i], keys[i + 4], member, points)
  {
    result := [];
    dbs := [redis.db];
    for i := 0 to 4
      invariant redis.Valid()
      invariant |dbs| == i + 1 && dbs[0] == old(redis.db) && dbs[i] == redis.db
      invariant Rounds(dbs, redis.now, keys, ttls, member, points)
      invariant |result| == i
      invariant forall j | 0 <= j < i ::
                  Describes(result[j], dbs[j], dbs[j + 1], keys[j], keys[j + 4], member, points)
    {
      var reply := Round(redis, keys[i], keys[i + 4], ttls[i], member, points);
      result := result + [reply];
      dbs := dbs + [redis.db];
    }
  }

  /** One round of the script's loop. */
  method Round(redis: Server, game: Key, global: Key, ttl: int, member: int, points: int) returns (reply: Reply)
    requires redis.Valid() && game != global
    modifies redis`db
    ensures redis.Valid()
    ensures SameExcept(old(redis.db), redis.db, {game, global})
    ensures RoundDone(old(redis.db), redis.db, redis.now, game, global, ttl, member, points)
    ensures Describes(reply, old(redis.db), redis.db, game, global, member, points)
  {
    var improved := RecordBest(redis, game, global, member, points);
    if ttl > 0 {
      ghost var recorded := redis.db;
      ExpireOnce(redis, game, ttl);
      ghost var halfway := redis.db;
      assert SameAt(recorded, halfway, global);
      ExpireOnce(redis, global, ttl);
      assert SameAt(halfway, redis.db, game);
      SameExceptChains(recorded, halfway, redis.db, {game}, {global});
      assert {game} + {global} == {game, global};
      SameExceptChains(old(redis.db), recorded, redis.db, {game, global}, {game, global});
      assert {game, global} + {game, global} == {game, global};
    }
    var inGame := StandingOf(redis, game, member);
    var inGlobal := StandingOf(redis, global, member);
    reply := Reply(improved, inGame, inGlobal);
  }

  /** Reads the old score, decides whether the new one beats it, and moves both boards if so. */
  method RecordBest(redis: Server, game: Key, global: Key, member: int, points: int) returns (improved: bool)
    requires redis.Valid() && game != global
    modifies redis`db
    ensures redis.Valid()
    ensures improved == Improves(old(redis.db), game, member, points)
    ensures SameExcept(old(redis.db), redis.db, {game, global})
    ensures Recorded(old(redis.db), redis.db, game, global, member, points)
    ensures Expiry(redis.db, game) == old(Expiry(redis.db, game))
    ensures Expiry(redis.db, global) == old(Expiry(redis.db, global))
  {
    var previous := redis.ZScore(game, member);
    if previous.None? {
      Raise(redis, game, global, member, points, points);
      return true;
    }
    if points > previous.value {
      Raise(redis, game, global, member, points, points - previous.value);
      return true;
    }
    return false;
  }

  /** Sets a score on the game's board and adds to the cross-game one. */
  method Raise(redis: Server, game: Key, global: Key, member: int, points: int, delta: int)
    requires redis.Valid() && game != global
    modifies redis`db
    ensures redis.Valid() && game in redis.db && global in redis.db
    ensures SameExcept(old(redis.db), redis.db, {game, global})
    ensures Scores(redis.db, game) == old(Scores(redis.db, game))[member := points]
    ensures Scores(redis.db, global) == old(Scores(redis.db, global))[member := ScoreOrZero(old(redis.db), global, member) + delta]
    ensures Expiry(redis.db, game) == old(Expiry(redis.db, game))
    ensures Expiry(redis.db, global) == old(Expiry(redis.db, global))
  {
    redis.ZAdd(game, member, points);
    redis.ZIncrBy(global, member, delta);
  }

  /** Only a key with no expiry yet is given one, so that a window's keys do roll over. */
  method ExpireOnce(redis: Server, k: Key, ttl: int)
    requires redis.Valid() && ttl > 0
    modifies redis`db
    ensures redis.Valid()
    ensures SameExcept(old(redis.db), redis.db, {k}) && (k in redis.db <==> k in old(redis.db))
    ensures Scores(redis.db, k) == old(Scores(redis.db, k))
    ensures Expiry(redis.db, k) == ExpiryAfter(old(redis.db), old(redis.db), k, redis.now, ttl)
  {
    var left := redis.Ttl(k);
    if left < 0 {
      redis.Expire(k, ttl);
    }
  }

  method StandingOf(redis: Server, k: Key, member: int) returns (standing: Standing)
    ensures standing == StandingIn(Scores(redis.db, k), member)
  {
    var found := redis.ZScore(k, member);
    var above := redis.ZCountAbove(k, found.GetOr(0));
    standing := Standing(found.GetOr(0), above + 1);
  }

  // ------------------------------------------------------------------------------ the eight keys

  function Changes(game: string, at: int): (keys: seq<Key>)
    ensures |keys| == 8
    ensures forall i | 0 <= i < 4 ::
              keys[i] == BoardKey(Scope(game), PERIODS[i], at) && keys[i + 4] == BoardKey(GLOBAL, PERIODS[i], at)
  {
    [BoardKey(Scope(game), AllTime, at), BoardKey(Scope(game), Daily, at),
     BoardKey(Scope(game), Weekly, at), BoardKey(Scope(game), Monthly, at),
     BoardKey(GLOBAL, AllTime, at), BoardKey(GLOBAL, Daily, at),
     BoardKey(GLOBAL, Weekly, at), BoardKey(GLOBAL, Monthly, at)]
  }

  predicate Counts(k: Key, game: string, at: int) {
    k.Board? && (k.scope == Scope(game) || k.scope == GLOBAL) && k.start == Start(k.period, at)
  }

  /** What recording a score comes to: every period's two boards move as its round says, judged
      against the database the script started from, and no other key is touched. */
  ghost predicate Submitted(before: Db, after: Db, now: int, user: int, game: string, points: int, at: int) {
    && (forall k | !Counts(k, game, at) :: SameAt(before, after, k))
    && (forall p: Period ::
          RoundDone(before, after, now, BoardKey(Scope(game), p, at), BoardKey(GLOBAL, p, at), p.Ttl(), user, points))
  }

  const TTLS: seq<int> := [AllTime.Ttl(), Daily.Ttl(), Weekly.Ttl(), Monthly.Ttl()]

  lemma RoundLeavesOthers(dbs: seq<Db>, now: int, game: string, user: int, points: int, at: int, i: int, k: Key)
    requires Rounds(dbs, now, Changes(game, at), TTLS, user, points)
    requires 0 <= i < |dbs| - 1
    requires !Counts(k, game, at) || k.period != PERIODS[i]
    ensures SameAt(dbs[i], dbs[i + 1], k)
  {
    assert k !in {Changes(game, at)[i], Changes(game, at)[i + 4]};
  }

  lemma {:induction false} UntouchedUntil(dbs: seq<Db>, now: int, game: string, user: int, points: int, at: int, i: int, j: int, k: Key)
    requires Rounds(dbs, now, Changes(game, at), TTLS, user, points)
    requires 0 <= i <= j < |dbs|
    requires !Counts(k, game, at) || forall r | i <= r < j :: k.period != PERIODS[r]
    ensures SameAt(dbs[i], dbs[j], k)
    decreases j - i
  {
    if i < j {
      UntouchedUntil(dbs, now, game, user, points, at, i, j - 1, k);
      RoundLeavesOthers(dbs, now, game, user, points, at, j - 1, k);
    }
  }

  /** The rounds of different periods do not meet, so each can be judged from the start. */
  lemma RoundsAreIndependent(dbs: seq<Db>, now: int, game: string, user: int, points: int, at: int)
    requires |dbs| == 5 && Rounds(dbs, now, Changes(game, at), TTLS, user, points)
    ensures Submitted(dbs[0], dbs[4], now, user, game, points, at)
  {
    forall k | !Counts(k, game, at)
      ensures SameAt(dbs[0], dbs[4], k)
    {
      UntouchedUntil(dbs, now, game, user, points, at, 0, 4, k);
    }
    forall p: Period
      ensures RoundDone(dbs[0], dbs[4], now, BoardKey(Scope(game), p, at), BoardKey(GLOBAL, p, at), p.Ttl(), user, points)
    {
      var i := PlaceOf(p);
      var own, global := BoardKey(Scope(game), p, at), BoardKey(GLOBAL, p, at);
      UntouchedUntil(dbs, now, game, user, points, at, 0, i, own);
      UntouchedUntil(dbs, now, game, user, points, at, 0, i, global);
      UntouchedUntil(dbs, now, game, user, points, at, i + 1, 4, own);
      UntouchedUntil(dbs, now, game, user, points, at, i + 1, 4, global);
      RoundMoves(dbs[0], dbs[i], dbs[i + 1], dbs[4], now, own, global, TTLS[i], user, points);
    }
  }

  lemma RoundMoves(a: Db, b: Db, c: Db, d: Db, now: int, game: Key, global: Key, ttl: int, user: int, points: int)
    requires SameAt(a, b, game) && SameAt(a, b, global) && SameAt(c, d, game) && SameAt(c, d, global)
    requires RoundDone(b, c, now, game, global, ttl, user, points)
    ensures RoundDone(a, d, now, game, global, ttl, user, points)
  {
  }

  // ------------------------------------------------------------------------------ Board.Submit

  datatype Placement = Placement(improved: map<Period, bool>, game: map<Period, Standing>, global: map<Period, Standing>)

  /** The announcements for the first n periods: both boards of each period that improved. */
  function Notices(improved: map<Period, bool>, game: string, n: nat): seq<(string, Period)>
    requires n <= 4 && forall i | 0 <= i < n :: PERIODS[i] in improved
  {
    if n == 0 then []
    else
      var p := PERIODS[n - 1];
      Notices(improved, game, n - 1) + if improved[p] then [(game, p), (GLOBAL.Name(), p)] else []
  }

  /** Records a score and says where it puts the user. An instant of zero means now. */
  method Submit(redis: Server, user: int, game: string, points: int, at: int)
    returns (placement: Placement, notices: seq<(string, Period)>)
    requires redis.Valid() && game != ""
    modifies redis`db
    ensures redis.Valid()
    ensures Submitted(old(redis.db), redis.db, redis.now, user, game, points, if at == ZERO_TIME then redis.now else at)
    ensures Places(placement, old(redis.db), redis.db, user, game, points, if at == ZERO_TIME then redis.now else at)
    ensures Informs(placement, redis.db, user, game, if at == ZERO_TIME then redis.now else at)
    ensures notices == Notices(placement.improved, game, 4)
  {
    var t := if at == ZERO_TIME then redis.now else at;
    var keys, ttls := Arguments(game, t);
    var raw, dbs := Script(redis, keys, user, points, ttls);
    placement := Collect(raw);
    notices := Announce(game, placement);

    RoundsAreIndependent(dbs, redis.now, game, user, points, t);
    RepliesPlace(dbs, redis.now, game, user, points, t, raw, placement);
    PlacementInforms(placement, dbs[0], dbs[4], redis.now, user, game, points, t);
  }

  /** The placement tells, for every period, whether the player's best improved and where the player
      now stands on the two boards. */
  ghost predicate Places(placement: Placement, before: Db, after: Db, user: int, game: string, points: int, at: int) {
    && (forall p: Period ::
          && p in placement.improved && p in placement.game && p in placement.global
          && placement.improved[p] == Improves(before, BoardKey(Scope(game), p, at), user, points)
          && placement.game[p] == StandingIn(Scores(after, BoardKey(Scope(game), p, at)), user)
          && placement.global[p] == StandingIn(Scores(after, BoardKey(GLOBAL, p, at)), user))
    && (forall i | 0 <= i < 4 :: PERIODS[i] in placement.improved)
  }

  /** The listing a player is ranked in: the board, with nothing for a player who is not on it. */
  function Listed(scores: map<int, int>, user: int): map<int, int> {
    if user in scores then scores else scores[user := 0]
  }

  /** A player's own row has the points and the rank told. */
  ghost predicate IsRow(standing: Standing, scores: map<int, int>, user: int, i: nat) {
    i < |Ranking.Rows(scores)| && Ranking.Rows(scores)[i] == Ranking.Entry(standing.rank, user, standing.score)
  }

  /** The points told first come at the place that is the rank told, counting from one. */
  ghost predicate IsPlace(standing: Standing, scores: map<int, int>, j: nat) {
    && j < |Ranking.Rows(scores)| && Ranking.Rows(scores)[j].points == standing.score && standing.rank == j + 1
    && forall k | 0 <= k < j :: Ranking.Rows(scores)[k].points > standing.score
  }

  /** What a player is told of a board is true of its listing. */
  ghost predicate TellsTrue(standing: Standing, scores: map<int, int>, user: int) {
    && (exists i: nat :: IsRow(standing, Listed(scores, user), user, i))
    && (exists j: nat :: IsPlace(standing, Listed(scores, user), j))
  }

  lemma {:induction false} FirstOfPoints(scores: map<int, int>, i: nat) returns (j: nat)
    requires i < |Ranking.Rows(scores)|
    ensures j <= i && Ranking.Rows(scores)[j].points == Ranking.Rows(scores)[i].points
    ensures forall k | 0 <= k < j :: Ranking.Rows(scores)[k].points > Ranking.Rows(scores)[i].points
    decreases i
  {
    if i > 0 && Ranking.Rows(scores)[i - 1].points == Ranking.Rows(scores)[i].points {
      j := FirstOfPoints(scores, i - 1);
    } else {
      j := i;
      forall k | 0 <= k < j ensures Ranking.Rows(scores)[k].points > Ranking.Rows(scores)[i].points {
        Ranking.RowsDescend(scores, i - 1, i);
        if k < i - 1 {
          Ranking.RowsDescend(scores, k, i - 1);
        }
      }
    }
  }

  lemma SamePointsSameRank(scores: map<int, int>, i: nat, j: nat)
    requires i < |Ranking.Rows(scores)| && j < |Ranking.Rows(scores)|
    requires Ranking.Rows(scores)[i].points == Ranking.Rows(scores)[j].points
    ensures Ranking.Rows(scores)[i].rank == Ranking.Rows(scores)[j].rank
  {
    Ranking.RowsFollowOrder(scores, i);
    Ranking.RowsFollowOrder(scores, j);
  }

  lemma NothingAdded(scores: map<int, int>, user: int)
    ensures StandingIn(Listed(scores, user), user) == StandingIn(scores, user)
  {
    assert Above(Listed(scores, user), StandingIn(scores, user).score) == Above(scores, StandingIn(scores, user).score);
  }

  /** The script's count of higher scores comes to the rank of the player's row, which is where the player's
      points first come in the listing. */
  lemma StandingTellsTrue(scores: map<int, int>, user: int)
    ensures TellsTrue(StandingIn(scores, user), scores, user)
  {
    var listed, standing := Listed(scores, user), StandingIn(scores, user);
    NothingAdded(scores, user);
    Ranking.MemberHasRow(listed, user);
    var i :| 0 <= i < |Ranking.Rows(listed)| && Ranking.Rows(listed)[i] == Ranking.Row(listed, user);
    assert IsRow(standing, listed, user, i);
    var j := FirstOfPoints(listed, i);
    if j > 0 {
      assert Ranking.Rows(listed)[j - 1].points > Ranking.Rows(listed)[i].points;
    }
    Ranking.RankAtPosition(listed, j);
    SamePointsSameRank(listed, i, j);
    assert IsPlace(standing, listed, j);
  }

  /** A page read while the board stands still shows the player just so. */
  lemma PageShowsStanding(standing: Standing, scores: map<int, int>, user: int, from: nat, limit: nat, n: nat)
    requires TellsTrue(standing, scores, user) && user in scores
    requires n < |Ranking.Slice(scores, from, limit)| && Ranking.Slice(scores, from, limit)[n].user == user
    ensures Ranking.Slice(scores, from, limit)[n] == Ranking.Entry(standing.rank, user, standing.score)
  {
    var i: nat :| IsRow(standing, scores, user, i);
    assert Ranking.Rows(scores)[from + n].user == user;
    if i < from + n {
      Ranking.RowsDescend(scores, i, from + n);
    } else if from + n < i {
      Ranking.RowsDescend(scores, from + n, i);
    }
  }

  /** And whoever is told a rank of one leads. */
  lemma LeaderIsFirst(standing: Standing, scores: map<int, int>, user: int)
    requires TellsTrue(standing, scores, user) && user in scores
    ensures standing.score == scores[user] && standing.rank >= 1
    ensures standing.rank == 1 <==> forall u | u in scores :: scores[u] <= scores[user]
  {
    var i: nat :| IsRow(standing, scores, user, i);
    Ranking.RowsFollowOrder(scores, i);
    var j: nat :| IsPlace(standing, scores, j);
    if j > 0 {
      Ranking.RowsFollowOrder(scores, 0);
      assert Ranking.Rows(scores)[0].points > standing.score;
    } else {
      forall u | u in scores ensures scores[u] <= scores[user] {
        Ranking.MemberHasRow(scores, u);
        var k :| 0 <= k < |Ranking.Rows(scores)| && Ranking.Rows(scores)[k] == Ranking.Row(scores, u);
        if k > 0 {
          Ranking.RowsDescend(scores, 0, k);
        }
      }
    }
  }

  /** After a submit the player is on the game's board of every period, and is told what is true of both
      boards as they now are. */
  ghost predicate Informs(placement: Placement, after: Db, user: int, game: string, at: int) {
    forall p: Period ::
      && p in placement.game && p in placement.global
      && user in Scores(after, BoardKey(Scope(game), p, at))
      && TellsTrue(placement.game[p], Scores(after, BoardKey(Scope(game), p, at)), user)
      && TellsTrue(placement.global[p], Scores(after, BoardKey(GLOBAL, p, at)), user)
  }

  lemma PlacementInforms(placement: Placement, before: Db, after: Db, now: int, user: int, game: string, points: int, at: int)
    requires Submitted(before, after, now, user, game, points, at) && Places(placement, before, after, user, game, points, at)
    ensures Informs(placement, after, user, game, at)
  {
    forall p: Period
      ensures user in Scores(after, BoardKey(Scope(game), p, at))
      ensures TellsTrue(placement.game[p], Scores(after, BoardKey(Scope(game), p, at)), user)
      ensures TellsTrue(placement.global[p], Scores(after, BoardKey(GLOBAL, p, at)), user)
    {
      assert RoundDone(before, after, now, BoardKey(Scope(game), p, at), BoardKey(GLOBAL, p, at), p.Ttl(), user, points);
      StandingTellsTrue(Scores(after, BoardKey(Scope(game), p, at)), user);
      StandingTellsTrue(Scores(after, BoardKey(GLOBAL, p, at)), user);
    }
  }

  /** The script's arguments: the eight keys in its order, then the expiries. */
  method Arguments(game: string, at: int) returns (keys: seq<Key>, ttls: seq<int>)
    ensures keys == Changes(game, at) && ttls == TTLS
  {
    keys, ttls := [], [];
    for i := 0 to 4
      invariant keys == Changes(game, at)[..i]
    {
      keys := keys + [BoardKey(Scope(game), PERIODS[i], at)];
    }
    for i := 0 to 4
      invariant keys == Changes(game, at)[..4 + i]
    {
      keys := keys + [BoardKey(GLOBAL, PERIODS[i], at)];
    }
    for i := 0 to 4
      invariant ttls == TTLS[..i]
    {
      ttls := ttls + [PERIODS[i].Ttl()];
    }
  }

  method Collect(raw: seq<Reply>) returns (placement: Placement)
    requires |raw| == 4
    ensures forall i | 0 <= i < 4 :: Placed(placement, PERIODS[i], raw[i])
  {
    placement := Placement(map[], map[], map[]);
    for i := 0 to 4
      invariant forall j | 0 <= j < i :: Placed(placement, PERIODS[j], raw[j])
    {
      var p := PERIODS[i];
      placement := Placement(placement.improved[p := raw[i].improved],
                             placement.game[p := raw[i].game], placement.global[p := raw[i].global]);
    }
  }

  predicate Placed(placement: Placement, p: Period, reply: Reply) {
    && p in placement.improved && placement.improved[p] == reply.improved
    && p in placement.game && placement.game[p] == reply.game
    && p in placement.global && placement.global[p] == reply.global
  }

  /** A period's reply, given after its own round, still describes the boards at the end. */
  lemma ReplyHoldsThroughout(dbs: seq<Db>, now: int, game: string, user: int, points: int, at: int, i: int, reply: Reply)
    requires |dbs| == 5 && Rounds(dbs, now, Changes(game, at), TTLS, user, points)
    requires 0 <= i < 4
    requires Describes(reply, dbs[i], dbs[i + 1], Changes(game, at)[i], Changes(game, at)[i + 4], user, points)
    ensures Describes(reply, dbs[0], dbs[4], BoardKey(Scope(game), PERIODS[i], at), BoardKey(GLOBAL, PERIODS[i], at), user, points)
  {
    var own, global := BoardKey(Scope(game), PERIODS[i], at), BoardKey(GLOBAL, PERIODS[i], at);
    UntouchedUntil(dbs, now, game, user, points, at, 0, i, own);
    UntouchedUntil(dbs, now, game, user, points, at, i + 1, 4, own);
    UntouchedUntil(dbs, now, game, user, points, at, i + 1, 4, global);
  }

  lemma RepliesPlace(dbs: seq<Db>, now: int, game: string, user: int, points: int, at: int, raw: seq<Reply>, placement: Placement)
    requires |dbs| == 5 && Rounds(dbs, now, Changes(game, at), TTLS, user, points)
    requires |raw| == 4
    requires forall i | 0 <= i < 4 ::
               Describes(raw[i], dbs[i], dbs[i + 1], Changes(game, at)[i], Changes(game, at)[i + 4], user, points)
    requires forall i | 0 <= i < 4 :: Placed(placement, PERIODS[i], raw[i])
    ensures Places(placement, dbs[0], dbs[4], user, game, points, at)
  {
    forall p: Period
      ensures && p in placement.improved && p in placement.game && p in placement.global
              && placement.improved[p] == Improves(dbs[0], BoardKey(Scope(game), p, at), user, points)
              && placement.game[p] == StandingIn(Scores(dbs[4], BoardKey(Scope(game), p, at)), user)
              && placement.global[p] == StandingIn(Scores(dbs[4], BoardKey(GLOBAL, p, at)), user)
    {
      var i := PlaceOf(p);
      assert Placed(placement, PERIODS[i], raw[i]);
      ReplyHoldsThroughout(dbs, now, game, user, points, at, i, raw[i]);
    }
  }

  /** Announcements go out exactly for the periods whose game board changed. A cross-game board never
      changes without one, and changes with one except for a first score worth nothing of a player who is
      on that board already. */
  lemma AnnouncedWhenChanged(placement: Placement, before: Db, after: Db, now: int, user: int, game: string, points: int, at: int, p: Period)
    requires game != "" && game != GLOBAL.Name()
    requires Submitted(before, after, now, user, game, points, at)
    requires Places(placement, before, after, user, game, points, at)
    ensures var own, global := BoardKey(Scope(game), p, at), BoardKey(GLOBAL, p, at);
            && ((game, p) in Notices(placement.improved, game, 4) <==> Scores(after, own) != Scores(before, own))
            && (Scores(after, global) != Scores(before, global) <==>
                  && (GLOBAL.Name(), p) in Notices(placement.improved, game, 4)
                  && (user !in Scores(before, global) || points != ScoreOrZero(before, own, user)))
  {
    NoticesMembers(placement.improved, game, 4, p);
    assert PERIODS[PlaceOf(p)] == p;
    var own, global := BoardKey(Scope(game), p, at), BoardKey(GLOBAL, p, at);
    RoundChanges(before, after, now, own, global, p.Ttl(), user, points);
  }

  /** When a round changes a board: the game's when the score improves on it, the cross-game board when it
      then gains a player or moves. */
  lemma RoundChanges(before: Db, after: Db, now: int, game: Key, global: Key, ttl: int, user: int, points: int)
    requires RoundDone(before, after, now, game, global, ttl, user, points)
    ensures Scores(after, game) != Scores(before, game) <==> Improves(before, game, user, points)
    ensures Scores(after, global) != Scores(before, global) <==>
            Improves(before, game, user, points) && (user !in Scores(before, global) || points != ScoreOrZero(before, game, user))
  {
    if Improves(before, game, user, points) {
      assert Scores(after, game)[user] == points;
      if user in Scores(before, global) && points == ScoreOrZero(before, game, user) {
        assert Scores(before, global)[user := Scores(before, global)[user]] == Scores(before, global);
      } else {
        assert Scores(after, global)[user] == ScoreOrZero(before, global, user) + points - ScoreOrZero(before, game, user);
      }
    }
  }

  lemma {:induction false} NoticesMembers(improved: map<Period, bool>, game: string, n: nat, p: Period)
    requires n <= 4 && forall i | 0 <= i < n :: PERIODS[i] in improved
    ensures (game, p) in Notices(improved, game, n) || (GLOBAL.Name(), p) in Notices(improved, game, n) ==>
              exists i :: 0 <= i < n && PERIODS[i] == p && improved[p]
    ensures (exists i :: 0 <= i < n && PERIODS[i] == p && improved[p]) ==>
              (game, p) in Notices(improved, game, n) && (GLOBAL.Name(), p) in Notices(improved, game, n)
  {
    if n > 0 {
      NoticesMembers(improved, game, n - 1, p);
      var q := PERIODS[n - 1];
      assert Notices(improved, game, n) ==
             Notices(improved, game, n - 1) + if improved[q] then [(game, q), (GLOBAL.Name(), q)] else [];
    }
  }

  /** They come in the order of the periods, the game's board before the cross-game one, and none twice. */
  lemma {:induction false} NoticesInOrder(improved: map<Period, bool>, game: string, n: nat, i: nat, j: nat)
    requires n <= 4 && (forall k | 0 <= k < n :: PERIODS[k] in improved) && game != GLOBAL.Name()
    requires i < j < |Notices(improved, game, n)|
    ensures var a, b := Notices(improved, game, n)[i], Notices(improved, game, n)[j];
            PlaceOf(a.1) < PlaceOf(b.1) < n || (a.1 == b.1 && PlaceOf(a.1) < n && a.0 == game && b.0 == GLOBAL.Name())
  {
    if n > 0 {
      var p := PERIODS[n - 1];
      var before := Notices(improved, game, n - 1);
      if j < |before| {
        NoticesInOrder(improved, game, n - 1, i, j);
      } else if i < |before| {
        NoticesNamed(improved, game, n - 1, i);
      }
    }
  }

  lemma {:induction false} NoticesNamed(improved: map<Period, bool>, game: string, n: nat, i: nat)
    requires n <= 4 && (forall k | 0 <= k < n :: PERIODS[k] in improved) && i < |Notices(improved, game, n)|
    ensures PlaceOf(Notices(improved, game, n)[i].1) < n
  {
    var before := Notices(improved, game, n - 1);
    if i < |before| {
      NoticesNamed(improved, game, n - 1, i);
    }
  }

  /** Only the periods that improved are announced, on both scopes. */
  method Announce(game: string, placement: Placement) returns (notices: seq<(string, Period)>)
    requires forall i | 0 <= i < 4 :: PERIODS[i] in placement.improved
    ensures notices == Notices(placement.improved, game, 4)
  {
    notices := [];
    for i := 0 to 4
      invariant notices == Notices(placement.improved, game, i)
    {
      var p := PERIODS[i];
      if placement.improved[p] {
        notices := notices + [(game, p)];
        notices := notices + [(GLOBAL.Name(), p)];
      }
    }
  }
}
