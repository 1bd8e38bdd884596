/** The part of Redis the leaderboards use: sorted sets under keys that may expire.

    A key is gone once its time has come, and a sorted set with no members does not exist. Nothing
    else happens while a command or a script runs, and its clock stands still meanwhile. */
module Redis {
  import opened Wrappers
  import opened Keys
  import opened Listing

  datatype ZSet = ZSet(scores: map<int, int>, expiry: Option<int>)

  type Db = map<Key, ZSet>

  predicate Alive(z: ZSet, now: int) {
    z.expiry.None? || now < z.expiry.value
  }

  ghost predicate ValidDb(db: Db, now: int) {
    forall k | k in db :: db[k].scores != map[] && Alive(db[k], now)
  }

  /** The members of a key, none for a key that does not exist. */
  function Scores(db: Db, k: Key): map<int, int> {
    if k in db then db[k].scores else map[]
  }

  function Expiry(db: Db, k: Key): Option<int> {
    if k in db then db[k].expiry else None
  }

  /** ZADD: a key that did not exist starts without an expiry. */
  function Added(db: Db, k: Key, member: int, points: int): Db {
    db[k := ZSet(Scores(db, k)[member := points], Expiry(db, k))]
  }

  /** ZINCRBY: a missing member counts from 0. */
  function Incremented(db: Db, k: Key, member: int, delta: int): Db {
    Added(db, k, member, (if member in Scores(db, k) then Scores(db, k)[member] else 0) + delta)
  }

  /** EXPIRE: nothing happens to a key that does not exist. */
  function Expiring(db: Db, k: Key, at: int): Db {
    if k in db then db[k := db[k].(expiry := Some(at))] else db
  }

  /** What is left of a database at a later time. */
  function Surviving(db: Db, now: int): Db {
    map k | k in db && Alive(db[k], now) :: db[k]
  }

  function Least(a: int, b: int): int {
    if a < b then a else b
  }

  function Ranged(scores: map<int, int>, start: nat, stop: int): seq<(int, int)> {
    FromTopLists(scores);
    var order := FromTop(scores);
    var end := Least(stop + 1, |order|);
    seq(if start < end then end - start else 0,
        i requires 0 <= i < end - start => (order[start + i], scores[order[start + i]]))
  }

  class Server {
    var now: int
    var db: Db

    constructor (start: int)
      ensures now == start && db == map[]
    {
      now := start;
      db := map[];
    }

    ghost predicate Valid()
      reads this
    {
      ValidDb(db, now)
    }

    /** Time passes, and keys whose time has come are gone. */
    method Advance(to: int)
      requires Valid() && now <= to
      modifies this
      ensures Valid() && now == to && db == Surviving(old(db), to)
    {
      now := to;
      db := Surviving(db, to);
    }

    method ZScore(k: Key, member: int) returns (r: Option<int>)
      ensures r == if member in Scores(db, k) then Some(Scores(db, k)[member]) else None
    {
      r := if member in Scores(db, k) then Some(Scores(db, k)[member]) else None;
    }

    method ZAdd(k: Key, member: int, points: int)
      requires Valid()
      modifies this`db
      ensures Valid() && db == Added(old(db), k, member, points)
    {
      db := Added(db, k, member, points);
      assert member in db[k].scores;
    }

    method ZIncrBy(k: Key, member: int, delta: int)
      requires Valid()
      modifies this`db
      ensures Valid() && db == Incremented(old(db), k, member, delta)
    {
      db := Incremented(db, k, member, delta);
      assert member in db[k].scores;
    }

    method ZCountAbove(k: Key, points: int) returns (n: nat)
      ensures n == |Above(Scores(db, k), points)|
    {
      n := |Above(Scores(db, k), points)|;
    }

    /** The members at positions start to stop, counted from the top, with their scores. */
    method ZRevRangeWithScores(k: Key, start: nat, stop: int) returns (rows: seq<(int, int)>)
      ensures rows == Ranged(Scores(db, k), start, stop)
    {
      rows := Ranged(Scores(db, k), start, stop);
    }

    /** A member's position, counted from the top. */
    method ZRevRank(k: Key, member: int) returns (r: Option<nat>)
      ensures r.Some? <==> member in Scores(db, k)
      ensures r.Some? ==> r.value < |FromTop(Scores(db, k))| && FromTop(Scores(db, k))[r.value] == member
    {
      var order := FromTop(Scores(db, k));
      FromTopLists(Scores(db, k));
      for i := 0 to |order|
        invariant member !in order[..i]
      {
        if order[i] == member {
          return Some(i);
        }
        assert order[..i + 1] == order[..i] + [order[i]];
      }
      assert order[..|order|] == order;
      r := None;
    }

    method ZCard(k: Key) returns (n: nat)
      ensures n == |Scores(db, k)|
    {
      n := |Scores(db, k)|;
    }

    method Exists(k: Key) returns (found: bool)
      ensures found <==> k in db
    {
      found := k in db;
    }

    /** Negative when there is nothing to expire: -2 for no key, -1 for a key kept for ever. */
    method Ttl(k: Key) returns (left: int)
      requires Valid()
      ensures left < 0 <==> Expiry(db, k).None?
    {
      if k !in db {
        left := -2;
      } else if db[k].expiry.None? {
        left := -1;
      } else {
        left := db[k].expiry.value - now;
      }
    }

    method Expire(k: Key, ttl: int)
      requires Valid() && ttl > 0
      modifies this`db
      ensures Valid() && db == Expiring(old(db), k, now + ttl)
    {
      db := Expiring(db, k, now + ttl);
    }

    method Del(k: Key)
      requires Valid()
      modifies this`db
      ensures Valid() && db == old(db) - {k}
    {
      db := db - {k};
    }

    /** RENAME replaces the target, expiry and all. */
    method Rename(from: Key, to: Key)
      requires Valid() && from in db && from != to
      modifies this`db
      ensures Valid() && db == (old(db) - {from})[to := old(db)[from]]
    {
      db := (db - {from})[to := db[from]];
    }
  }
}
