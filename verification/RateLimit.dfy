/** The fixed-window limiter: one counter per key, in milliseconds. */
module RateLimit {
  import opened Wrappers
  import opened Sets

  datatype Counter = Absent | Counter(count: nat, expiry: Option<int>)

  datatype Answer = Answer(allowed: bool, remaining: int, retryAfter: int)

  /** A counter whose time has come is gone. */
  function Seen(c: Counter, now: int): Counter {
    if c.Counter? && c.expiry.Some? && c.expiry.value <= now then Absent else c
  }

  /** The counter one request leaves behind: a new one expires a window from now, and so does an old
      one that for some reason had no expiry. */
  function Bumped(c: Counter, now: int, window: int): Counter {
    var seen := Seen(c, now);
    if seen.Absent? || seen.count == 0 then Counter(1, Some(now + window))
    else Counter(seen.count + 1, Some(seen.expiry.GetOr(now + window)))
  }

  predicate Permits(c: Counter, now: int, limit: int, window: int) {
    Bumped(c, now, window).count <= limit
  }

  class Limiter {
    var now: int
    var counter: Counter

    constructor (now: int)
      ensures this.now == now && counter == Absent
    {
      this.now, counter := now, Absent;
    }

    /** lua/fixed_window.lua */
    method Allow(limit: int, window: int) returns (answer: Answer)
      requires window > 0
      modifies this`counter
      ensures counter == Bumped(old(counter), now, window)
      ensures answer.allowed == Permits(old(counter), now, limit, window)
      ensures answer.remaining == if answer.allowed then limit - counter.count else 0
      ensures answer.retryAfter == counter.expiry.value - now > 0
    {
      counter := Seen(counter, now);
      var count := Incr();
      if count == 1 {
        Expire(window);
      }
      var ttl := Ttl();
      if ttl < 0 {
        Expire(window);
        ttl := window;
      }
      if count > limit {
        return Answer(false, 0, ttl);
      }
      return Answer(true, limit - count, ttl);
    }

    method Incr() returns (count: nat)
      modifies this`counter
      ensures counter == match old(counter) case Absent => Counter(1, None) case Counter(n, e) => Counter(n + 1, e)
      ensures count == counter.count
    {
      counter := match counter case Absent => Counter(1, None) case Counter(n, e) => Counter(n + 1, e);
      count := counter.count;
    }

    method Expire(window: int)
      requires counter.Counter?
      modifies this`counter
      ensures counter == old(counter).(expiry := Some(now + window))
    {
      counter := counter.(expiry := Some(now + window));
    }

    method Ttl() returns (left: int)
      ensures left == if counter.Counter? && counter.expiry.Some? then counter.expiry.value - now else -1
    {
      left := if counter.Counter? && counter.expiry.Some? then counter.expiry.value - now else -1;
    }

    /** A successful login forgives earlier failures. */
    method Reset()
      modifies this`counter
      ensures counter == Absent
    {
      counter := Absent;
    }
  }

  /** Whatever it finds, a request leaves a counter that expires: no caller is locked out for good. */
  lemma CounterAlwaysExpires(c: Counter, now: int, window: int)
    requires window > 0
    requires c.Counter? && c.expiry.Some? ==> c.expiry.value <= now + window
    ensures Bumped(c, now, window).expiry.Some? && now < Bumped(c, now, window).expiry.value <= now + window
  {
  }

  /** The Retry-After header: whole seconds, rounded down, and one more. */
  function RetrySeconds(retryAfter: int): int
    requires retryAfter >= 0
  {
    retryAfter / 1000 + 1
  }

  /** A refused caller who waits as long as told, nobody else asking meanwhile, is let through exactly
      if the limit lets anybody through at all. */
  lemma WaitingHelps(c: Counter, now: int, later: int, limit: int, window: int)
    requires window > 0
    requires !Permits(c, now, limit, window)
    requires later >= now + 1000 * RetrySeconds(Bumped(c, now, window).expiry.value - now)
    ensures Permits(Bumped(c, now, window), later, limit, window) <==> limit >= 1
  {
    var left := Bumped(c, now, window).expiry.value - now;
    assert 1000 * (left / 1000 + 1) > left;
  }

  /** And it is told no longer than that: the whole seconds before the last of them are not enough, for
      whoever asks before the counter expires is refused again. */
  lemma WaitingLessDoesNot(c: Counter, now: int, later: int, limit: int, window: int)
    requires window > 0
    requires !Permits(c, now, limit, window)
    ensures var left := Bumped(c, now, window).expiry.value - now;
            && 1000 * (RetrySeconds(left) - 1) <= left < 1000 * RetrySeconds(left)
            && (now <= later < now + left ==> !Permits(Bumped(c, now, window), later, limit, window))
  {
  }

  // --------------------------------------------------------------------------------- runs of requests

  /** The counter after the first k requests at the given times, starting from none. */
  function After(times: seq<int>, window: int, k: nat): Counter
    requires k <= |times|
  {
    if k == 0 then Absent else Bumped(After(times, window, k - 1), times[k - 1], window)
  }

  predicate PermitsAt(times: seq<int>, limit: int, window: int, k: nat)
    requires k < |times|
  {
    Permits(After(times, window, k), times[k], limit, window)
  }

  predicate Ordered(times: seq<int>) {
    forall i, j | 0 <= i < j < |times| :: times[i] <= times[j]
  }

  /** The k-th request's place in its counter's life, and when that life began. */
  function Place(times: seq<int>, window: int, k: nat): nat
    requires k < |times|
  {
    After(times, window, k + 1).count
  }

  function Birth(times: seq<int>, window: int, k: nat): int
    requires k < |times|
  {
    After(times, window, k + 1).expiry.GetOr(0) - window
  }

  lemma LifeOf(times: seq<int>, window: int, k: nat)
    requires Ordered(times) && window > 0 && k < |times|
    ensures After(times, window, k + 1).expiry.Some?
    ensures Birth(times, window, k) <= times[k] < Birth(times, window, k) + window
    ensures Place(times, window, k) >= 1
    ensures k > 0 ==>
              if times[k] < Birth(times, window, k - 1) + window
              then Birth(times, window, k) == Birth(times, window, k - 1) && Place(times, window, k) == Place(times, window, k - 1) + 1
              else Birth(times, window, k) == times[k] && Place(times, window, k) == 1
  {
    if k > 0 {
      LifeOf(times, window, k - 1);
    }
  }

  /** Within a life places go up; and one life begins no sooner than a window after the one before. */
  lemma {:induction false} LivesApart(times: seq<int>, window: int, i: nat, j: nat)
    requires Ordered(times) && window > 0 && i < j < |times|
    ensures (Birth(times, window, j) == Birth(times, window, i) && Place(times, window, j) > Place(times, window, i))
         || Birth(times, window, j) >= Birth(times, window, i) + window
    decreases j
  {
    LifeOf(times, window, j);
    if i < j - 1 {
      LivesApart(times, window, i, j - 1);
    }
  }

  /** The requests let through between two instants, both included. */
  function Permitted(times: seq<int>, limit: int, window: int, from: int, to: int): set<int> {
    set k: nat | k < |times| && from <= times[k] <= to && PermitsAt(times, limit, window, k)
  }

  function InLife(times: seq<int>, limit: int, window: int, birth: int): set<int> {
    set k: nat | k < |times| && Birth(times, window, k) == birth && PermitsAt(times, limit, window, k)
  }

  lemma {:induction false} FewPlaces(times: seq<int>, window: int, birth: int, s: set<int>, limit: nat)
    requires Ordered(times) && window > 0
    requires forall k | k in s :: 0 <= k < |times| && Birth(times, window, k) == birth && 1 <= Place(times, window, k) <= limit
    ensures |s| <= limit
    decreases limit
  {
    if s != {} {
      var last := SetMax(s);
      var rest := s - {last};
      assert s == rest + {last};
      assert last in s;
      forall k | k in rest
        ensures Place(times, window, k) <= limit - 1
      {
        LivesApart(times, window, k, last);
      }
      FewPlaces(times, window, birth, rest, limit - 1);
    }
  }

  /** One counter lets through at most limit requests in its life. */
  lemma LifetimeBound(times: seq<int>, limit: nat, window: int, birth: int)
    requires Ordered(times) && window > 0
    ensures |InLife(times, limit, window, birth)| <= limit
  {
    forall k | k in InLife(times, limit, window, birth)
      ensures 1 <= Place(times, window, k) <= limit
    {
      LifeOf(times, window, k);
    }
    FewPlaces(times, window, birth, InLife(times, limit, window, birth), limit);
  }

  /** An interval one window long meets at most two lives, so it lets through at most twice the limit. */
  lemma WindowBound(times: seq<int>, limit: nat, window: int, from: int)
    requires Ordered(times) && window > 0
    ensures |Permitted(times, limit, window, from, from + window)| <= 2 * limit
  {
    var all := Permitted(times, limit, window, from, from + window);
    if all != {} {
      var last := SetMax(all);
      assert last in all;
      var late := InLife(times, limit, window, Birth(times, window, last));
      var early := all - late;
      LifetimeBound(times, limit, window, Birth(times, window, last));
      EarlyBound(times, limit, window, from, last, early);
      Within(all * late, late);
      assert all == early + (all * late);
    }
  }

  /** What an interval lets through outside the last life is all of one life. */
  lemma EarlyBound(times: seq<int>, limit: nat, window: int, from: int, last: int, early: set<int>)
    requires Ordered(times) && window > 0
    requires last in Permitted(times, limit, window, from, from + window)
    requires forall k | k in early ::
               k < last && k in Permitted(times, limit, window, from, from + window)
               && Birth(times, window, k) != Birth(times, window, last)
    ensures |early| <= limit
  {
    if early != {} {
      var second := SetMax(early);
      assert second in early;
      var middle := InLife(times, limit, window, Birth(times, window, second));
      LifetimeBound(times, limit, window, Birth(times, window, second));
      forall k | k in early
        ensures k in middle
      {
        EarlierLife(times, window, k, second, last, from);
      }
      Within(early, middle);
    }
  }

  /** Of three requests within one window of each other two share a life. */
  lemma EarlierLife(times: seq<int>, window: int, i: int, j: int, k: int, from: int)
    requires Ordered(times) && window > 0
    requires 0 <= i <= j < k < |times| && from <= times[i] && times[k] <= from + window
    requires Birth(times, window, j) != Birth(times, window, k)
    ensures Birth(times, window, i) == Birth(times, window, j)
  {
    LifeOf(times, window, i);
    LifeOf(times, window, k);
    LivesApart(times, window, j, k);
    if i < j {
      LivesApart(times, window, i, j);
    }
  }

  /** Twice the limit is reached: one request when a counter starts, the rest of its life's just before
      it expires, and a new life's at once after. */
  function Burst(limit: nat, window: int): seq<int> {
    seq(2 * limit, k => if k == 0 then 0 else if k < limit then window - 1 else window)
  }

  lemma {:induction false} BurstPlaces(limit: nat, window: int, k: nat)
    requires window > 0 && k < 2 * limit
    ensures Place(Burst(limit, window), window, k) == if k < limit then k + 1 else k - limit + 1
    ensures Birth(Burst(limit, window), window, k) == if k < limit then 0 else window
  {
    var times := Burst(limit, window);
    LifeOf(times, window, k);
    if k > 0 {
      BurstPlaces(limit, window, k - 1);
    }
  }

  lemma BurstPermitted(limit: nat, window: int, k: nat)
    requires window > 0 && k < 2 * limit
    ensures 0 <= Burst(limit, window)[k] <= window && PermitsAt(Burst(limit, window), limit, window, k)
  {
    BurstPlaces(limit, window, k);
  }

  lemma AllPermitted(times: seq<int>, limit: int, window: int)
    requires forall k: nat | k < |times| :: 0 <= times[k] <= window && PermitsAt(times, limit, window, k)
    ensures |Permitted(times, limit, window, 0, window)| == |times|
  {
    assert Permitted(times, limit, window, 0, window) == UpTo(|times|);
  }

  lemma WindowBoundIsTight(limit: nat, window: int)
    requires window > 0
    ensures Ordered(Burst(limit, window))
    ensures |Permitted(Burst(limit, window), limit, window, 0, window)| == 2 * limit
  {
    forall k: nat | k < 2 * limit {
      BurstPermitted(limit, window, k);
    }
    AllPermitted(Burst(limit, window), limit, window);
  }
}
