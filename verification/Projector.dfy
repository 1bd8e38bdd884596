/** The two places scores are delivered from: inline, right after a score is recorded, and the
    projector's sweep over what is still pending. */
module Projector {
  import opened Windows
  import opened Keys
  import opened Redis
  import opened Aggregate
  import opened Submit
  import opened Delivery

  /** The score_events table. */
  class Store {
    var log: seq<Event>
    var projected: set<int>
    ghost var heard: set<int>
    ghost var published: set<Event>

    constructor ()
      ensures log == [] && projected == {} && heard == {} && published == {}
    {
      log, projected, heard, published := [], {}, {}, {};
    }

    /** Scores that have not reached the boards yet, oldest first. */
    method Unprojected(limit: nat) returns (rows: seq<Event>)
      ensures rows == FirstOf(Pending(log, projected), limit)
    {
      rows := FirstOf(Pending(log, projected), limit);
    }

    /** A session's score, as the service records it. */
    method Record(user: int, game: string, points: int, now: int)
      modifies this`log
      ensures log == old(log) + [Event(|old(log)|, user, game, points, now)]
    {
      log := log + [Event(|log|, user, game, points, now)];
    }

    method MarkProjected(id: int)
      modifies this`projected
      ensures projected == old(projected) + {id}
    {
      projected := projected + {id};
    }
  }

  function Pending(log: seq<Event>, projected: set<int>): seq<Event> {
    if log == [] then []
    else (if log[0].id in projected then [] else [log[0]]) + Pending(log[1..], projected)
  }

  function FirstOf(rows: seq<Event>, limit: nat): seq<Event> {
    rows[..if limit < |rows| then limit else |rows|]
  }

  ghost function StateOf(redis: Server, store: Store): State
    reads redis, store
  {
    State(redis.now, redis.db, store.log, store.projected, store.heard, store.published)
  }

  /** How an attempt to deliver one score goes. */
  datatype Outcome =
    | Delivered       // published and marked
    | NotPublished    // the submit failed before it took effect
    | NotAnswered     // the submit took effect, but its answer never came
    | NotMarked       // published, then a crash or a failed mark

  // ---------------------------------------------------------------------------------- pending scores

  ghost predicate DistinctIds(log: seq<Event>) {
    forall i, j | 0 <= i < j < |log| :: log[i].id != log[j].id
  }

  lemma {:induction false} PendingAreLogged(log: seq<Event>, projected: set<int>)
    ensures forall e | e in Pending(log, projected) :: e in log && e.id !in projected
    ensures forall e | e in log && e.id !in projected :: e in Pending(log, projected)
  {
    if log != [] {
      PendingAreLogged(log[1..], projected);
    }
  }

  lemma {:induction false} MarkingElsewhere(log: seq<Event>, projected: set<int>, id: int)
    requires forall e | e in log :: e.id != id
    ensures Pending(log, projected + {id}) == Pending(log, projected)
  {
    if log != [] {
      assert log[0] in log;
      MarkingElsewhere(log[1..], projected, id);
    }
  }

  /** Marking the oldest pending score takes just that one off the list. */
  lemma {:induction false} MarkingTheOldest(log: seq<Event>, projected: set<int>)
    requires DistinctIds(log) && Pending(log, projected) != []
    ensures Pending(log, projected + {Pending(log, projected)[0].id}) == Pending(log, projected)[1..]
  {
    var id := Pending(log, projected)[0].id;
    if log[0].id in projected {
      assert Pending(log, projected) == Pending(log[1..], projected);
      MarkingTheOldest(log[1..], projected);
    } else {
      forall e | e in log[1..] ensures e.id != id {
        var i :| 0 <= i < |log[1..]| && log[1..][i] == e;
        assert log[i + 1] == e;
      }
      MarkingElsewhere(log[1..], projected, id);
    }
  }

  /** How many of a list are delivered before the first that is not. */
  function DeliveredPrefix(rows: seq<Event>, outcome: int -> Outcome): (n: nat)
    ensures n <= |rows|
  {
    if rows == [] || outcome(rows[0].id) != Delivered then 0 else 1 + DeliveredPrefix(rows[1..], outcome)
  }

  lemma {:induction false} AllDelivered(rows: seq<Event>, outcome: int -> Outcome)
    requires forall id :: outcome(id) == Delivered
    ensures DeliveredPrefix(rows, outcome) == |rows|
  {
    if rows != [] {
      AllDelivered(rows[1..], outcome);
    }
  }

  // -------------------------------------------------------------------------------------- delivering

  predicate Deliverable(log: seq<Event>, id: int) {
    0 <= id < |log| && log[id].game != "" && log[id].at != ZERO_TIME
  }

  lemma LoggedIsDeliverable(s: State, id: int)
    requires Inv(s) && 0 <= id < |s.log|
    ensures Deliverable(s.log, id)
  {
    assert ValidEvent(s.log[id]);
    SlugsDistinct();
  }

  /** Submits a recorded score, at its own time. */
  method Publish(redis: Server, event: Event)
    requires redis.Valid() && event.game != "" && event.at != ZERO_TIME
    modifies redis`db
    ensures redis.Valid()
    ensures Submitted(old(redis.db), redis.db, redis.now, event.user, event.game, event.points, event.at)
  {
    var placement, notices := Submit.Submit(redis, event.user, event.game, event.points, event.at);
  }

  /** Publishes one recorded score, and takes note of it. */
  method PublishOnce(redis: Server, store: Store, id: int, answered: bool)
    requires redis.Valid() && Deliverable(store.log, id)
    modifies redis`db, store`heard, store`published
    ensures redis.Valid()
    ensures Next(old(StateOf(redis, store)), Step.Publish(id, answered), StateOf(redis, store))
  {
    var event := store.log[id];
    Publish(redis, event);
    store.published := store.published + {event};
    if answered {
      store.heard := store.heard + {id};
    }
  }

  /** One attempt at one recorded score. */
  method Deliver(redis: Server, store: Store, id: int, outcome: Outcome) returns (delivered: bool)
    requires redis.Valid() && Deliverable(store.log, id)
    modifies redis`db, store`projected, store`heard, store`published
    ensures redis.Valid()
    ensures Reaches(old(StateOf(redis, store)), StateOf(redis, store))
    ensures delivered <==> outcome == Delivered
    ensures store.projected == if delivered then old(store.projected) + {id} else old(store.projected)
  {
    ghost var s := StateOf(redis, store);
    ReachesItself(s);
    if outcome == NotPublished {
      return false;
    }
    PublishOnce(redis, store, id, outcome != NotAnswered);
    ghost var t := StateOf(redis, store);
    ReachesByStep(s, s, Step.Publish(id, outcome != NotAnswered), t);
    if outcome != Delivered {
      return false;
    }
    store.MarkProjected(id);
    ReachesByStep(s, t, Mark(id), StateOf(redis, store));
    return true;
  }

  /** Session.project: whatever becomes of it, the request that recorded the score goes on. */
  method Project(redis: Server, store: Store, id: int, outcome: Outcome) returns (placed: bool)
    requires redis.Valid() && Inv(StateOf(redis, store)) && 0 <= id < |store.log|
    modifies redis`db, store`projected, store`heard, store`published
    ensures redis.Valid() && Inv(StateOf(redis, store))
    ensures Reaches(old(StateOf(redis, store)), StateOf(redis, store))
    ensures placed <==> outcome == Delivered || outcome == NotMarked
    ensures outcome == Delivered ==> id in store.projected
  {
    ghost var s := StateOf(redis, store);
    LoggedIsDeliverable(s, id);
    var delivered := Deliver(redis, store, id, outcome);
    ReachesKeeps(s, StateOf(redis, store));
    placed := delivered || outcome == NotMarked;
  }

  /** Delivers one batch of pending scores, oldest first, and stops at the first that fails, or at once if
      they cannot be listed. */
  method Sweep(redis: Server, store: Store, batch: nat, listed: bool, outcome: int -> Outcome) returns (projected: nat, failed: bool)
    requires redis.Valid() && Inv(StateOf(redis, store))
    modifies redis`db, store`projected, store`heard, store`published
    ensures redis.Valid()
    ensures Reaches(old(StateOf(redis, store)), StateOf(redis, store))
    ensures projected == if listed then DeliveredPrefix(FirstOf(old(Pending(store.log, store.projected)), batch), outcome) else 0
    ensures failed <==> !listed || projected < |FirstOf(old(Pending(store.log, store.projected)), batch)|
    ensures Pending(store.log, store.projected) == old(Pending(store.log, store.projected))[projected..]
  {
    ghost var s := StateOf(redis, store);
    ghost var pending := Pending(store.log, store.projected);
    ReachesItself(s);
    if !listed {
      return 0, true;
    }
    var rows := store.Unprojected(batch);
    projected, failed := 0, false;
    while projected < |rows|
      invariant projected <= |rows| && redis.Valid()
      invariant Reaches(s, StateOf(redis, store))
      invariant DeliveredPrefix(rows, outcome) == projected + DeliveredPrefix(rows[projected..], outcome)
      invariant Pending(store.log, store.projected) == pending[projected..]
    {
      var event := rows[projected];
      var delivered := DeliverOldest(redis, store, event, outcome(event.id), s, pending, projected);
      assert rows[projected..][0] == event && rows[projected..][1..] == rows[projected + 1..];
      if !delivered {
        return projected, true;
      }
      projected := projected + 1;
    }
  }

  /** The next step of a sweep that began in state s with a list of pending scores. */
  method DeliverOldest(redis: Server, store: Store, event: Event, outcome: Outcome,
                       ghost s: State, ghost pending: seq<Event>, ghost i: nat)
    returns (delivered: bool)
    requires redis.Valid() && Inv(s) && Reaches(s, StateOf(redis, store))
    requires i < |pending| && event == pending[i] && Pending(store.log, store.projected) == pending[i..]
    modifies redis`db, store`projected, store`heard, store`published
    ensures redis.Valid() && Reaches(s, StateOf(redis, store))
    ensures delivered <==> outcome == Delivered
    ensures Pending(store.log, store.projected) == if delivered then pending[i + 1..] else pending[i..]
  {
    ghost var t := StateOf(redis, store);
    ReachesKeeps(s, t);
    OldestPending(t, pending, i);
    delivered := Deliver(redis, store, event.id, outcome);
    ReachesChains(s, t, StateOf(redis, store));
  }

  /** Along a sweep, the next row of the batch is the oldest score still pending. */
  lemma OldestPending(s: State, pending: seq<Event>, i: nat)
    requires Inv(s) && i < |pending| && Pending(s.log, s.projected) == pending[i..]
    ensures Deliverable(s.log, pending[i].id)
    ensures Pending(s.log, s.projected + {pending[i].id}) == pending[i + 1..]
  {
    PendingAreLogged(s.log, s.projected);
    assert pending[i..][0] == pending[i] && pending[i] in pending[i..];
    var j :| 0 <= j < |s.log| && s.log[j] == pending[i];
    LoggedIsDeliverable(s, j);
    assert forall a, b | 0 <= a < b < |s.log| :: s.log[a].id == a && s.log[b].id == b;
    MarkingTheOldest(s.log, s.projected);
    assert pending[i..][1..] == pending[i + 1..];
  }

  /** What is left of n pending scores after a number of sweeps without a failure. */
  function Backlog(n: nat, batch: nat, sweeps: nat): nat {
    if sweeps == 0 then n else Backlog(if batch < n then n - batch else 0, batch, sweeps - 1)
  }

  /** Sweeps clear a backlog exactly when together they have room for it. */
  lemma {:induction false} BacklogClears(n: nat, batch: nat, sweeps: nat)
    ensures Backlog(n, batch, sweeps) == 0 <==> n <= sweeps * batch
  {
    if sweeps > 0 {
      BacklogClears(if batch < n then n - batch else 0, batch, sweeps - 1);
      assert sweeps * batch == (sweeps - 1) * batch + batch;
    }
  }

  /** With so many new scores after each sweep. */
  function BacklogWith(n: nat, batch: nat, arrivals: nat -> nat, sweeps: nat): nat {
    if sweeps == 0 then n
    else
      var was := BacklogWith(n, batch, arrivals, sweeps - 1);
      (if batch < was then was - batch else 0) + arrivals(sweeps - 1)
  }

  /** As long as no more come than a sweep takes, a backlog does not grow beyond a batch or what it was. */
  lemma {:induction false} BacklogBounded(n: nat, batch: nat, arrivals: nat -> nat, sweeps: nat)
    requires forall i :: arrivals(i) <= batch
    ensures BacklogWith(n, batch, arrivals, sweeps) <= if n > batch then n else batch
  {
    if sweeps > 0 {
      BacklogBounded(n, batch, arrivals, sweeps - 1);
    }
  }

  lemma {:induction false} BacklogPeels(n: nat, batch: nat, sweeps: nat)
    requires sweeps > 0
    ensures Backlog(n, batch, sweeps) ==
            var was := Backlog(n, batch, sweeps - 1); if batch < was then was - batch else 0
  {
    if sweeps > 1 {
      BacklogPeels(if batch < n then n - batch else 0, batch, sweeps - 1);
    }
  }

  /** If none come it is the backlog that sweeps alone leave: see BacklogClears. */
  lemma {:induction false} QuietBacklog(n: nat, batch: nat, arrivals: nat -> nat, sweeps: nat)
    requires forall i :: arrivals(i) == 0
    ensures BacklogWith(n, batch, arrivals, sweeps) == Backlog(n, batch, sweeps)
  {
    if sweeps > 0 {
      QuietBacklog(n, batch, arrivals, sweeps - 1);
      BacklogPeels(n, batch, sweeps);
    }
  }

  /** A score a session may come to, so long after the one before. */
  datatype Earned = Earned(wait: nat, user: int, game: string, points: int)

  predicate Recordable(scores: seq<Earned>) {
    forall i | 0 <= i < |scores| :: scores[i].game in SLUGS && 0 <= scores[i].points <= MAX_POINTS
  }

  function Counts(arrivals: nat -> seq<Earned>): nat -> nat {
    n => |arrivals(n)|
  }

  function OutcomesOf(outcome: (nat, int) -> Outcome, n: nat): int -> Outcome {
    id => outcome(n, id)
  }

  /** Nothing goes wrong in any sweep. */
  ghost predicate Faultless(listed: nat -> bool, outcome: (nat, int) -> Outcome) {
    forall n: nat :: listed(n) && AllGoWell(OutcomesOf(outcome, n))
  }

  ghost predicate AllGoWell(outcome: int -> Outcome) {
    forall id :: outcome(id) == Delivered
  }

  /** Projector.Run up to any number of sweeps, an interval apart, whatever becomes of each and whatever
      is recorded in between, and when. */
  method Run(redis: Server, store: Store, batch: nat, interval: nat, sweeps: nat, listed: nat -> bool,
             outcome: (nat, int) -> Outcome, arrivals: nat -> seq<Earned>)
    requires redis.Valid() && Inv(StateOf(redis, store)) && forall n :: Recordable(arrivals(n))
    modifies redis, store`log, store`projected, store`heard, store`published
    ensures redis.Valid() && Inv(StateOf(redis, store))
    ensures Reaches(old(StateOf(redis, store)), StateOf(redis, store))
    ensures Faultless(listed, outcome) ==>
              |Pending(store.log, store.projected)| ==
              BacklogWith(old(|Pending(store.log, store.projected)|), batch, Counts(arrivals), sweeps)
  {
    ghost var s := StateOf(redis, store);
    ReachesItself(s);
    for n := 0 to sweeps
      invariant redis.Valid() && Inv(StateOf(redis, store)) && Reaches(s, StateOf(redis, store))
      invariant Faultless(listed, outcome) ==>
                  |Pending(store.log, store.projected)| ==
                  BacklogWith(old(|Pending(store.log, store.projected)|), batch, Counts(arrivals), n)
    {
      RunOnce(redis, store, batch, interval, listed(n), OutcomesOf(outcome, n), arrivals(n), s);
    }
  }

  /** One sweep, and what comes in before the next, which begins an interval after this one, or when all of
      that has come in. */
  method RunOnce(redis: Server, store: Store, batch: nat, interval: nat, listed: bool, outcome: int -> Outcome,
                 coming: seq<Earned>, ghost s: State)
    requires redis.Valid() && Inv(StateOf(redis, store)) && Reaches(s, StateOf(redis, store)) && Recordable(coming)
    modifies redis, store`log, store`projected, store`heard, store`published
    ensures redis.Valid() && Inv(StateOf(redis, store)) && Reaches(s, StateOf(redis, store))
    ensures redis.now >= old(redis.now) + interval
    ensures listed && AllGoWell(outcome) ==>
              var was := old(|Pending(store.log, store.projected)|);
              |Pending(store.log, store.projected)| == (if batch < was then was - batch else 0) + |coming|
  {
    var next := redis.now + interval;
    SweepOnce(redis, store, batch, listed, outcome, s);
    RecordAll(redis, store, coming, s);
    if redis.now < next {
      Wait(redis, store, next - redis.now, s);
    }
  }

  method SweepOnce(redis: Server, store: Store, batch: nat, listed: bool, outcome: int -> Outcome, ghost s: State)
    requires redis.Valid() && Inv(StateOf(redis, store)) && Reaches(s, StateOf(redis, store))
    modifies redis`db, store`projected, store`heard, store`published
    ensures redis.Valid() && Inv(StateOf(redis, store)) && Reaches(s, StateOf(redis, store))
    ensures listed && AllGoWell(outcome) ==>
              var was := old(|Pending(store.log, store.projected)|);
              |Pending(store.log, store.projected)| == if batch < was then was - batch else 0
  {
    ghost var t := StateOf(redis, store);
    ghost var rows := FirstOf(Pending(store.log, store.projected), batch);
    var projected, failed := Sweep(redis, store, batch, listed, outcome);
    if AllGoWell(outcome) {
      AllDelivered(rows, outcome);
    }
    ReachesKeeps(t, StateOf(redis, store));
    ReachesChains(s, t, StateOf(redis, store));
  }

  /** Time passes. */
  method Wait(redis: Server, store: Store, time: nat, ghost s: State)
    requires redis.Valid() && Inv(StateOf(redis, store)) && Reaches(s, StateOf(redis, store))
    modifies redis
    ensures redis.Valid() && Inv(StateOf(redis, store)) && Reaches(s, StateOf(redis, store))
    ensures redis.now == old(redis.now) + time
  {
    ghost var t := StateOf(redis, store);
    redis.Advance(redis.now + time);
    ReachesByStep(s, t, Tick(redis.now), StateOf(redis, store));
    NextKeeps(t, Tick(redis.now), StateOf(redis, store));
  }

  /** Scores come in, one after the other, each in its own time. */
  method RecordAll(redis: Server, store: Store, scores: seq<Earned>, ghost s: State)
    requires redis.Valid() && Inv(StateOf(redis, store)) && Reaches(s, StateOf(redis, store)) && Recordable(scores)
    modifies redis, store`log
    ensures redis.Valid() && Inv(StateOf(redis, store)) && Reaches(s, StateOf(redis, store)) && redis.now >= old(redis.now)
    ensures |Pending(store.log, store.projected)| == old(|Pending(store.log, store.projected)|) + |scores|
  {
    for i := 0 to |scores|
      invariant redis.Valid() && Inv(StateOf(redis, store)) && Reaches(s, StateOf(redis, store)) && redis.now >= old(redis.now)
      invariant |Pending(store.log, store.projected)| == old(|Pending(store.log, store.projected)|) + i
    {
      var earned := scores[i];
      Wait(redis, store, earned.wait, s);
      RecordOne(redis, store, earned.user, earned.game, earned.points, s);
    }
  }

  method RecordOne(redis: Server, store: Store, user: int, game: string, points: int, ghost s: State)
    requires Inv(StateOf(redis, store)) && Reaches(s, StateOf(redis, store)) && game in SLUGS && 0 <= points <= MAX_POINTS
    modifies store`log
    ensures Inv(StateOf(redis, store)) && Reaches(s, StateOf(redis, store))
    ensures Pending(store.log, store.projected) ==
            old(Pending(store.log, store.projected)) + [Event(|old(store.log)|, user, game, points, redis.now)]
  {
    ghost var t := StateOf(redis, store);
    store.Record(user, game, points, redis.now);
    ReachesByStep(s, t, Step.Record(user, game, points), StateOf(redis, store));
    NextKeeps(t, Step.Record(user, game, points), StateOf(redis, store));
    PendingAppends(t.log, store.projected, store.log[|t.log|]);
  }

  lemma {:induction false} PendingAppends(log: seq<Event>, projected: set<int>, e: Event)
    requires e.id !in projected
    ensures Pending(log + [e], projected) == Pending(log, projected) + [e]
  {
    if log == [] {
      assert log + [e] == [e] && [e][1..] == [];
      assert Pending([], projected) == [];
      assert Pending([e], projected) == [e] + [];
    } else {
      var first := if log[0].id in projected then [] else [log[0]];
      assert (log + [e])[0] == log[0] && (log + [e])[1..] == log[1..] + [e];
      PendingAppends(log[1..], projected, e);
      assert first + (Pending(log[1..], projected) + [e]) == first + Pending(log[1..], projected) + [e];
    }
  }
}
