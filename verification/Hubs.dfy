/** The hub's own methods, and a connection's messages to it. Each one that holds the lock throughout is
    one step of the machine of module Fanout. */
module Hubs {
  import opened Wrappers
  import opened Channels
  import opened Fanout
  import Sets

  /** A buffer offered several frames in turn. */
  function OfferedAll(s: Subscriber, frames: seq<Frame>): Subscriber {
    if frames == [] then s else Offered(OfferedAll(s, frames[..|frames| - 1]), frames[|frames| - 1])
  }

  /** The buffer keeps what it had, then takes some of the frames in order, and misses one only by being
      dropped. */
  lemma {:induction false} OfferedInOrder(s: Subscriber, frames: seq<Frame>)
    ensures var t := OfferedAll(s, frames);
            && (exists n :: 0 <= n <= |frames| && t.buffer == s.buffer + frames[..n])
            && (t.buffer == s.buffer + frames || (t.once && |t.buffer| >= t.capacity))
            && t.capacity == s.capacity && (s.once ==> t.once)
  {
    if frames == [] {
      assert s.buffer + frames[..0] == s.buffer;
    } else {
      var front := frames[..|frames| - 1];
      OfferedInOrder(s, front);
      var prior := OfferedAll(s, front);
      var n :| 0 <= n <= |front| && prior.buffer == s.buffer + front[..n];
      if Keeps(prior) {
        assert s.buffer + frames[..|frames|] == s.buffer + front + [frames[|frames| - 1]];
      } else {
        assert front[..n] == frames[..n];
      }
    }
  }

  lemma {:induction false} OfferedInTurn(s: Subscriber, first: seq<Frame>, rest: seq<Frame>)
    ensures OfferedAll(s, first + rest) == OfferedAll(OfferedAll(s, first), rest)
  {
    if rest == [] {
      assert first + rest == first;
    } else {
      var front := rest[..|rest| - 1];
      OfferedInTurn(s, first, front);
      assert (first + rest)[..|first + rest| - 1] == first + front;
    }
  }

  lemma ListGrows(list: seq<Channel>, dirty: map<string, Channel>, names: set<string>, name: string)
    requires ListsDirty(list, dirty - names) && name in names && name in dirty && dirty[name].String() == name
    ensures ListsDirty(list + [dirty[name]], dirty - (names - {name}))
  {
    var longer, fewer := list + [dirty[name]], dirty - (names - {name});
    forall i | 0 <= i < |longer| ensures longer[i].String() in fewer && fewer[longer[i].String()] == longer[i] {
      if i < |list| {
        assert list[i].String() in dirty - names;
      }
    }
    forall other | other in fewer ensures exists i :: 0 <= i < |longer| && longer[i].String() == other {
      if other == name {
        assert longer[|list|].String() == name;
      } else {
        assert other in dirty - names;
        var i :| 0 <= i < |list| && list[i].String() == other;
        assert longer[i].String() == other;
      }
    }
    forall i, j | 0 <= i < j < |longer| ensures longer[i].String() != longer[j].String() {
      assert list[i].String() in dirty - names;
    }
  }

  method Listed(dirty: map<string, Channel>) returns (list: seq<Channel>)
    requires forall name | name in dirty :: dirty[name].String() == name
    ensures ListsDirty(list, dirty)
  {
    list := [];
    var names := dirty.Keys;
    while names != {}
      invariant names <= dirty.Keys && ListsDirty(list, dirty - names)
      decreases names
    {
      ghost var some := Sets.Any(names);
      var name :| name in names;
      ListGrows(list, dirty, names, name);
      list := list + [dirty[name]];
      names := names - {name};
    }
    assert dirty - {} == dirty;
  }

  lemma TakingKeeps(s: State, list: seq<Channel>)
    requires Inv(s) && s.taken == [] && s.phase == Between && ListsDirty(list, s.dirty)
    ensures Next(s, Take(list), s.(dirty := map[], taken := list)) && Inv(s.(dirty := map[]))
  {
  }

  /** A frame has been offered to some of the subscribers, and to no others. */
  predicate OfferedTo(before: map<int, Subscriber>, frame: Frame, done: set<int>, after: map<int, Subscriber>) {
    && after.Keys == before.Keys
    && forall sub | sub in before :: after[sub] == if sub in done then Offered(before[sub], frame) else before[sub]
  }

  /** Those of a set that have no room. */
  function Full(subs: map<int, Subscriber>, some: set<int>): set<int>
    requires some <= subs.Keys
  {
    set sub | sub in some && !Keeps(subs[sub])
  }

  lemma FullGrows(subs: map<int, Subscriber>, done: set<int>, sub: int)
    requires done <= subs.Keys && sub in subs && sub !in done
    ensures |Full(subs, done + {sub})| == |Full(subs, done)| + if Keeps(subs[sub]) then 0 else 1
  {
    assert Full(subs, done + {sub}) == Full(subs, done) + if Keeps(subs[sub]) then {} else {sub};
  }

  lemma OfferedGrows(before: map<int, Subscriber>, frame: Frame, done: set<int>, middle: map<int, Subscriber>, sub: int,
                     after: map<int, Subscriber>)
    requires OfferedTo(before, frame, done, middle) && sub in before && sub !in done
    requires after == middle[sub := Offered(middle[sub], frame)]
    ensures OfferedTo(before, frame, done + {sub}, after) && middle[sub] == before[sub]
  {
  }

  /** Some channels are still to be gone through; the subscriber is off the others. */
  ghost predicate OffAllBut(before: Index, names: set<string>, sub: int, now: Index) {
    && (forall name :: name in now <==> name in before && (name in names || before[name] - {sub} != {}))
    && forall name | name in now :: now[name] == if name in names then before[name] else before[name] - {sub}
  }

  lemma OffOneMore(before: Index, names: set<string>, sub: int, now: Index, name: string)
    requires OffAllBut(before, names, sub, now) && name in names && names <= before.Keys
    ensures name in now
    ensures OffAllBut(before, names - {name}, sub,
                      if now[name] - {sub} == {} then now[name := {}] - {name} else now[name := now[name] - {sub}])
  {
  }

  lemma OfferingKeeps(s: State, frame: Frame, done: set<int>, t: State)
    requires Inv(s) && OfferedTo(s.subs, frame, done, t.subs) && t == s.(subs := t.subs)
    ensures Inv(t)
  {
  }

  /** What a subscriber is sent when the listed channels are flushed in turn. */
  function FramesFor(list: seq<Channel>, channels: Index, readable: Channel -> bool, at: int, sub: int): seq<Frame> {
    if list == [] then []
    else
      var c := list[|list| - 1];
      FramesFor(list[..|list| - 1], channels, readable, at, sub) +
      if sub in Listeners(channels, c.String()) && readable(c) then [Snapshot(c.String(), at)] else []
  }

  ghost predicate Flushed(before: map<int, Subscriber>, list: seq<Channel>, channels: Index, readable: Channel -> bool, at: int,
                          after: map<int, Subscriber>) {
    && after.Keys == before.Keys
    && forall sub | sub in before :: after[sub] == OfferedAll(before[sub], FramesFor(list, channels, readable, at, sub))
  }

  lemma FlushedNothing(before: map<int, Subscriber>, channels: Index, readable: Channel -> bool, at: int)
    ensures Flushed(before, [], channels, readable, at, before)
  {
  }

  /** One channel's turn: everybody listening is offered what was read, if it could be read. */
  predicate Turn(before: map<int, Subscriber>, c: Channel, channels: Index, readable: Channel -> bool, at: int,
                 after: map<int, Subscriber>) {
    if readable(c) then OfferedTo(before, Snapshot(c.String(), at), Listeners(channels, c.String()), after)
    else after == before
  }

  lemma FlushedOne(before: map<int, Subscriber>, list: seq<Channel>, i: nat, channels: Index, readable: Channel -> bool, at: int,
                   middle: map<int, Subscriber>, after: map<int, Subscriber>)
    requires i < |list| && Flushed(before, list[..i], channels, readable, at, middle)
    requires Turn(middle, list[i], channels, readable, at, after)
    ensures Flushed(before, list[..i + 1], channels, readable, at, after)
  {
    var c := list[i];
    assert list[..i + 1] == list[..i] + [c];
    forall sub | sub in before ensures OneMore(before[sub], list[..i], channels, readable, at, sub, c) {
      OneMoreHolds(before[sub], list[..i], channels, readable, at, sub, c);
    }
  }

  ghost predicate OneMore(s: Subscriber, list: seq<Channel>, channels: Index, readable: Channel -> bool, at: int, sub: int, c: Channel) {
    var sofar := OfferedAll(s, FramesFor(list, channels, readable, at, sub));
    OfferedAll(s, FramesFor(list + [c], channels, readable, at, sub)) ==
    if sub in Listeners(channels, c.String()) && readable(c) then Offered(sofar, Snapshot(c.String(), at)) else sofar
  }

  lemma OneMoreHolds(s: Subscriber, list: seq<Channel>, channels: Index, readable: Channel -> bool, at: int, sub: int, c: Channel)
    ensures OneMore(s, list, channels, readable, at, sub, c)
  {
    assert (list + [c])[..|list|] == list;
    var frames := FramesFor(list, channels, readable, at, sub);
    assert (frames + [Snapshot(c.String(), at)])[..|frames|] == frames;
    assert frames + [] == frames;
  }

  predicate Owed(list: seq<Channel>, channels: Index, readable: Channel -> bool, at: int, sub: int, frame: Frame) {
    && frame.Snapshot? && frame.at == at && sub in Listeners(channels, frame.name)
    && exists i :: 0 <= i < |list| && list[i].String() == frame.name && readable(list[i])
  }

  predicate OwedBy(c: Channel, channels: Index, readable: Channel -> bool, at: int, sub: int, frame: Frame) {
    sub in Listeners(channels, c.String()) && readable(c) && frame == Snapshot(c.String(), at)
  }

  lemma OwedGrows(list: seq<Channel>, c: Channel, channels: Index, readable: Channel -> bool, at: int, sub: int, frame: Frame)
    requires Apart(list + [c])
    ensures Owed(list + [c], channels, readable, at, sub, frame) <==>
            Owed(list, channels, readable, at, sub, frame) || OwedBy(c, channels, readable, at, sub, frame)
    ensures !(Owed(list, channels, readable, at, sub, frame) && OwedBy(c, channels, readable, at, sub, frame))
  {
    var longer := list + [c];
    assert longer[|list|] == c;
    if Owed(list, channels, readable, at, sub, frame) {
      var i :| 0 <= i < |list| && list[i].String() == frame.name && readable(list[i]);
      assert longer[i].String() == frame.name && readable(longer[i]);
      assert longer[i].String() != longer[|list|].String();
    }
  }

  lemma {:induction false} OwedOnce(list: seq<Channel>, channels: Index, readable: Channel -> bool, at: int, sub: int, frame: Frame)
    requires Apart(list)
    ensures multiset(FramesFor(list, channels, readable, at, sub))[frame] ==
            if Owed(list, channels, readable, at, sub, frame) then 1 else 0
  {
    if list != [] {
      var front, c := list[..|list| - 1], list[|list| - 1];
      assert list == front + [c];
      OwedOnce(front, channels, readable, at, sub, frame);
      OwedGrows(front, c, channels, readable, at, sub, frame);
    }
  }

  /** What a flush comes to for one subscriber: exactly one frame for each channel marked that it listens to
      and whose board could be read, however often it was marked, and no other. The buffer takes them all,
      or the subscriber is dropped. */
  lemma FlushSendsOneFrameEach(before: map<int, Subscriber>, dirty: map<string, Channel>, order: seq<Channel>, channels: Index,
                               readable: Channel -> bool, at: int, after: map<int, Subscriber>, sub: int, frame: Frame)
    requires ListsDirty(order, dirty) && Flushed(before, order, channels, readable, at, after) && sub in before
    ensures var frames := FramesFor(order, channels, readable, at, sub);
            && (after[sub].buffer == before[sub].buffer + frames || after[sub].once)
            && multiset(frames)[frame] ==
               if frame.Snapshot? && frame.at == at && frame.name in dirty && readable(dirty[frame.name])
                  && sub in Listeners(channels, frame.name) then 1 else 0
  {
    OfferedInOrder(before[sub], FramesFor(order, channels, readable, at, sub));
    OwedOnce(order, channels, readable, at, sub, frame);
    if frame.Snapshot? && frame.name in dirty {
      var i :| 0 <= i < |order| && order[i].String() == frame.name;
      assert dirty[order[i].String()] == order[i];
    }
  }

  /** A frame has been offered to some of the subscribers, of whom so many kept it and so many did not. */
  predicate HandedOut(before: map<int, Subscriber>, frame: Frame, done: set<int>, after: map<int, Subscriber>, sent: int, dropped: int)
    requires done <= before.Keys
  {
    OfferedTo(before, frame, done, after) && sent + dropped == |done| && dropped == |Full(before, done)|
  }

  lemma HandedOutOneMore(before: map<int, Subscriber>, frame: Frame, all: set<int>, due: set<int>, middle: map<int, Subscriber>,
                         sub: int, after: map<int, Subscriber>, sent: int, dropped: int)
    requires all <= before.Keys && due <= all && sub in due && HandedOut(before, frame, all - due, middle, sent, dropped)
    requires after == middle[sub := Offered(middle[sub], frame)]
    ensures middle[sub] == before[sub]
    ensures HandedOut(before, frame, all - (due - {sub}), after, if Keeps(middle[sub]) then sent + 1 else sent,
                      if Keeps(middle[sub]) then dropped else dropped + 1)
  {
    FullGrows(before, all - due, sub);
    assert all - (due - {sub}) == all - due + {sub};
    OfferedGrows(before, frame, all - due, middle, sub, after);
  }

  lemma ListenersKnown(s: State, name: string)
    requires Inv(s)
    ensures Listeners(s.channels, name) <= s.subs.Keys
  {
  }

  class Hub {
    var clock: int
    var channels: Index
    var dirty: map<string, Channel>
    var subs: map<int, Subscriber>

    constructor (clock: int)
      ensures Init(At([], Between)) && this.clock == clock && Valid()
    {
      this.clock := clock;
      channels, dirty, subs := map[], map[], map[];
    }

    /** The machine's state, given what a flush has in hand. */
    ghost function At(taken: seq<Channel>, phase: Phase): State
      reads this
    {
      State(clock, channels, dirty, subs, taken, phase)
    }

    ghost predicate Valid()
      reads this
    {
      Inv(At([], Between))
    }

    method Connect(sub: int, capacity: nat)
      requires Valid() && sub !in subs
      modifies this`subs
      ensures Valid() && Next(old(At([], Between)), Step.Connect(sub, capacity), At([], Between))
    {
      ghost var was := At([], Between);
      subs := subs[sub := Subscriber(capacity, [], false, 0)];
      NextKeeps(was, Step.Connect(sub, capacity), At([], Between));
    }

    method Subscribe(sub: int, channel: Channel)
      requires Valid() && sub in subs
      modifies this`channels
      ensures Valid() && Next(old(At([], Between)), Step.Subscribe(sub, channel), At([], Between))
      ensures forall name :: Listeners(channels, name) ==
                             Listeners(old(channels), name) + (if name == channel.String() then {sub} else {})
    {
      ghost var was := At([], Between);
      var name := channel.String();
      if name !in channels {
        channels := channels[name := {}];
      }
      channels := channels[name := channels[name] + {sub}];
      assert channels == Joined(was.channels, name, sub);
      NextKeeps(was, Step.Subscribe(sub, channel), At([], Between));
    }

    method Unsubscribe(sub: int, channel: Channel)
      requires Valid()
      modifies this`channels
      ensures Valid() && Next(old(At([], Between)), Step.Unsubscribe(sub, channel), At([], Between))
      ensures forall name :: Listeners(channels, name) ==
                             Listeners(old(channels), name) - (if name == channel.String() then {sub} else {})
    {
      ghost var was := At([], Between);
      var name := channel.String();
      if name in channels {
        channels := channels[name := channels[name] - {sub}];
      }
      if Listeners(channels, name) == {} {
        channels := channels - {name};
      }
      assert channels == Left(was.channels, name, sub);
      NextKeeps(was, Step.Unsubscribe(sub, channel), At([], Between));
    }

    /** Takes a connection off every channel. */
    method Remove(sub: int)
      requires Valid()
      modifies this`channels
      ensures Valid() && Next(old(At([], Between)), Step.Remove(sub), At([], Between))
      ensures forall name :: Listeners(channels, name) == Listeners(old(channels), name) - {sub}
    {
      ghost var was := At([], Between);
      var names := channels.Keys;
      while names != {}
        invariant names <= was.channels.Keys && OffAllBut(was.channels, names, sub, channels)
        decreases names
      {
        ghost var some := Sets.Any(names);
        var name :| name in names;
        OffOneMore(was.channels, names, sub, channels, name);
        channels := channels[name := channels[name] - {sub}];
        if channels[name] == {} {
          channels := channels - {name};
        }
        names := names - {name};
      }
      assert channels == LeftAll(was.channels, sub);
      NextKeeps(was, Step.Remove(sub), At([], Between));
    }

    /** How many listen to a channel. */
    method Subscribers(channel: Channel) returns (n: nat)
      ensures n == |Listeners(channels, channel.String())|
    {
      return if channel.String() in channels then |channels[channel.String()]| else 0;
    }

    /** Notes that a board has changed; however often, the channel is listed once. */
    method MarkDirty(channel: Channel)
      requires Valid()
      modifies this`clock, this`dirty
      ensures Valid() && Next(old(At([], Between)), Mark(channel), At([], Between))
    {
      ghost var was := At([], Between);
      clock := clock + 1;
      dirty := dirty[channel.String() := channel];
      NextKeeps(was, Mark(channel), At([], Between));
    }

    method TakeDirty() returns (list: seq<Channel>)
      requires Valid()
      modifies this`dirty
      ensures ListsDirty(list, old(dirty)) && dirty == map[] && Valid()
      ensures Next(old(At([], Between)), Take(list), At(list, Between))
    {
      ghost var was := At([], Between);
      list := Listed(dirty);
      TakingKeeps(At([], Between), list);
      dirty := map[];
    }

    /** Hands a frame over without ever waiting: what `Tell` and each send of a broadcast do to a buffer. */
    method Deliver(sub: int, frame: Frame) returns (kept: bool)
      requires sub in subs
      modifies this`subs
      ensures subs == old(subs)[sub := Offered(old(subs)[sub], frame)] && kept == Keeps(old(subs)[sub])
    {
      var s := subs[sub];
      if |s.buffer| < s.capacity {
        subs := subs[sub := s.(buffer := s.buffer + [frame])];
        return true;
      }
      if !s.once {
        subs := subs[sub := s.(once := true, drops := s.drops + 1)];
      }
      return false;
    }

    /** Reads a board, which may fail, and makes a frame of it. */
    method Read(channel: Channel, readable: Channel -> bool) returns (r: Option<Frame>)
      ensures r == if readable(channel) then Some(Snapshot(channel.String(), clock)) else None
    {
      if !readable(channel) {
        return None;
      }
      return Some(Snapshot(channel.String(), clock));
    }

    /** Sends one connection something of its own. */
    method Tell(sub: int, frame: Frame)
      requires Valid() && sub in subs && (frame.Snapshot? ==> frame.at <= clock)
      modifies this`subs
      ensures Valid() && subs == old(subs)[sub := Offered(old(subs)[sub], frame)]
      ensures Next(old(At([], Between)), Step.Tell(sub, frame), At([], Between))
    {
      ghost var was := At([], Between);
      var kept := Deliver(sub, frame);
      NextKeeps(was, Step.Tell(sub, frame), At([], Between));
    }

    /** Sends a new listener the board as it is. */
    method Publish(sub: int, channel: Channel, readable: Channel -> bool) returns (ok: bool)
      requires Valid() && sub in subs
      modifies this`subs
      ensures Valid() && ok == readable(channel)
      ensures subs == if ok then old(subs)[sub := Offered(old(subs)[sub], Snapshot(channel.String(), clock))] else old(subs)
      ensures ok ==> Next(old(At([], Between)), Step.Tell(sub, Snapshot(channel.String(), clock)), At([], Between))
    {
      var frame := Read(channel, readable);
      if frame.None? {
        return false;
      }
      Tell(sub, frame.value);
      return true;
    }

    /** Hands a frame to each of a set of connections, in a flush that has so much left to do. */
    method HandOut(frame: Frame, all: set<int>, ghost left: seq<Channel>) returns (sent: nat, dropped: nat, ghost end: Phase)
      requires all <= subs.Keys
      modifies this`subs
      ensures OfferedTo(old(subs), frame, all, subs)
      ensures sent + dropped == |all| && dropped == |Full(old(subs), all)|
      ensures end.Sending? && end.due == {}
      ensures Reaches(old(At(left, Sending(frame, all, all, {}, {}))), At(left, end))
    {
      var due := all;
      sent, dropped := 0, 0;
      end := Sending(frame, all, all, {}, {});
      ghost var was := At(left, end);
      ReachesItself(was);
      while due != {}
        invariant due <= all && HandedOut(old(subs), frame, all - due, subs, sent, dropped)
        invariant end.Sending? && end.frame == frame && end.due == due && Reaches(was, At(left, end))
        decreases due
      {
        ghost var some := Sets.Any(due);
        var sub :| sub in due;
        ghost var middle := At(left, end);
        var kept := Deliver(sub, frame);
        end := Handed(end, sub, kept);
        HandedOutOneMore(old(subs), frame, all, due, middle.subs, sub, subs, sent, dropped);
        SendStep(middle, sub, At(left, end));
        ReachesByStep(was, middle, Send(sub), At(left, end));
        if kept {
          sent := sent + 1;
        } else {
          dropped := dropped + 1;
        }
        due := due - {sub};
      }
      assert all - {} == all;
    }

    /** Hands a frame to everybody on a channel. Each gets it or is dropped, and the two counts add up. */
    method Broadcast(channel: Channel, frame: Frame, ghost left: seq<Channel>) returns (sent: nat, dropped: nat)
      requires Valid() && frame.Snapshot? && frame.name == channel.String()
      modifies this`subs
      ensures Valid() && OfferedTo(old(subs), frame, Listeners(channels, channel.String()), subs)
      ensures Listeners(channels, channel.String()) <= old(subs).Keys
      ensures sent + dropped == |Listeners(channels, channel.String())|
      ensures dropped == |Full(old(subs), Listeners(channels, channel.String()))|
      ensures Reaches(old(At(left, Holding(frame))), At(left, Between))
    {
      ghost var was, held := At([], Between), At(left, Holding(frame));
      var all := Listeners(channels, channel.String());
      ListenersKnown(was, channel.String());
      GatherStep(held, frame);
      ReachesItself(held);
      ghost var sending := At(left, Sending(frame, all, all, {}, {}));
      ReachesByStep(held, held, Gather, sending);
      ghost var end;
      sent, dropped, end := HandOut(frame, all, left);
      ReachesChains(held, sending, At(left, end));
      EndStep(At(left, end));
      ReachesByStep(held, At(left, end), EndChannel, At(left, Between));
      OfferingKeeps(was, frame, all, At([], Between));
    }

    /** One turn of a flush: nothing is read for a channel nobody listens to. */
    method FlushOne(channel: Channel, readable: Channel -> bool, ghost list: seq<Channel>)
      requires Valid() && list != [] && list[0] == channel
      modifies this`subs
      ensures Valid() && Turn(old(subs), channel, channels, readable, clock, subs)
      ensures Reaches(old(At(list, Between)), At(list[1..], Between))
    {
      ghost var was, left := At(list, Between), list[1..];
      ReachesItself(was);
      var listening := Subscribers(channel);
      if listening == 0 {
        SkipStep(was);
        ReachesByStep(was, was, Skip, At(left, Between));
        return;
      }
      var frame := Read(channel, readable);
      ReadStep(was, frame.Some?);
      ReachesByStep(was, was, Step.Read(frame.Some?), At(left, if frame.Some? then Holding(frame.value) else Between));
      if frame.Some? {
        ghost var held := At(left, Holding(frame.value));
        var sent, dropped := Broadcast(channel, frame.value, left);
        ReachesChains(was, held, At(left, Between));
      }
    }

    method FlushAll(list: seq<Channel>, readable: Channel -> bool)
      requires Valid()
      modifies this`subs
      ensures Valid() && Flushed(old(subs), list, channels, readable, clock, subs)
      ensures Reaches(old(At(list, Between)), At([], Between))
    {
      var i := 0;
      ghost var was := At(list, Between);
      FlushedNothing(subs, channels, readable, clock);
      ReachesItself(was);
      assert list[..0] == [] && list[0..] == list;
      while i < |list|
        invariant 0 <= i <= |list| && Valid()
        invariant Flushed(old(subs), list[..i], channels, readable, clock, subs)
        invariant Reaches(was, At(list[i..], Between))
      {
        ghost var sofar := At(list[i..], Between);
        FlushOne(list[i], readable, list[i..]);
        FlushedOne(old(subs), list, i, channels, readable, clock, sofar.subs, subs);
        assert list[i..][1..] == list[i + 1..];
        ReachesChains(was, sofar, At(list[i + 1..], Between));
        i := i + 1;
      }
      assert list[..i] == list && list[i..] == [];
    }

    /** Sends a fresh snapshot of every marked channel that anybody listens to. A board that cannot be read
        is passed over, and its mark is gone. A flush is steps of the machine, with nothing in between. */
    method Flush(readable: Channel -> bool) returns (ghost order: seq<Channel>)
      requires Valid()
      modifies this`dirty, this`subs
      ensures Valid() && dirty == map[] && ListsDirty(order, old(dirty))
      ensures Flushed(old(subs), order, channels, readable, clock, subs)
      ensures Reaches(old(At([], Between)), At([], Between))
    {
      ghost var was := At([], Between);
      var list := TakeDirty();
      ghost var taken := At(list, Between);
      ReachesItself(was);
      ReachesByStep(was, was, Take(list), taken);
      FlushAll(list, readable);
      ReachesChains(was, taken, At([], Between));
      order := list;
    }
  }
}
