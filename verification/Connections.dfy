/** One connection: the messages it may send, and the list it keeps of what it is subscribed to. */
module Connections {
  import opened Wrappers
  import opened Channels
  import opened Fanout
  import opened Hubs

  type Subscribed = map<string, Channel>

  /** What a client asks for, name by name: a channel, or something that is none. */
  type Request = Result<Channel, Channels.Error>

  function ParseAll(names: seq<string>): (asked: seq<Request>)
    ensures |asked| == |names| && forall i | 0 <= i < |names| :: asked[i] == Parse(names[i])
  {
    if names == [] then [] else [Parse(names[0])] + ParseAll(names[1..])
  }

  /** One request: a channel is added unless it is there already, anything else is passed over. */
  function AskedOne(subscribed: Subscribed, r: Request): Subscribed {
    if r.Ok? && r.value.String() !in subscribed then subscribed[r.value.String() := r.value] else subscribed
  }

  /** And answered with the board, if it can be read, or with a rejection. */
  function ReplyTo(subscribed: Subscribed, r: Request, readable: Channel -> bool, at: int): seq<Frame> {
    if r.Err? then [Rejection]
    else if r.value.String() in subscribed || !readable(r.value) then []
    else [Snapshot(r.value.String(), at)]
  }

  /** A whole message. At the limit the rest of it is not looked at. */
  function Asked(subscribed: Subscribed, asked: seq<Request>, max: nat): Subscribed
    decreases asked
  {
    if asked == [] || |subscribed| >= max then subscribed else Asked(AskedOne(subscribed, asked[0]), asked[1..], max)
  }

  function Replies(subscribed: Subscribed, asked: seq<Request>, max: nat, readable: Channel -> bool, at: int): seq<Frame>
    decreases asked
  {
    if asked == [] then [Welcome(subscribed.Keys)]
    else if |subscribed| >= max then [Rejection]
    else
      ReplyTo(subscribed, asked[0], readable, at) +
      Replies(AskedOne(subscribed, asked[0]), asked[1..], max, readable, at)
  }

  predicate Names(subscribed: Subscribed) {
    forall name | name in subscribed :: subscribed[name].Known() && subscribed[name].String() == name
  }

  predicate AllKnown(asked: seq<Request>) {
    forall i | 0 <= i < |asked| :: asked[i].Ok? ==> asked[i].value.Known()
  }

  lemma AskedOneMeans(subscribed: Subscribed, r: Request)
    requires Names(subscribed) && (r.Ok? ==> r.value.Known())
    ensures var now := AskedOne(subscribed, r);
            && Names(now) && |now| <= |subscribed| + 1
            && subscribed.Keys <= now.Keys
            && (forall name | name in now :: name in subscribed || r == Ok(now[name]))
            && (r.Ok? ==> r.value.String() in now)
  {
  }

  lemma {:induction false} AskingKeeps(subscribed: Subscribed, asked: seq<Request>, max: nat)
    requires Names(subscribed) && AllKnown(asked) && |subscribed| <= max
    ensures var now := Asked(subscribed, asked, max);
            Names(now) && |now| <= max && subscribed.Keys <= now.Keys
    decreases asked
  {
    if asked != [] && |subscribed| < max {
      AskedOneMeans(subscribed, asked[0]);
      AskingKeeps(AskedOne(subscribed, asked[0]), asked[1..], max);
    }
  }

  lemma {:induction false} AskingAddsOnly(subscribed: Subscribed, asked: seq<Request>, max: nat)
    requires Names(subscribed) && AllKnown(asked) && |subscribed| <= max
    ensures var now := Asked(subscribed, asked, max);
            forall name | name in now :: name in subscribed || Ok(now[name]) in asked
    decreases asked
  {
    if asked != [] && |subscribed| < max {
      var one := AskedOne(subscribed, asked[0]);
      AskedOneMeans(subscribed, asked[0]);
      AskingKeeps(one, asked[1..], max);
      AskingAddsOnly(one, asked[1..], max);
      AddedFirst(subscribed, asked[0], Asked(one, asked[1..], max));
      assert forall r | r in asked[1..] :: r in asked;
    }
  }

  lemma {:induction false} AskingAddsAll(subscribed: Subscribed, asked: seq<Request>, max: nat, i: nat)
    requires Names(subscribed) && AllKnown(asked) && |subscribed| <= max
    requires |Asked(subscribed, asked, max)| < max && i < |asked| && asked[i].Ok?
    ensures asked[i].value.String() in Asked(subscribed, asked, max)
    decreases asked
  {
    AskingKeeps(subscribed, asked, max);
    if |subscribed| < max {
      var one := AskedOne(subscribed, asked[0]);
      AskedOneMeans(subscribed, asked[0]);
      AskingKeeps(one, asked[1..], max);
      if i > 0 {
        AskingAddsAll(one, asked[1..], max, i - 1);
      }
    }
  }

  /** Asking never loses a subscription, never passes the limit, adds only what was asked for, and adds all of
      it unless the limit is reached. */
  lemma AskingMeans(subscribed: Subscribed, asked: seq<Request>, max: nat)
    requires Names(subscribed) && AllKnown(asked) && |subscribed| <= max
    ensures var now := Asked(subscribed, asked, max);
            && Names(now) && |now| <= max
            && subscribed.Keys <= now.Keys
            && (forall name | name in now :: name in subscribed || Ok(now[name]) in asked)
            && (|now| < max ==> forall i | 0 <= i < |asked| && asked[i].Ok? :: asked[i].value.String() in now)
  {
    AskingKeeps(subscribed, asked, max);
    AskingAddsOnly(subscribed, asked, max);
    if |Asked(subscribed, asked, max)| < max {
      forall i | 0 <= i < |asked| && asked[i].Ok? ensures asked[i].value.String() in Asked(subscribed, asked, max) {
        AskingAddsAll(subscribed, asked, max, i);
      }
    }
  }

  lemma AddedFirst(subscribed: Subscribed, r: Request, now: Subscribed)
    requires Names(now) && (r.Ok? ==> r.value.Known())
    requires AskedOne(subscribed, r).Keys <= now.Keys
    ensures forall name | name in AskedOne(subscribed, r) && name !in subscribed :: r == Ok(now[name])
  {
    if r.Ok? && r.value.String() in now {
      SameName(now[r.value.String()], r.value);
    }
  }

  lemma SameName(a: Channel, b: Channel)
    requires a.Known() && b.Known() && a.String() == b.String()
    ensures a == b
  {
    ParseIsInverse(a.String(), a);
    ParseIsInverse(a.String(), b);
  }

  /** In terms of what the client wrote: the channels it has afterwards are those it had and names it asked
      for that are channels, all of them unless it has reached the limit. */
  lemma AskingByName(subscribed: Subscribed, names: seq<string>, max: nat)
    requires Names(subscribed) && |subscribed| <= max
    ensures var now := Asked(subscribed, ParseAll(names), max);
            && Names(now) && |now| <= max
            && subscribed.Keys <= now.Keys <= subscribed.Keys + set name | name in names && Parse(name).Ok?
            && (|now| < max ==> now.Keys == subscribed.Keys + set name | name in names && Parse(name).Ok?)
  {
    var asked, now := ParseAll(names), Asked(subscribed, ParseAll(names), max);
    ParsedByName(names);
    AskingMeans(subscribed, asked, max);
    forall name | name in now && name !in subscribed ensures name in names && Parse(name).Ok? {
      AddedByName(now, names, name);
    }
    if |now| < max {
      forall name | name in names && Parse(name).Ok? ensures name in now {
        AskedByName(now, names, name);
      }
    }
  }

  lemma AddedByName(now: Subscribed, names: seq<string>, name: string)
    requires Names(now) && name in now && Ok(now[name]) in ParseAll(names)
    ensures name in names && Parse(name).Ok?
  {
    ParsedByName(names);
    var i :| 0 <= i < |names| && ParseAll(names)[i] == Ok(now[name]);
    assert names[i] == name;
  }

  lemma AskedByName(now: Subscribed, names: seq<string>, name: string)
    requires name in names && Parse(name).Ok?
    requires var asked := ParseAll(names); forall i | 0 <= i < |asked| && asked[i].Ok? :: asked[i].value.String() in now
    ensures name in now
  {
    ParsedByName(names);
    var i :| 0 <= i < |names| && names[i] == name;
    assert ParseAll(names)[i].Ok?;
  }

  lemma ParsedByName(names: seq<string>)
    ensures var asked := ParseAll(names);
            forall i | 0 <= i < |asked| && asked[i].Ok? :: asked[i].value.Known() && asked[i].value.String() == names[i]
  {
    var asked := ParseAll(names);
    forall i | 0 <= i < |asked| && asked[i].Ok? ensures asked[i].value.Known() && asked[i].value.String() == names[i] {
      ParseIsInverse(names[i], asked[i].value);
    }
  }

  /** The last thing said is what the connection ends up with, or that it is full. */
  lemma {:induction false} LastReply(subscribed: Subscribed, asked: seq<Request>, max: nat, readable: Channel -> bool, at: int)
    requires |subscribed| <= max
    ensures var said, now := Replies(subscribed, asked, max, readable, at), Asked(subscribed, asked, max);
            && said != []
            && (said[|said| - 1] == Welcome(now.Keys) || (said[|said| - 1] == Rejection && |now| == max))
    decreases asked
  {
    if asked != [] && |subscribed| < max {
      LastReply(AskedOne(subscribed, asked[0]), asked[1..], max, readable, at);
    }
  }

  // ------------------------------------------------------------------------------- what a message is answered

  /** What a client asks for, by name: a board, which may be readable or not, or something that is none. */
  datatype Ask = ForNone | For(name: string, readable: bool)

  function AskOf(r: Request, readable: Channel -> bool): Ask {
    if r.Err? then ForNone else For(r.value.String(), readable(r.value))
  }

  function AsksOf(asked: seq<Request>, readable: Channel -> bool): seq<Ask> {
    seq(|asked|, i requires 0 <= i < |asked| => AskOf(asked[i], readable))
  }

  /** The boards among the first n of them, and how many of them are none. */
  function Real(asks: seq<Ask>, n: nat): set<string>
    requires n <= |asks|
  {
    if n == 0 then {} else Real(asks, n - 1) + if asks[n - 1].For? then {asks[n - 1].name} else {}
  }

  function Unreal(asks: seq<Ask>, n: nat): nat
    requires n <= |asks|
  {
    if n == 0 then 0 else Unreal(asks, n - 1) + if asks[n - 1].ForNone? then 1 else 0
  }

  /** Whether a message is still looked at after n names: there are more, and those so far have left room. */
  predicate GoesOn(had: set<string>, asks: seq<Ask>, max: nat, n: nat) {
    n < |asks| && |had + Real(asks, n)| < max
  }

  predicate GoesOnFor(had: set<string>, asks: seq<Ask>, max: nat, n: nat) {
    forall k: nat | k < n :: GoesOn(had, asks, max, k)
  }

  /** A message is looked at up to some name. */
  predicate LooksAt(had: set<string>, asks: seq<Ask>, max: nat, n: nat) {
    n <= |asks| && !GoesOn(had, asks, max, n) && GoesOnFor(had, asks, max, n)
  }

  /** What a name is answered, told from the message and the list before it: the board, if it can be read, is new
      to the connection and has not been asked for before in the message; or a rejection. */
  function AnswerTo(had: set<string>, asks: seq<Ask>, at: int, i: nat): seq<Frame>
    requires i < |asks|
  {
    match asks[i]
    case ForNone => [Rejection]
    case For(name, readable) => if readable && name !in had && name !in Real(asks, i) then [Snapshot(name, at)] else []
  }

  /** The answers to the first n names, in their order. */
  function AnswersTo(had: set<string>, asks: seq<Ask>, at: int, n: nat): seq<Frame>
    requires n <= |asks|
  {
    if n == 0 then [] else AnswersTo(had, asks, at, n - 1) + AnswerTo(had, asks, at, n - 1)
  }

  /** A message has been answered up to some name as it alone tells, and so the rest is from there. */
  ghost predicate AnsweredUpTo(start: Subscribed, asked: seq<Request>, max: nat, readable: Channel -> bool, at: int, n: nat,
                               now: Subscribed)
    requires n <= |asked|
  {
    && now.Keys == start.Keys + Real(AsksOf(asked, readable), n)
    && Asked(now, asked[n..], max) == Asked(start, asked, max)
    && AnswersTo(start.Keys, AsksOf(asked, readable), at, n) + Replies(now, asked[n..], max, readable, at) ==
       Replies(start, asked, max, readable, at)
  }

  lemma SizeOfKeys(now: Subscribed)
    ensures |now| == |now.Keys|
  {
  }

  /** The list the connection keeps meanwhile says the same as what of the message has been looked at. */
  lemma ReplyIsAnswer(start: Subscribed, asked: seq<Request>, readable: Channel -> bool, at: int, n: nat, now: Subscribed)
    requires n < |asked| && now.Keys == start.Keys + Real(AsksOf(asked, readable), n)
    ensures ReplyTo(now, asked[n], readable, at) == AnswerTo(start.Keys, AsksOf(asked, readable), at, n)
    ensures AskedOne(now, asked[n]).Keys == start.Keys + Real(AsksOf(asked, readable), n + 1)
  {
    assert AsksOf(asked, readable)[n] == AskOf(asked[n], readable);
  }

  lemma Regroup(a: seq<Frame>, b: seq<Frame>, c: seq<Frame>)
    ensures a + (b + c) == a + b + c
  {
  }

  lemma AnsweredOneMore(start: Subscribed, asked: seq<Request>, max: nat, readable: Channel -> bool, at: int, n: nat, now: Subscribed)
    requires n < |asked| && AnsweredUpTo(start, asked, max, readable, at, n, now) && GoesOn(start.Keys, AsksOf(asked, readable), max, n)
    ensures AnsweredUpTo(start, asked, max, readable, at, n + 1, AskedOne(now, asked[n]))
  {
    SizeOfKeys(now);
    ReplyIsAnswer(start, asked, readable, at, n, now);
    assert asked[n..][0] == asked[n] && asked[n..][1..] == asked[n + 1..];
    Regroup(AnswersTo(start.Keys, AsksOf(asked, readable), at, n), ReplyTo(now, asked[n], readable, at),
            Replies(AskedOne(now, asked[n]), asked[n + 1..], max, readable, at));
  }

  lemma AnsweredNothing(start: Subscribed, asked: seq<Request>, max: nat, readable: Channel -> bool, at: int)
    ensures AnsweredUpTo(start, asked, max, readable, at, 0, start)
  {
    assert asked[0..] == asked;
    assert start.Keys + Real(AsksOf(asked, readable), 0) == start.Keys;
    assert [] + Replies(start, asked, max, readable, at) == Replies(start, asked, max, readable, at);
  }

  lemma {:induction false} AnsweredSoFar(start: Subscribed, asked: seq<Request>, max: nat, readable: Channel -> bool, at: int, n: nat)
      returns (now: Subscribed)
    requires n <= |asked| && GoesOnFor(start.Keys, AsksOf(asked, readable), max, n)
    ensures AnsweredUpTo(start, asked, max, readable, at, n, now)
  {
    if n == 0 {
      now := start;
      AnsweredNothing(start, asked, max, readable, at);
    } else {
      GoesOnBefore(start.Keys, AsksOf(asked, readable), max, n);
      var before := AnsweredSoFar(start, asked, max, readable, at, n - 1);
      AnsweredOneMore(start, asked, max, readable, at, n - 1, before);
      now := AskedOne(before, asked[n - 1]);
    }
  }

  lemma GoesOnBefore(had: set<string>, asks: seq<Ask>, max: nat, n: nat)
    requires n > 0 && GoesOnFor(had, asks, max, n)
    ensures GoesOnFor(had, asks, max, n - 1) && GoesOn(had, asks, max, n - 1)
  {
  }

  lemma GoesOnAfter(had: set<string>, asks: seq<Ask>, max: nat, n: nat)
    requires GoesOnFor(had, asks, max, n) && GoesOn(had, asks, max, n)
    ensures GoesOnFor(had, asks, max, n + 1)
  {
  }

  lemma {:induction false} LooksSomewhere(had: set<string>, asks: seq<Ask>, max: nat, from: nat) returns (n: nat)
    requires from <= |asks| && GoesOnFor(had, asks, max, from)
    ensures LooksAt(had, asks, max, n)
    decreases |asks| - from
  {
    n := from;
    if GoesOn(had, asks, max, from) {
      GoesOnAfter(had, asks, max, from);
      n := LooksSomewhere(had, asks, max, from + 1);
    }
  }

  /** What a message is answered with, told from the message and the list before it: the answers to the names it
      looks at, in order; then the list as it has become, or that it is full. */
  ghost predicate RightlyAnswered(had: set<string>, asks: seq<Ask>, max: nat, at: int, now: set<string>, said: seq<Frame>) {
    exists n: nat :: LooksAt(had, asks, max, n) && AnsweredAt(had, asks, at, now, said, n)
  }

  ghost predicate AnsweredAt(had: set<string>, asks: seq<Ask>, at: int, now: set<string>, said: seq<Frame>, n: nat)
    requires n <= |asks|
  {
    now == had + Real(asks, n) && said == AnswersTo(had, asks, at, n) + [if n == |asks| then Welcome(now) else Rejection]
  }

  lemma AnswersEnd(start: Subscribed, asked: seq<Request>, max: nat, readable: Channel -> bool, at: int, n: nat, now: Subscribed)
    requires LooksAt(start.Keys, AsksOf(asked, readable), max, n) && AnsweredUpTo(start, asked, max, readable, at, n, now)
    ensures AnsweredAt(start.Keys, AsksOf(asked, readable), at, Asked(start, asked, max).Keys,
                       Replies(start, asked, max, readable, at), n)
  {
    SizeOfKeys(now);
  }

  lemma RepliesAreRight(start: Subscribed, asked: seq<Request>, max: nat, readable: Channel -> bool, at: int)
    ensures RightlyAnswered(start.Keys, AsksOf(asked, readable), max, at, Asked(start, asked, max).Keys,
                            Replies(start, asked, max, readable, at))
  {
    var n := LooksSomewhere(start.Keys, AsksOf(asked, readable), max, 0);
    var now := AnsweredSoFar(start, asked, max, readable, at, n);
    AnswersEnd(start, asked, max, readable, at, n, now);
  }

  /** How often something has been said. */
  function Times(said: seq<Frame>, frame: Frame): nat {
    multiset(said)[frame]
  }

  lemma TimesAdd(said: seq<Frame>, more: seq<Frame>, frame: Frame)
    ensures Times(said + more, frame) == Times(said, frame) + Times(more, frame)
  {
  }

  lemma AnswerShows(had: set<string>, asks: seq<Ask>, at: int, i: nat, name: string, t: int)
    requires i < |asks|
    ensures Times(AnswerTo(had, asks, at, i), Snapshot(name, t)) ==
            if t == at && asks[i] == For(name, true) && name !in had && name !in Real(asks, i) then 1 else 0
  {
  }

  /** A board reads the same all through the first n names. */
  predicate ReadsAs(asks: seq<Ask>, n: nat, name: string, readable: bool) {
    forall i | 0 <= i < n && i < |asks| :: asks[i] != For(name, !readable)
  }

  /** A board is shown among the answers to the first n names once, if it was asked for by then, can be read and
      is new. */
  predicate ShownOnce(had: set<string>, asks: seq<Ask>, at: int, n: nat, name: string, readable: bool, t: int)
    requires n <= |asks|
  {
    Times(AnswersTo(had, asks, at, n), Snapshot(name, t)) ==
    if t == at && readable && name !in had && name in Real(asks, n) then 1 else 0
  }

  lemma ShownOneMore(had: set<string>, asks: seq<Ask>, at: int, n: nat, name: string, readable: bool, t: int)
    requires 0 < n <= |asks| && asks[n - 1] != For(name, !readable) && ShownOnce(had, asks, at, n - 1, name, readable, t)
    ensures ShownOnce(had, asks, at, n, name, readable, t)
  {
    AnswerShows(had, asks, at, n - 1, name, t);
    TimesAdd(AnswersTo(had, asks, at, n - 1), AnswerTo(had, asks, at, n - 1), Snapshot(name, t));
    if asks[n - 1].For? && asks[n - 1].name == name {
      assert asks[n - 1] == For(name, readable);
    }
  }

  lemma ReadsEarlier(asks: seq<Ask>, n: nat, name: string, readable: bool)
    requires 0 < n <= |asks| && ReadsAs(asks, n, name, readable)
    ensures ReadsAs(asks, n - 1, name, readable) && asks[n - 1] != For(name, !readable)
  {
  }

  lemma ShownNotYet(had: set<string>, asks: seq<Ask>, at: int, name: string, readable: bool, t: int)
    ensures ShownOnce(had, asks, at, 0, name, readable, t)
  {
  }

  lemma {:induction false} BoardShown(had: set<string>, asks: seq<Ask>, at: int, n: nat, name: string, readable: bool, t: int)
    requires n <= |asks| && ReadsAs(asks, n, name, readable)
    ensures ShownOnce(had, asks, at, n, name, readable, t)
  {
    if n == 0 {
      ShownNotYet(had, asks, at, name, readable, t);
    } else {
      ReadsEarlier(asks, n, name, readable);
      BoardShown(had, asks, at, n - 1, name, readable, t);
      ShownOneMore(had, asks, at, n, name, readable, t);
    }
  }

  lemma {:induction false} RejectionsSaid(had: set<string>, asks: seq<Ask>, at: int, n: nat)
    requires n <= |asks|
    ensures Times(AnswersTo(had, asks, at, n), Rejection) == Unreal(asks, n)
  {
    if n > 0 {
      RejectionsSaid(had, asks, at, n - 1);
      TimesAdd(AnswersTo(had, asks, at, n - 1), AnswerTo(had, asks, at, n - 1), Rejection);
    }
  }

  /** Every board that is new on the connection's list and can be read is shown exactly once, as of now, before the
      message is confirmed or refused, and no board is shown besides. */
  lemma NewBoardsAreShown(start: Subscribed, asked: seq<Request>, max: nat, readable: Channel -> bool, at: int, now: set<string>,
                          said: seq<Frame>, c: Channel, t: int)
    requires AllKnown(asked) && c.Known()
    requires RightlyAnswered(start.Keys, AsksOf(asked, readable), max, at, now, said)
    ensures Times(said, Snapshot(c.String(), t)) ==
            if t == at && c.String() in now && c.String() !in start && readable(c) then 1 else 0
    ensures said != [] && !said[|said| - 1].Snapshot?
  {
    var had, asks := start.Keys, AsksOf(asked, readable);
    var n: nat :| LooksAt(had, asks, max, n) && AnsweredAt(had, asks, at, now, said, n);
    forall i | 0 <= i < n ensures asks[i] != For(c.String(), !readable(c)) {
      if asks[i].For? && asks[i].name == c.String() {
        SameName(asked[i].value, c);
      }
    }
    BoardShown(had, asks, at, n, c.String(), readable(c), t);
    TimesAdd(AnswersTo(had, asks, at, n), [said[|said| - 1]], Snapshot(c.String(), t));
  }

  /** And each name looked at that is no channel's is rejected, and the message itself if it is not looked at to
      its end. */
  lemma OthersAreRejected(had: set<string>, asks: seq<Ask>, max: nat, at: int, now: set<string>, said: seq<Frame>) returns (n: nat)
    requires RightlyAnswered(had, asks, max, at, now, said)
    ensures LooksAt(had, asks, max, n)
    ensures Times(said, Rejection) == Unreal(asks, n) + if n < |asks| then 1 else 0
  {
    n :| LooksAt(had, asks, max, n) && AnsweredAt(had, asks, at, now, said, n);
    RejectionsSaid(had, asks, at, n);
    TimesAdd(AnswersTo(had, asks, at, n), [said[|said| - 1]], Rejection);
  }

  /** The connection's list and the hub's index say the same. */
  ghost predicate Agrees(subscribed: Subscribed, channels: Index, sub: int) {
    forall name :: name in subscribed <==> sub in Listeners(channels, name)
  }

  /** Nobody else's subscriptions have changed. */
  ghost predicate OnlyOf(sub: int, before: Index, after: Index) {
    forall name :: Listeners(before, name) - {sub} == Listeners(after, name) - {sub}
  }

  /** So what one connection does leaves the agreement of every other as it was. */
  lemma OthersAgreeStill(subscribed: Subscribed, before: Index, sub: int, after: Index, other: int)
    requires Agrees(subscribed, before, sub) && OnlyOf(other, before, after) && other != sub
    ensures Agrees(subscribed, after, sub)
  {
    forall name ensures name in subscribed <==> sub in Listeners(after, name) {
      assert Listeners(before, name) - {other} == Listeners(after, name) - {other};
      assert sub in Listeners(before, name) <==> sub in Listeners(before, name) - {other};
      assert sub in Listeners(after, name) <==> sub in Listeners(after, name) - {other};
    }
  }

  lemma JoiningAgrees(subscribed: Subscribed, before: Index, sub: int, c: Channel, after: Index)
    requires Agrees(subscribed, before, sub) && Names(subscribed) && c.Known()
    requires forall name :: Listeners(after, name) == Listeners(before, name) + (if name == c.String() then {sub} else {})
    ensures Agrees(subscribed[c.String() := c], after, sub) && Names(subscribed[c.String() := c]) && OnlyOf(sub, before, after)
  {
  }

  lemma LeavingAgrees(subscribed: Subscribed, before: Index, sub: int, name: string, after: Index)
    requires Agrees(subscribed, before, sub) && Names(subscribed)
    requires forall n :: Listeners(after, n) == Listeners(before, n) - (if n == name then {sub} else {})
    ensures Agrees(subscribed - {name}, after, sub) && Names(subscribed - {name}) && OnlyOf(sub, before, after)
  {
  }

  /** Partway through a message: what has been said and what is left of it make up the whole. */
  ghost predicate Asking(start: Subscribed, asked: seq<Request>, max: nat, readable: Channel -> bool, at: int,
                         now: Subscribed, left: seq<Request>, said: seq<Frame>) {
    && Asked(now, left, max) == Asked(start, asked, max)
    && said + Replies(now, left, max, readable, at) == Replies(start, asked, max, readable, at)
  }

  lemma AskingOneMore(start: Subscribed, asked: seq<Request>, max: nat, readable: Channel -> bool, at: int,
                      now: Subscribed, left: seq<Request>, said: seq<Frame>)
    requires Asking(start, asked, max, readable, at, now, left, said) && left != [] && |now| < max
    ensures Asking(start, asked, max, readable, at, AskedOne(now, left[0]), left[1..], said + ReplyTo(now, left[0], readable, at))
  {
    var reply, rest := ReplyTo(now, left[0], readable, at), Replies(AskedOne(now, left[0]), left[1..], max, readable, at);
    assert said + reply + rest == said + (reply + rest);
  }

  lemma AskingEnds(start: Subscribed, asked: seq<Request>, max: nat, readable: Channel -> bool, at: int,
                   now: Subscribed, left: seq<Request>, said: seq<Frame>)
    requires Asking(start, asked, max, readable, at, now, left, said) && (left == [] || |now| >= max)
    ensures now == Asked(start, asked, max)
    ensures said + [if left == [] then Welcome(now.Keys) else Rejection] == Replies(start, asked, max, readable, at)
  {
  }

  /** One connection has been sent some frames in turn, and no other anything. */
  ghost predicate Told(before: map<int, Subscriber>, sub: int, frames: seq<Frame>, after: map<int, Subscriber>) {
    sub in before && after == before[sub := OfferedAll(before[sub], frames)]
  }

  lemma ToldNothing(before: map<int, Subscriber>, sub: int)
    requires sub in before
    ensures Told(before, sub, [], before)
  {
    assert before[sub := before[sub]] == before;
  }

  lemma ToldOneMore(before: map<int, Subscriber>, sub: int, said: seq<Frame>, middle: map<int, Subscriber>, frame: Frame,
                    after: map<int, Subscriber>)
    requires Told(before, sub, said, middle) && after == middle[sub := Offered(middle[sub], frame)]
    ensures Told(before, sub, said + [frame], after)
  {
    assert (said + [frame])[..|said|] == said;
  }

  lemma ToldMore(before: map<int, Subscriber>, sub: int, said: seq<Frame>, middle: map<int, Subscriber>, more: seq<Frame>,
                 after: map<int, Subscriber>)
    requires Told(before, sub, said, middle) && Told(middle, sub, more, after)
    ensures Told(before, sub, said + more, after)
  {
    OfferedInTurn(before[sub], said, more);
  }

  /** Partway through a message, with what the connection has been sent so far. */
  ghost predicate Underway(before: map<int, Subscriber>, sub: int, start: Subscribed, asked: seq<Request>, max: nat,
                           readable: Channel -> bool, at: int, now: Subscribed, left: seq<Request>, subs: map<int, Subscriber>) {
    exists said: seq<Frame> :: Told(before, sub, said, subs) && Asking(start, asked, max, readable, at, now, left, said)
  }

  lemma UnderwayAtFirst(before: map<int, Subscriber>, sub: int, start: Subscribed, asked: seq<Request>, max: nat,
                        readable: Channel -> bool, at: int)
    requires sub in before
    ensures Underway(before, sub, start, asked, max, readable, at, start, asked, before)
  {
    ToldNothing(before, sub);
    var replies := Replies(start, asked, max, readable, at);
    assert [] + replies == replies;
    assert Asking(start, asked, max, readable, at, start, asked, []);
  }

  lemma UnderwayOneMore(before: map<int, Subscriber>, sub: int, start: Subscribed, asked: seq<Request>, max: nat,
                        readable: Channel -> bool, at: int, now: Subscribed, left: seq<Request>, middle: map<int, Subscriber>,
                        after: map<int, Subscriber>)
    requires Underway(before, sub, start, asked, max, readable, at, now, left, middle) && left != [] && |now| < max
    requires Told(middle, sub, ReplyTo(now, left[0], readable, at), after)
    ensures Underway(before, sub, start, asked, max, readable, at, AskedOne(now, left[0]), left[1..], after)
  {
    var said: seq<Frame> :| Told(before, sub, said, middle) && Asking(start, asked, max, readable, at, now, left, said);
    var reply := ReplyTo(now, left[0], readable, at);
    ToldMore(before, sub, said, middle, reply, after);
    AskingOneMore(start, asked, max, readable, at, now, left, said);
    assert Told(before, sub, said + reply, after);
  }

  lemma UnderwayEnds(before: map<int, Subscriber>, sub: int, start: Subscribed, asked: seq<Request>, max: nat,
                     readable: Channel -> bool, at: int, now: Subscribed, left: seq<Request>, middle: map<int, Subscriber>,
                     after: map<int, Subscriber>)
    requires Underway(before, sub, start, asked, max, readable, at, now, left, middle) && (left == [] || |now| >= max)
    requires Told(middle, sub, [if left == [] then Welcome(now.Keys) else Rejection], after)
    ensures now == Asked(start, asked, max)
    ensures Told(before, sub, Replies(start, asked, max, readable, at), after)
  {
    var said: seq<Frame> :| Told(before, sub, said, middle) && Asking(start, asked, max, readable, at, now, left, said);
    ToldMore(before, sub, said, middle, [if left == [] then Welcome(now.Keys) else Rejection], after);
    AskingEnds(start, asked, max, readable, at, now, left, said);
  }

  function Without(subscribed: Subscribed, names: seq<string>): Subscribed
    decreases names
  {
    if names == [] then subscribed else Without(subscribed - {names[0]}, names[1..])
  }

  /** Exactly the named channels are given up. */
  lemma {:induction false} WithoutMeans(subscribed: Subscribed, names: seq<string>)
    ensures Without(subscribed, names) == subscribed - set name | name in names
    decreases names
  {
    if names != [] {
      WithoutMeans(subscribed - {names[0]}, names[1..]);
      assert names == [names[0]] + names[1..];
    }
  }

  lemma OnlyOfTwice(sub: int, a: Index, b: Index, c: Index)
    requires OnlyOf(sub, a, b) && OnlyOf(sub, b, c)
    ensures OnlyOf(sub, a, c)
  {
    forall name ensures Listeners(a, name) - {sub} == Listeners(c, name) - {sub} {
      assert Listeners(a, name) - {sub} == Listeners(b, name) - {sub};
    }
  }

  class Connection {
    const hub: Hub
    const sub: int
    const max: nat
    var subscribed: Subscribed

    constructor (hub: Hub, sub: int, max: nat)
      requires hub.Valid() && sub in hub.subs && forall name :: sub !in Listeners(hub.channels, name)
      ensures Valid() && this.hub == hub && this.sub == sub && this.max == max && subscribed == map[]
    {
      this.hub, this.sub, this.max := hub, sub, max;
      subscribed := map[];
    }

    ghost predicate Valid()
      reads this, hub
    {
      hub.Valid() && sub in hub.subs && Consistent()
    }

    ghost predicate Consistent()
      reads this, hub
    {
      Names(subscribed) && |subscribed| <= max && Agrees(subscribed, hub.channels, sub)
    }

    /** Asks for channels. At the limit the message is refused there and then. */
    method HandleSubscribe(names: seq<string>, readable: Channel -> bool)
      requires Valid()
      modifies this`subscribed, hub`channels, hub`subs
      ensures Valid() && subscribed == Asked(old(subscribed), ParseAll(names), max)
      ensures Told(old(hub.subs), sub, Replies(old(subscribed), ParseAll(names), max, readable, hub.clock), hub.subs)
      ensures RightlyAnswered(old(subscribed).Keys, AsksOf(ParseAll(names), readable), max, hub.clock, subscribed.Keys,
                              Replies(old(subscribed), ParseAll(names), max, readable, hub.clock))
      ensures OnlyOf(sub, old(hub.channels), hub.channels)
    {
      ghost var asked := ParseAll(names);
      RepliesAreRight(subscribed, asked, max, readable, hub.clock);
      UnderwayAtFirst(hub.subs, sub, subscribed, asked, max, readable, hub.clock);
      assert asked[0..] == asked;
      var i := 0;
      while i < |names|
        invariant 0 <= i <= |names| && Valid()
        invariant Underway(old(hub.subs), sub, old(subscribed), asked, max, readable, hub.clock, subscribed, asked[i..], hub.subs)
        invariant OnlyOf(sub, old(hub.channels), hub.channels)
      {
        if |subscribed| >= max {
          ghost var middle := hub.subs;
          Reject();
          UnderwayEnds(old(hub.subs), sub, old(subscribed), asked, max, readable, hub.clock, subscribed, asked[i..], middle, hub.subs);
          return;
        }
        AskNext(names[i], readable, old(hub.subs), old(subscribed), asked, asked[i..], old(hub.channels));
        assert asked[i..][1..] == asked[i + 1..];
        i := i + 1;
      }
      ghost var middle := hub.subs;
      Confirm();
      UnderwayEnds(old(hub.subs), sub, old(subscribed), asked, max, readable, hub.clock, subscribed, asked[i..], middle, hub.subs);
    }

    /** The next name of a message that is under way. */
    method AskNext(name: string, readable: Channel -> bool, ghost before: map<int, Subscriber>, ghost start: Subscribed,
                   ghost asked: seq<Request>, ghost left: seq<Request>, ghost index: Index)
      requires Valid() && |subscribed| < max && left != [] && left[0] == Parse(name)
      requires Underway(before, sub, start, asked, max, readable, hub.clock, subscribed, left, hub.subs)
      requires OnlyOf(sub, index, hub.channels)
      modifies this`subscribed, hub`channels, hub`subs
      ensures Valid() && OnlyOf(sub, index, hub.channels)
      ensures Underway(before, sub, start, asked, max, readable, hub.clock, subscribed, left[1..], hub.subs)
    {
      ghost var now, middle, channels := subscribed, hub.subs, hub.channels;
      Ask(name, readable);
      UnderwayOneMore(before, sub, start, asked, max, readable, hub.clock, now, left, middle, hub.subs);
      OnlyOfTwice(sub, index, channels, hub.channels);
    }

    /** One name of a message: the channel is added to the list and the index, and its board sent as it is. */
    method Ask(name: string, readable: Channel -> bool)
      requires Valid() && |subscribed| < max
      modifies this`subscribed, hub`channels, hub`subs
      ensures Valid() && subscribed == AskedOne(old(subscribed), Parse(name))
      ensures Told(old(hub.subs), sub, ReplyTo(old(subscribed), Parse(name), readable, hub.clock), hub.subs)
      ensures OnlyOf(sub, old(hub.channels), hub.channels)
    {
      var channel := Parse(name);
      if channel.Err? {
        Reject();
        return;
      }
      ParseIsInverse(name, channel.value);
      Enter(channel.value, readable);
    }

    method Enter(channel: Channel, readable: Channel -> bool)
      requires Valid() && |subscribed| < max && channel.Known()
      modifies this`subscribed, hub`channels, hub`subs
      ensures Valid() && subscribed == AskedOne(old(subscribed), Ok(channel))
      ensures Told(old(hub.subs), sub, ReplyTo(old(subscribed), Ok(channel), readable, hub.clock), hub.subs)
      ensures OnlyOf(sub, old(hub.channels), hub.channels)
    {
      ToldNothing(hub.subs, sub);
      if channel.String() in subscribed {
        return;
      }
      Join(channel);
      ShowBoard(channel, readable);
    }

    /** Sends the board as it is, if it can be read. */
    method ShowBoard(channel: Channel, readable: Channel -> bool)
      requires Valid()
      modifies hub`subs
      ensures Valid() && Told(old(hub.subs), sub, if readable(channel) then [Snapshot(channel.String(), hub.clock)] else [], hub.subs)
    {
      ToldNothing(hub.subs, sub);
      var ok := hub.Publish(sub, channel, readable);
      if ok {
        ToldOneMore(old(hub.subs), sub, [], old(hub.subs), Snapshot(channel.String(), hub.clock), hub.subs);
      }
    }

    method Join(channel: Channel)
      requires Valid() && |subscribed| < max && channel.Known() && channel.String() !in subscribed
      modifies this`subscribed, hub`channels
      ensures Valid() && subscribed == old(subscribed)[channel.String() := channel]
      ensures OnlyOf(sub, old(hub.channels), hub.channels)
    {
      subscribed := subscribed[channel.String() := channel];
      hub.Subscribe(sub, channel);
      JoiningAgrees(old(subscribed), old(hub.channels), sub, channel, hub.channels);
    }

    /** Tells the client what it is subscribed to now. */
    method Confirm()
      requires Valid()
      modifies hub`subs
      ensures Valid() && Told(old(hub.subs), sub, [Welcome(subscribed.Keys)], hub.subs)
    {
      ToldNothing(hub.subs, sub);
      hub.Tell(sub, Welcome(subscribed.Keys));
      ToldOneMore(old(hub.subs), sub, [], old(hub.subs), Welcome(subscribed.Keys), hub.subs);
    }

    method Reject()
      requires Valid()
      modifies hub`subs
      ensures Valid() && Told(old(hub.subs), sub, [Rejection], hub.subs)
    {
      ToldNothing(hub.subs, sub);
      hub.Tell(sub, Rejection);
      ToldOneMore(old(hub.subs), sub, [], old(hub.subs), Rejection, hub.subs);
    }

    /** Gives channels up. Names the connection is not subscribed to are passed over. */
    method HandleUnsubscribe(names: seq<string>)
      requires Valid()
      modifies this`subscribed, hub`channels, hub`subs
      ensures Valid() && subscribed == Without(old(subscribed), names)
      ensures Told(old(hub.subs), sub, [Welcome(subscribed.Keys)], hub.subs)
      ensures OnlyOf(sub, old(hub.channels), hub.channels)
    {
      LeaveAll(names);
      Confirm();
    }

    method LeaveAll(names: seq<string>)
      requires Valid()
      modifies this`subscribed, hub`channels
      ensures Valid() && subscribed == Without(old(subscribed), names)
      ensures OnlyOf(sub, old(hub.channels), hub.channels)
    {
      var i := 0;
      assert names[0..] == names;
      while i < |names|
        invariant 0 <= i <= |names| && Valid()
        invariant Without(subscribed, names[i..]) == Without(old(subscribed), names)
        invariant OnlyOf(sub, old(hub.channels), hub.channels)
      {
        ghost var middle := hub.channels;
        Leave(names[i]);
        OnlyOfTwice(sub, old(hub.channels), middle, hub.channels);
        assert names[i..][1..] == names[i + 1..];
        i := i + 1;
      }
    }

    method Leave(name: string)
      requires Valid()
      modifies this`subscribed, hub`channels
      ensures Valid() && subscribed == old(subscribed) - {name}
      ensures OnlyOf(sub, old(hub.channels), hub.channels)
    {
      if name !in subscribed {
        assert subscribed - {name} == subscribed;
        return;
      }
      hub.Unsubscribe(sub, subscribed[name]);
      LeavingAgrees(subscribed, old(hub.channels), sub, name, hub.channels);
      subscribed := subscribed - {name};
    }

    /** The socket has closed: nothing in the hub's index refers to the connection any more. */
    method Close()
      requires Valid()
      modifies hub`channels
      ensures hub.Valid() && OnlyOf(sub, old(hub.channels), hub.channels)
      ensures forall name :: sub !in Listeners(hub.channels, name)
    {
      hub.Remove(sub);
    }
  }
}
