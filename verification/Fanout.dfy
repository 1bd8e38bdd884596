/** The realtime hub as its steps: subscriptions and marks come and go while a flush is under way, and
    each step holds the hub's lock or touches one subscriber's buffer. */
module Fanout {
  import opened Channels

  /** What a connection is sent. A snapshot says which channel it is of and when the board was read, which
      for an opening snapshot may be well before it is handed over: no lock is held in between. */
  datatype Frame = Snapshot(name: string, at: int) | Pong | Rejection | Welcome(names: set<string>)

  /** A connection as the hub sees it: its buffer, whether its drop has been used up, and how often it
      fired. */
  datatype Subscriber = Subscriber(capacity: nat, buffer: seq<Frame>, once: bool, drops: nat)

  predicate Keeps(s: Subscriber) {
    |s.buffer| < s.capacity
  }

  /** A send that never blocks: a full buffer drops the subscriber instead, the first time. */
  function Offered(s: Subscriber, frame: Frame): Subscriber {
    if Keeps(s) then s.(buffer := s.buffer + [frame])
    else if s.once then s
    else s.(once := true, drops := s.drops + 1)
  }

  type Index = map<string, set<int>>

  function Listeners(channels: Index, name: string): set<int> {
    if name in channels then channels[name] else {}
  }

  function Joined(channels: Index, name: string, sub: int): Index {
    channels[name := Listeners(channels, name) + {sub}]
  }

  /** A channel nobody is left on is forgotten. */
  function Left(channels: Index, name: string, sub: int): Index {
    var rest := Listeners(channels, name) - {sub};
    if rest == {} then channels - {name} else channels[name := rest]
  }

  function LeftAll(channels: Index, sub: int): Index {
    map name | name in channels && channels[name] - {sub} != {} :: channels[name] - {sub}
  }

  /** What a flush is at: between channels, holding a frame it has read, or handing it out. */
  datatype Phase = Between | Holding(frame: Frame) | Sending(frame: Frame, all: set<int>, due: set<int>, got: set<int>, lost: set<int>)

  datatype State = State(clock: int, channels: Index, dirty: map<string, Channel>, subs: map<int, Subscriber>,
                         taken: seq<Channel>, phase: Phase)

  datatype Step =
    | Connect(sub: int, capacity: nat)
    | Subscribe(sub: int, channel: Channel)
    | Unsubscribe(sub: int, channel: Channel)
    | Remove(sub: int)
    | Mark(channel: Channel)
    | Take(list: seq<Channel>)
    | Skip
    | Read(ok: bool)
    | Gather
    | Send(sub: int)
    | EndChannel
    | Tell(sub: int, frame: Frame)
    | Drain(sub: int)

  /** A listing of the marked channels, in whatever order. */
  ghost predicate ListsDirty(list: seq<Channel>, dirty: map<string, Channel>) {
    && (forall i | 0 <= i < |list| :: list[i].String() in dirty && dirty[list[i].String()] == list[i])
    && (forall name | name in dirty :: exists i :: 0 <= i < |list| && list[i].String() == name)
    && (forall i, j | 0 <= i < j < |list| :: list[i].String() != list[j].String())
  }

  ghost predicate Next(s: State, step: Step, t: State) {
    match step
    case Connect(sub, capacity) => sub !in s.subs && t == s.(subs := s.subs[sub := Subscriber(capacity, [], false, 0)])
    case Subscribe(sub, channel) => sub in s.subs && t == s.(channels := Joined(s.channels, channel.String(), sub))
    case Unsubscribe(sub, channel) => t == s.(channels := Left(s.channels, channel.String(), sub))
    case Remove(sub) => t == s.(channels := LeftAll(s.channels, sub))
    case Mark(channel) => t == s.(clock := s.clock + 1, dirty := s.dirty[channel.String() := channel])
    case Take(list) =>
      s.taken == [] && s.phase == Between && ListsDirty(list, s.dirty) && t == s.(dirty := map[], taken := list)
    case Skip =>
      && s.taken != [] && s.phase == Between && Listeners(s.channels, s.taken[0].String()) == {}
      && t == s.(taken := s.taken[1..])
    case Read(ok) =>
      && s.taken != [] && s.phase == Between
      && t == s.(taken := s.taken[1..], phase := if ok then Holding(Snapshot(s.taken[0].String(), s.clock)) else Between)
    case Gather =>
      && s.phase.Holding? && s.phase.frame.Snapshot?
      && var all := Listeners(s.channels, s.phase.frame.name);
         t == s.(phase := Sending(s.phase.frame, all, all, {}, {}))
    case Send(sub) =>
      && s.phase.Sending? && sub in s.phase.due && sub in s.subs
      && (var p := s.phase;
          t == s.(subs := s.subs[sub := Offered(s.subs[sub], p.frame)],
                  phase := if Keeps(s.subs[sub]) then p.(due := p.due - {sub}, got := p.got + {sub})
                           else p.(due := p.due - {sub}, lost := p.lost + {sub})))
    case EndChannel => s.phase.Sending? && s.phase.due == {} && t == s.(phase := Between)
    case Tell(sub, frame) =>
      sub in s.subs && (frame.Snapshot? ==> frame.at <= s.clock) && t == s.(subs := s.subs[sub := Offered(s.subs[sub], frame)])
    case Drain(sub) =>
      sub in s.subs && s.subs[sub].buffer != []
      && t == s.(subs := s.subs[sub := s.subs[sub].(buffer := s.subs[sub].buffer[1..])])
  }

  ghost predicate Path(states: seq<State>, steps: seq<Step>) {
    && |states| == |steps| + 1
    && forall i | 0 <= i < |steps| :: Next(states[i], steps[i], states[i + 1])
  }

  ghost predicate Joins(states: seq<State>, steps: seq<Step>, s: State, t: State) {
    Path(states, steps) && states[0] == s && states[|steps|] == t
  }

  ghost predicate Reaches(s: State, t: State) {
    exists states: seq<State>, steps: seq<Step> :: Joins(states, steps, s, t)
  }

  lemma ReachesItself(s: State)
    ensures Reaches(s, s)
  {
    assert Joins([s], [], s, s);
  }

  lemma ReachesByStep(s: State, t: State, step: Step, u: State)
    requires Reaches(s, t) && Next(t, step, u)
    ensures Reaches(s, u)
  {
    var states, steps :| Joins(states, steps, s, t);
    PathExtends(states, steps, step, u);
    assert Joins(states + [u], steps + [step], s, u);
  }

  lemma ReachesChains(s: State, t: State, u: State)
    requires Reaches(s, t) && Reaches(t, u)
    ensures Reaches(s, u)
  {
    var a, x :| Joins(a, x, s, t);
    var b, y :| Joins(b, y, t, u);
    PathsJoin(a, x, b, y);
    assert Joins(a + b[1..], x + y, s, u);
  }

  lemma PathsJoin(a: seq<State>, x: seq<Step>, b: seq<State>, y: seq<Step>)
    requires Path(a, x) && Path(b, y) && a[|x|] == b[0]
    ensures Path(a + b[1..], x + y)
  {
    var states, steps := a + b[1..], x + y;
    forall i | 0 <= i < |steps| ensures Next(states[i], steps[i], states[i + 1]) {
      if i < |x| {
        assert Next(a[i], x[i], a[i + 1]);
      } else {
        assert states[i] == b[i - |x|] && states[i + 1] == b[i - |x| + 1] && steps[i] == y[i - |x|];
      }
    }
  }

  lemma PathExtends(states: seq<State>, steps: seq<Step>, step: Step, u: State)
    requires Path(states, steps) && Next(states[|steps|], step, u)
    ensures Path(states + [u], steps + [step])
  {
    var longer, all := states + [u], steps + [step];
    forall i | 0 <= i < |all| ensures Next(longer[i], all[i], longer[i + 1]) {
      if i < |steps| {
        assert longer[i] == states[i] && longer[i + 1] == states[i + 1] && all[i] == steps[i];
      }
    }
  }

  ghost predicate Init(s: State) {
    s == State(s.clock, map[], map[], map[], [], Between)
  }

  // --------------------------------------------------------------------------- what every step keeps

  predicate Sound(s: Subscriber) {
    |s.buffer| <= s.capacity && s.drops <= 1 && (s.once <==> s.drops == 1)
  }

  ghost predicate ValidIndex(channels: Index, subs: map<int, Subscriber>) {
    forall name | name in channels :: channels[name] != {} && channels[name] <= subs.Keys
  }

  predicate Apart(taken: seq<Channel>) {
    forall i, j | 0 <= i < j < |taken| :: taken[i].String() != taken[j].String()
  }

  ghost predicate ValidPhase(s: State) {
    match s.phase
    case Between => true
    case Holding(frame) => frame.Snapshot? && frame.at <= s.clock
    case Sending(frame, all, due, got, lost) =>
      && frame.Snapshot? && frame.at <= s.clock
      && all <= s.subs.Keys && all == due + got + lost && due !! got && due !! lost && got !! lost
      && forall sub | sub in lost :: s.subs[sub].once
  }

  ghost predicate Inv(s: State) {
    && ValidIndex(s.channels, s.subs)
    && (forall sub | sub in s.subs :: Sound(s.subs[sub]))
    && (forall name | name in s.dirty :: s.dirty[name].String() == name)
    && Apart(s.taken)
    && ValidPhase(s)
  }

  lemma SendKeeps(s: State, sub: int, t: State)
    requires Inv(s) && Next(s, Send(sub), t)
    ensures Inv(t)
  {
  }

  lemma IndexKeeps(s: State, step: Step, t: State)
    requires Inv(s) && Next(s, step, t)
    requires step.Connect? || step.Subscribe? || step.Unsubscribe? || step.Remove?
    ensures Inv(t)
  {
  }

  lemma NextKeeps(s: State, step: Step, t: State)
    requires Inv(s) && Next(s, step, t)
    ensures Inv(t)
  {
    if step.Send? {
      SendKeeps(s, step.sub, t);
    } else if step.Connect? || step.Subscribe? || step.Unsubscribe? || step.Remove? {
      IndexKeeps(s, step, t);
    }
  }

  lemma {:induction false} PathKeeps(states: seq<State>, steps: seq<Step>)
    requires Path(states, steps) && Inv(states[0])
    ensures Inv(states[|steps|])
  {
    if steps != [] {
      var n := |steps| - 1;
      PathKeeps(states[..n + 1], steps[..n]);
      NextKeeps(states[n], steps[n], states[n + 1]);
    }
  }

  /** In every run: no buffer holds more than it can, no subscriber's drop fires twice, no channel is kept
      without a listener, a flush has no channel twice, and whoever a frame was meant for has been given
      it, has been dropped, or is still due. */
  lemma RunsStaySound(states: seq<State>, steps: seq<Step>)
    requires Path(states, steps) && Init(states[0])
    ensures var s := states[|steps|];
            && (forall sub | sub in s.subs :: |s.subs[sub].buffer| <= s.subs[sub].capacity && s.subs[sub].drops <= 1)
            && (forall name | name in s.channels :: s.channels[name] != {})
            && Apart(s.taken)
            && (s.phase.Sending? ==> |s.phase.got| + |s.phase.lost| + |s.phase.due| == |s.phase.all|)
  {
    PathKeeps(states, steps);
    var s := states[|steps|];
    if s.phase.Sending? {
      assert s.phase.all == s.phase.due + (s.phase.got + s.phase.lost);
    }
  }

  /** Handing out one frame: the subscriber has it at the end of the buffer, or is dropped. */
  lemma SendReachesOrDrops(s: State, sub: int, t: State)
    requires Inv(s) && Next(s, Send(sub), t)
    ensures if Keeps(s.subs[sub]) then t.subs[sub].buffer == s.subs[sub].buffer + [s.phase.frame] && sub in t.phase.got
            else t.subs[sub].once && t.subs[sub].buffer == s.subs[sub].buffer && sub in t.phase.lost
    ensures forall other | other in s.subs && other != sub :: t.subs[other] == s.subs[other]
  {
  }

  /** Nobody is dropped who has room: only a full buffer uses a subscriber's drop. */
  lemma DroppedOnlyWhenFull(s: State, step: Step, t: State, sub: int)
    requires Inv(s) && Next(s, step, t) && sub in s.subs && sub in t.subs
    requires !s.subs[sub].once && t.subs[sub].once
    ensures |s.subs[sub].buffer| == s.subs[sub].capacity && t.subs[sub].buffer == s.subs[sub].buffer
    ensures t.subs[sub].drops == s.subs[sub].drops + 1 == 1
  {
  }

  /** The frame a broadcast counts as delivered to a subscriber was put at the end of its buffer by a step
      of that broadcast. */
  ghost predicate PutBy(states: seq<State>, steps: seq<Step>, i: nat, sub: int, frame: Frame)
    requires Path(states, steps) && i < |steps|
  {
    && steps[i] == Send(sub) && sub in states[i].subs && sub in states[i + 1].subs
    && states[i].phase.Sending? && states[i].phase.frame == frame
    && states[i + 1].subs[sub].buffer == states[i].subs[sub].buffer + [frame]
  }

  lemma {:induction false} GotWasDelivered(states: seq<State>, steps: seq<Step>, j: nat, sub: int)
    requires Path(states, steps) && Init(states[0]) && j <= |steps|
    requires states[j].phase.Sending? && sub in states[j].phase.got
    ensures exists i: nat :: i < j && PutBy(states, steps, i, sub, states[j].phase.frame)
    decreases j
  {
    assert j > 0;
    var i := j - 1;
    assert Next(states[i], steps[i], states[j]);
    if steps[i] == Send(sub) && Keeps(states[i].subs[sub]) {
      assert PutBy(states, steps, i, sub, states[j].phase.frame);
    } else {
      GotWasDelivered(states, steps, i, sub);
    }
  }

  // ------------------------------------------------------------------------------ no mark is forgotten

  predicate Awaits(s: State, name: string) {
    name in s.dirty || exists i :: 0 <= i < |s.taken| && s.taken[i].String() == name
  }

  /** The flush comes to a channel: it reads its board, or finds nobody listening. */
  predicate Serves(s: State, step: Step, name: string) {
    (step.Read? || step.Skip?) && s.taken != [] && s.taken[0].String() == name
  }

  lemma AwaitingStays(s: State, step: Step, t: State, name: string)
    requires Next(s, step, t) && Awaits(s, name) && !Serves(s, step, name)
    ensures Awaits(t, name)
  {
    if name in s.dirty {
      if step.Take? {
        var i :| 0 <= i < |step.list| && step.list[i].String() == name;
        assert t.taken[i].String() == name;
      }
    } else {
      var i :| 0 <= i < |s.taken| && s.taken[i].String() == name;
      if step.Read? || step.Skip? {
        assert i > 0;
        assert t.taken[i - 1].String() == name;
      } else if !step.Take? {
        assert t.taken[i].String() == name;
      }
    }
  }

  lemma MarkedAwaits(s: State, step: Step, t: State)
    requires Next(s, step, t) && step.Mark?
    ensures Awaits(t, step.channel.String())
  {
    assert step.channel.String() in t.dirty;
  }

  /** From a mark on the channel stays on the list, whatever else happens, until a flush comes to it. */
  lemma {:induction false} MarkStaysUntilServed(states: seq<State>, steps: seq<Step>, i: nat, j: nat, name: string)
    requires Path(states, steps)
    requires i < j <= |steps| && steps[i].Mark? && steps[i].channel.String() == name
    requires forall k {:trigger steps[k]} | i < k < j :: !Serves(states[k], steps[k], name)
    ensures Awaits(states[j], name)
    decreases j
  {
    if j == i + 1 {
      MarkedAwaits(states[i], steps[i], states[j]);
    } else {
      MarkStaysUntilServed(states, steps, i, j - 1, name);
      AwaitingStays(states[j - 1], steps[j - 1], states[j], name);
    }
  }

  lemma {:induction false} ClockAdvances(states: seq<State>, steps: seq<Step>, i: nat, j: nat)
    requires Path(states, steps) && i <= j <= |steps|
    ensures states[i].clock <= states[j].clock
    decreases j
  {
    if i < j {
      ClockAdvances(states, steps, i, j - 1);
      assert Next(states[j - 1], steps[j - 1], states[j]);
    }
  }

  /** When it does and the read succeeds, what was read is no older than the mark, nor than any other mark
      before the read: one read makes up for all of them. */
  lemma ReadIsFresh(states: seq<State>, steps: seq<Step>, i: nat, k: nat, name: string)
    requires Path(states, steps)
    requires i < k < |steps| && steps[i].Mark? && steps[i].channel.String() == name
    requires steps[k] == Read(true) && Serves(states[k], steps[k], name)
    ensures exists at :: states[k + 1].phase == Holding(Snapshot(name, at)) && at >= states[i + 1].clock > states[i].clock
  {
    ClockAdvances(states, steps, i + 1, k);
    assert Next(states[i], steps[i], states[i + 1]);
    assert Next(states[k], steps[k], states[k + 1]);
    assert states[k + 1].phase == Holding(Snapshot(name, states[k].clock));
  }

  // ------------------------------------------------------------------------------- the steps of a flush

  lemma SkipStep(s: State)
    requires s.taken != [] && s.phase == Between && Listeners(s.channels, s.taken[0].String()) == {}
    ensures Next(s, Skip, s.(taken := s.taken[1..]))
  {
  }

  lemma ReadStep(s: State, ok: bool)
    requires s.taken != [] && s.phase == Between
    ensures Next(s, Read(ok), s.(taken := s.taken[1..],
                                 phase := if ok then Holding(Snapshot(s.taken[0].String(), s.clock)) else Between))
  {
  }

  lemma GatherStep(s: State, frame: Frame)
    requires s.phase == Holding(frame) && frame.Snapshot?
    ensures var all := Listeners(s.channels, frame.name);
            Next(s, Gather, s.(phase := Sending(frame, all, all, {}, {})))
  {
  }

  /** Where handing a frame to one subscriber leads. */
  function Handed(p: Phase, sub: int, kept: bool): Phase
    requires p.Sending?
  {
    if kept then p.(due := p.due - {sub}, got := p.got + {sub}) else p.(due := p.due - {sub}, lost := p.lost + {sub})
  }

  lemma SendStep(s: State, sub: int, t: State)
    requires s.phase.Sending? && sub in s.phase.due && sub in s.subs
    requires t == s.(subs := s.subs[sub := Offered(s.subs[sub], s.phase.frame)], phase := Handed(s.phase, sub, Keeps(s.subs[sub])))
    ensures Next(s, Send(sub), t)
  {
  }

  lemma EndStep(s: State)
    requires s.phase.Sending? && s.phase.due == {}
    ensures Next(s, EndChannel, s.(phase := Between))
  {
  }

  // ------------------------------------------------------------------------------ when a mark is lost

  predicate Marks(step: Step, name: string) {
    step.Mark? && step.channel.String() == name
  }

  /** Between two flushes the list of marks is what was marked. */
  lemma {:induction false} DirtySinceTaken(states: seq<State>, steps: seq<Step>, i: nat, j: nat, name: string)
    requires Path(states, steps) && i < j <= |steps| && steps[i].Take?
    requires forall m {:trigger steps[m]} | i < m < j :: !steps[m].Take?
    ensures name in states[j].dirty <==> exists m :: i < m < j && Marks(steps[m], name)
    decreases j
  {
    if j == i + 1 {
      assert Next(states[i], steps[i], states[j]);
    } else {
      DirtySinceTaken(states, steps, i, j - 1, name);
      DirtyAfter(states[j - 1], steps[j - 1], states[j], name);
    }
  }

  lemma DirtyAfter(s: State, step: Step, t: State, name: string)
    requires Next(s, step, t) && !step.Take?
    ensures name in t.dirty <==> name in s.dirty || Marks(step, name)
  {
  }

  lemma ServedAwaits(s: State, step: Step, t: State, name: string)
    requires Next(s, step, t) && Serves(s, step, name) && Apart(s.taken)
    ensures Awaits(t, name) <==> name in s.dirty
  {
    forall i | 0 <= i < |t.taken| ensures t.taken[i].String() != name {
      assert t.taken[i] == s.taken[i + 1];
    }
  }

  /** A read that fails loses the mark it was to serve exactly when the channel was not marked again since
      the flush took its list: only then does it not wait for the next. */
  lemma FailedReadLosesMark(states: seq<State>, steps: seq<Step>, i: nat, k: nat, name: string)
    requires Path(states, steps) && Init(states[0]) && i < k < |steps|
    requires steps[i].Take? && forall m {:trigger steps[m]} | i < m < k :: !steps[m].Take?
    requires steps[k] == Read(false) && Serves(states[k], steps[k], name)
    ensures Awaits(states[k + 1], name) <==> exists m :: i < m < k && Marks(steps[m], name)
  {
    assert Path(states[..k + 1], steps[..k]);
    PathKeeps(states[..k + 1], steps[..k]);
    DirtySinceTaken(states, steps, i, k, name);
    ServedAwaits(states[k], steps[k], states[k + 1], name);
  }

  /** So one mark and one failing read leave a listener without the change. */
  lemma MarkCanBeLost(c: Channel) returns (states: seq<State>, steps: seq<Step>)
    ensures Path(states, steps) && Init(states[0])
    ensures steps == [Connect(1, 8), Subscribe(1, c), Mark(c), Take([c]), Read(false)]
    ensures var s := states[5];
            1 in Listeners(s.channels, c.String()) && 1 in s.subs && s.subs[1].buffer == [] && !Awaits(s, c.String()) && s.phase == Between
  {
    var name := c.String();
    var s0 := State(0, map[], map[], map[], [], Between);
    var s1 := s0.(subs := s0.subs[1 := Subscriber(8, [], false, 0)]);
    var s2 := s1.(channels := Joined(s1.channels, name, 1));
    var s3 := s2.(clock := 1, dirty := s2.dirty[name := c]);
    var s4 := s3.(dirty := map[], taken := [c]);
    var s5 := s4.(taken := [c][1..], phase := Between);
    states := [s0, s1, s2, s3, s4, s5];
    steps := [Connect(1, 8), Subscribe(1, c), Mark(c), Take([c]), Read(false)];
    assert Next(s0, steps[0], s1);
    assert Next(s1, steps[1], s2);
    assert Next(s2, steps[2], s3);
    TakeOne(s3, c);
    ReadStep(s4, false);
    FiveSteps(states, steps);
  }

  lemma TakeOne(s: State, c: Channel)
    requires s.taken == [] && s.phase == Between && s.dirty == map[c.String() := c]
    ensures Next(s, Take([c]), s.(dirty := map[], taken := [c]))
  {
    OneListed(c);
  }

  lemma OneListed(c: Channel)
    ensures ListsDirty([c], map[c.String() := c])
  {
    assert [c][0].String() == c.String();
  }

  lemma FiveSteps(states: seq<State>, steps: seq<Step>)
    requires |states| == 6 && |steps| == 5
    requires Next(states[0], steps[0], states[1]) && Next(states[1], steps[1], states[2])
    requires Next(states[2], steps[2], states[3]) && Next(states[3], steps[3], states[4])
    requires Next(states[4], steps[4], states[5])
    ensures Path(states, steps)
  {
  }

  // ------------------------------------------------------------------------- from a mark to a delivery

  /** The step that ends what the flush is at. */
  predicate Moves(p: Phase, step: Step) {
    (p.Holding? && step.Gather?) || (p.Sending? && step.EndChannel?)
  }

  predicate SameJob(p: Phase, q: Phase) {
    && (p.Holding? ==> q == p)
    && (p.Sending? ==> q.Sending? && q.frame == p.frame && q.all == p.all)
  }

  lemma StepStaysAtIt(s: State, step: Step, t: State)
    requires Next(s, step, t) && !Moves(s.phase, step)
    ensures SameJob(s.phase, t.phase)
  {
  }

  lemma {:induction false} StaysAtIt(states: seq<State>, steps: seq<Step>, a: nat, b: nat)
    requires Path(states, steps) && a <= b <= |steps|
    requires forall m {:trigger steps[m]} | a <= m < b :: !Moves(states[m].phase, steps[m])
    ensures SameJob(states[a].phase, states[b].phase)
    decreases b
  {
    if a < b {
      StaysAtIt(states, steps, a, b - 1);
      StepStaysAtIt(states[b - 1], steps[b - 1], states[b]);
    }
  }

  lemma EndedCovers(s: State, t: State, sub: int)
    requires Inv(s) && Next(s, EndChannel, t) && sub in s.phase.all
    ensures sub in s.subs && (s.subs[sub].once || sub in s.phase.got)
  {
  }

  /** Whoever listens to a marked channel when its frame is handed out has, once that is over, either had
      put in its buffer a frame read after the mark, or been dropped; whatever else goes on meanwhile. */
  lemma MarkReachesListeners(states: seq<State>, steps: seq<Step>, i: nat, k: nat, g: nat, e: nat, name: string, sub: int)
    requires Path(states, steps) && Init(states[0]) && i < k < g < e < |steps|
    requires steps[i].Mark? && steps[i].channel.String() == name
    requires steps[k] == Read(true) && Serves(states[k], steps[k], name)
    requires steps[g] == Gather && forall m {:trigger steps[m]} | k < m < g :: !Moves(states[m].phase, steps[m])
    requires steps[e] == EndChannel && forall m {:trigger steps[m]} | g < m < e :: !Moves(states[m].phase, steps[m])
    requires sub in Listeners(states[g].channels, name)
    ensures sub in states[e].subs
    ensures states[e].subs[sub].once ||
            exists m: nat, at :: m < e && at > states[i].clock && PutBy(states, steps, m, sub, Snapshot(name, at))
  {
    ReadIsFresh(states, steps, i, k, name);
    var at :| states[k + 1].phase == Holding(Snapshot(name, at)) && at >= states[i + 1].clock > states[i].clock;
    StaysAtIt(states, steps, k + 1, g);
    assert Next(states[g], Gather, states[g + 1]);
    StaysAtIt(states, steps, g + 1, e);
    assert Path(states[..e + 1], steps[..e]);
    PathKeeps(states[..e + 1], steps[..e]);
    EndedCovers(states[e], states[e + 1], sub);
    if !states[e].subs[sub].once {
      GotWasDelivered(states, steps, e, sub);
      var m: nat :| m < e && PutBy(states, steps, m, sub, states[e].phase.frame);
      assert PutBy(states, steps, m, sub, Snapshot(name, at));
    }
  }

  // ------------------------------------------------------------------------- how fresh the last frame is

  /** A step puts a frame at the end of a subscriber's buffer. */
  predicate Puts(s: State, step: Step, sub: int, frame: Frame) {
    && sub in s.subs && Keeps(s.subs[sub])
    && (step == Tell(sub, frame) || (step == Send(sub) && s.phase.Sending? && s.phase.frame == frame))
  }

  ghost predicate PutsOf(s: State, step: Step, sub: int, name: string) {
    exists at :: Puts(s, step, sub, Snapshot(name, at))
  }

  /** The last snapshot of a channel that a subscriber has been given before a point of a run. */
  ghost predicate LastPut(states: seq<State>, steps: seq<Step>, m: nat, j: nat, sub: int, frame: Frame)
    requires Path(states, steps) && m < j <= |steps| && frame.Snapshot?
  {
    && Puts(states[m], steps[m], sub, frame)
    && forall n {:trigger steps[n]} | m < n < j :: !PutsOf(states[n], steps[n], sub, frame.name)
  }

  lemma {:induction false} SomePutIsLast(states: seq<State>, steps: seq<Step>, first: nat, j: nat, sub: int, name: string)
      returns (m: nat, at: int)
    requires Path(states, steps) && first < j <= |steps| && PutsOf(states[first], steps[first], sub, name)
    ensures first <= m < j && LastPut(states, steps, m, j, sub, Snapshot(name, at))
    decreases j
  {
    if PutsOf(states[j - 1], steps[j - 1], sub, name) {
      m := j - 1;
      at :| Puts(states[m], steps[m], sub, Snapshot(name, at));
    } else {
      m, at := SomePutIsLast(states, steps, first, j - 1, sub, name);
    }
  }

  /** When what the flush has in hand was read, or would be. */
  function ReadingAt(s: State): int {
    match s.phase
    case Between => s.clock
    case Holding(frame) => if frame.Snapshot? then frame.at else s.clock
    case Sending(frame, _, _, _, _) => if frame.Snapshot? then frame.at else s.clock
  }

  lemma ReadingAscends(s: State, step: Step, t: State)
    requires Inv(s) && Next(s, step, t)
    ensures ReadingAt(s) <= ReadingAt(t)
  {
  }

  /** A flush never hands out a frame read before one that it handed out earlier. */
  lemma {:induction false} FlushesAscend(states: seq<State>, steps: seq<Step>, a: nat, b: nat)
    requires Path(states, steps) && Init(states[0]) && a <= b <= |steps|
    ensures ReadingAt(states[a]) <= ReadingAt(states[b])
    decreases b
  {
    if a < b {
      FlushesAscend(states, steps, a, b - 1);
      assert Path(states[..b], steps[..b - 1]);
      PathKeeps(states[..b], steps[..b - 1]);
      ReadingAscends(states[b - 1], steps[b - 1], states[b]);
    }
  }

  /** An opening snapshot of a board as it was before the mark. */
  predicate OpensStale(step: Step, sub: int, name: string, mark: int) {
    step.Tell? && step.sub == sub && step.frame.Snapshot? && step.frame.name == name && step.frame.at <= mark
  }

  /** Once a frame read after a mark has been handed to a listener, the last it has been given stays as
      fresh, whatever comes, exactly if that is not an opening snapshot read before the mark. */
  lemma LastIsFreshUnlessOpening(states: seq<State>, steps: seq<Step>, first: nat, at: int, m: nat, j: nat, sub: int, last: Frame,
                                 mark: int)
    requires Path(states, steps) && Init(states[0]) && first <= m < j <= |steps|
    requires last.Snapshot? && at > mark && PutBy(states, steps, first, sub, Snapshot(last.name, at))
    requires LastPut(states, steps, m, j, sub, last)
    ensures last.at > mark <==> !OpensStale(steps[m], sub, last.name, mark)
  {
    FlushesAscend(states, steps, first, m);
  }

  /** The first step, if any, that ends what the flush is at. */
  lemma {:induction false} FirstMove(states: seq<State>, steps: seq<Step>, a: nat, b: nat) returns (g: nat)
    requires Path(states, steps) && a <= b <= |steps| && !SameJob(states[a].phase, states[b].phase)
    ensures a <= g < b && Moves(states[g].phase, steps[g])
    ensures forall m {:trigger steps[m]} | a <= m < g :: !Moves(states[m].phase, steps[m])
    decreases b - a
  {
    if forall m {:trigger steps[m]} | a <= m < b - 1 :: !Moves(states[m].phase, steps[m]) {
      g := b - 1;
      if !Moves(states[g].phase, steps[g]) {
        StaysAtIt(states, steps, a, b);
        assert false;
      }
    } else {
      var m :| a <= m < b - 1 && Moves(states[m].phase, steps[m]);
      g := FirstMoveTo(states, steps, a, m);
    }
  }

  lemma {:induction false} FirstMoveTo(states: seq<State>, steps: seq<Step>, a: nat, m: nat) returns (g: nat)
    requires Path(states, steps) && a <= m < |steps| && Moves(states[m].phase, steps[m])
    ensures a <= g <= m && Moves(states[g].phase, steps[g])
    ensures forall n {:trigger steps[n]} | a <= n < g :: !Moves(states[n].phase, steps[n])
    decreases m
  {
    g := m;
    if n :| a <= n < m && Moves(states[n].phase, steps[n]) {
      g := FirstMoveTo(states, steps, a, n);
    }
  }

  /** A listener stays one throughout, and no read for its channel fails. */
  ghost predicate ListensThroughout(states: seq<State>, steps: seq<Step>, i: nat, j: nat, name: string, sub: int)
    requires Path(states, steps) && j <= |steps|
  {
    && (forall m {:trigger states[m]} | i < m < j :: sub in Listeners(states[m].channels, name))
    && forall m {:trigger steps[m]} | i < m < j && Serves(states[m], steps[m], name) :: steps[m] != Read(false)
  }

  /** A mark that no longer awaits a flush, while one listened throughout and no read failed, has been read
      for. */
  lemma MarkWasRead(states: seq<State>, steps: seq<Step>, i: nat, j: nat, name: string, sub: int) returns (k: nat)
    requires Path(states, steps) && i < j <= |steps| && Marks(steps[i], name)
    requires ListensThroughout(states, steps, i, j, name, sub) && !Awaits(states[j], name)
    ensures i < k < j && steps[k] == Read(true) && Serves(states[k], steps[k], name)
  {
    if forall m {:trigger steps[m]} | i < m < j :: !Serves(states[m], steps[m], name) {
      MarkStaysUntilServed(states, steps, i, j, name);
      assert false;
    }
    k :| i < k < j && Serves(states[k], steps[k], name);
    assert sub in Listeners(states[k].channels, name);
    assert Next(states[k], steps[k], states[k + 1]);
  }

  lemma {:induction false} DroppedStays(states: seq<State>, steps: seq<Step>, a: nat, b: nat, sub: int)
    requires Path(states, steps) && a <= b <= |steps| && sub in states[a].subs && states[a].subs[sub].once
    ensures sub in states[b].subs && states[b].subs[sub].once
    decreases b
  {
    if a < b {
      DroppedStays(states, steps, a, b - 1, sub);
      assert Next(states[b - 1], steps[b - 1], states[b]);
    }
  }

  /** From there the flush goes on to hand it out, if it is between channels again later on. */
  lemma ReadIsHandedOut(states: seq<State>, steps: seq<Step>, i: nat, k: nat, j: nat, name: string, sub: int)
      returns (first: nat, at: int)
    requires Path(states, steps) && Init(states[0]) && i < k < j <= |steps| && Marks(steps[i], name)
    requires steps[k] == Read(true) && Serves(states[k], steps[k], name) && states[j].phase == Between
    requires ListensThroughout(states, steps, i, j, name, sub)
    requires sub !in states[j].subs || !states[j].subs[sub].once
    ensures first < j && at > states[i].clock && PutBy(states, steps, first, sub, Snapshot(name, at))
  {
    assert Next(states[k], steps[k], states[k + 1]);
    var g := FirstMove(states, steps, k + 1, j);
    StaysAtIt(states, steps, k + 1, g);
    assert Next(states[g], steps[g], states[g + 1]);
    var e := FirstMove(states, steps, g + 1, j);
    StaysAtIt(states, steps, g + 1, e);
    assert sub in Listeners(states[g].channels, name);
    MarkReachesListeners(states, steps, i, k, g, e, name, sub);
    if states[e].subs[sub].once {
      DroppedStays(states, steps, e, j, sub);
      assert false;
    }
    first, at :| first < e && at > states[i].clock && PutBy(states, steps, first, sub, Snapshot(name, at));
  }

  /** Does a listener end up with the board as the last mark left it? Once the flush is over, the channel
      does not await another, no read failed and the listener was not dropped, it has been given a snapshot,
      and the last one was read after the mark exactly if it is not an opening snapshot read before. */
  lemma SettledListenersAreFresh(states: seq<State>, steps: seq<Step>, i: nat, j: nat, name: string, sub: int)
    requires Path(states, steps) && Init(states[0]) && i < j <= |steps| && Marks(steps[i], name)
    requires ListensThroughout(states, steps, i, j, name, sub)
    requires states[j].phase == Between && !Awaits(states[j], name)
    requires sub !in states[j].subs || !states[j].subs[sub].once
    ensures exists m: nat, at :: m < j && LastPut(states, steps, m, j, sub, Snapshot(name, at))
    ensures forall m: nat, at | m < j && LastPut(states, steps, m, j, sub, Snapshot(name, at)) ::
              at > states[i].clock <==> !OpensStale(steps[m], sub, name, states[i].clock)
  {
    var k := MarkWasRead(states, steps, i, j, name, sub);
    var first, at := ReadIsHandedOut(states, steps, i, k, j, name, sub);
    assert Puts(states[first], steps[first], sub, Snapshot(name, at));
    assert PutsOf(states[first], steps[first], sub, name);
    var last, seen := SomePutIsLast(states, steps, first, j, sub, name);
    forall m: nat, read | m < j && LastPut(states, steps, m, j, sub, Snapshot(name, read))
      ensures read > states[i].clock <==> !OpensStale(steps[m], sub, name, states[i].clock)
    {
      LastIsFreshUnlessOpening(states, steps, first, at, m, j, sub, Snapshot(name, read), states[i].clock);
    }
  }

  /** The flush's turn for one channel with one listener that has room. */
  lemma OneServed(s: State, c: Channel, sub: int) returns (states: seq<State>)
    requires s.phase == Between && s.taken == [] && s.dirty == map[c.String() := c]
    requires Listeners(s.channels, c.String()) == {sub} && sub in s.subs && Keeps(s.subs[sub])
    ensures Path(states, [Take([c]), Read(true), Gather, Send(sub), EndChannel]) && states[0] == s
    ensures states[5] == s.(dirty := map[], subs := s.subs[sub := Offered(s.subs[sub], Snapshot(c.String(), s.clock))])
  {
    var name := c.String();
    var frame := Snapshot(name, s.clock);
    var s1 := s.(dirty := map[], taken := [c]);
    var s2 := s1.(taken := [], phase := Holding(frame));
    var s3 := s2.(phase := Sending(frame, {sub}, {sub}, {}, {}));
    var s4 := s3.(subs := s.subs[sub := Offered(s.subs[sub], frame)], phase := Handed(s3.phase, sub, true));
    var s5 := s4.(phase := Between);
    TakeOne(s, c);
    assert [c][1..] == [];
    ReadStep(s1, true);
    GatherStep(s2, frame);
    SendStep(s3, sub, s4);
    EndStep(s4);
    states := [s, s1, s2, s3, s4, s5];
    FiveSteps(states, [Take([c]), Read(true), Gather, Send(sub), EndChannel]);
  }

  /** A listener and a mark. */
  lemma OneMarked(c: Channel) returns (states: seq<State>)
    ensures Path(states, [Connect(1, 8), Subscribe(1, c), Mark(c)]) && Init(states[0])
    ensures states[3] == State(1, map[c.String() := {1}], map[c.String() := c], map[1 := Subscriber(8, [], false, 0)], [], Between)
  {
    var name := c.String();
    var s0 := State(0, map[], map[], map[], [], Between);
    var s1 := s0.(subs := s0.subs[1 := Subscriber(8, [], false, 0)]);
    var s2 := s1.(channels := Joined(s1.channels, name, 1));
    var s3 := s2.(clock := 1, dirty := s2.dirty[name := c]);
    assert Next(s0, Connect(1, 8), s1) && Next(s1, Subscribe(1, c), s2) && Next(s2, Mark(c), s3);
    assert Listeners(map[], name) + {1} == {1};
    states := [s0, s1, s2, s3];
  }

  /** And it may be one: a board read for a new listener, marked and flushed, and only then handed over,
      leaves the older snapshot last with nothing to come. */
  lemma OpeningCanBeStale(c: Channel) returns (states: seq<State>, steps: seq<Step>)
    ensures Path(states, steps) && Init(states[0])
    ensures steps == [Connect(1, 8), Subscribe(1, c), Mark(c), Take([c]), Read(true), Gather, Send(1), EndChannel,
                      Tell(1, Snapshot(c.String(), 0))]
    ensures var s := states[9];
            && Listeners(s.channels, c.String()) == {1} && s.phase == Between && !Awaits(s, c.String())
            && 1 in s.subs && s.subs[1] == Subscriber(8, [Snapshot(c.String(), 1), Snapshot(c.String(), 0)], false, 0)
  {
    var opening := OneMarked(c);
    var served := OneServed(opening[3], c, 1);
    PathsJoin(opening, [Connect(1, 8), Subscribe(1, c), Mark(c)], served, [Take([c]), Read(true), Gather, Send(1), EndChannel]);
    var stale := Snapshot(c.String(), 0);
    var last := served[5];
    var end := last.(subs := last.subs[1 := Offered(last.subs[1], stale)]);
    assert Next(last, Tell(1, stale), end);
    states := opening + served[1..];
    steps := [Connect(1, 8), Subscribe(1, c), Mark(c)] + [Take([c]), Read(true), Gather, Send(1), EndChannel];
    assert states[8] == last;
    PathExtends(states, steps, Tell(1, stale), end);
    states, steps := states + [end], steps + [Tell(1, stale)];
  }
}
