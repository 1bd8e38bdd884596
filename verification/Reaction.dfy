/** Five rounds of waiting for a signal and reacting to it. Instants are in nanoseconds. */
module Reaction {
  import opened Wrappers
  import opened Games

  datatype State = State(seed: int, round: int, goAt: Option<int>, results: seq<int>, fouls: int, done: bool)

  datatype NextAction = ToArm | ToTap | ToFinish

  /** What a client may see: not when the signal is due. */
  datatype View = View(round: int, armed: bool, results: seq<int>, fouls: int, next: NextAction, done: bool)

  datatype Action = Arm | Tap | Other

  function Started(seed: int): State {
    State(seed, 0, None, [], 0, false)
  }

  function ViewOf(s: State): View {
    View(if s.round + 1 < 5 then s.round + 1 else 5, s.goAt.Some?, s.results, s.fouls,
         if s.done then ToFinish else if s.goAt.Some? then ToTap else ToArm, s.done)
  }

  /** Duration.Milliseconds, which truncates towards zero. */
  function Milliseconds(ns: int): int {
    if ns < 0 then -(-ns / 1_000_000) else ns / 1_000_000
  }

  /** What a tap is charged: a tap too soon after the signal is a foul. */
  function Charged(elapsed: int): int {
    if elapsed < 80 then 500 else elapsed
  }

  function Delay(derive: Derive, s: State): int {
    DeriveRange(derive, s.seed, "reaction-delay", s.round, 1200, 3000)
  }

  /** None stands for a move that cannot be decoded. */
  function Move(derive: Derive, s: State, action: Option<Action>, now: int): Result<(State, Outcome), Error> {
    if s.done then Err(AlreadyDone)
    else match action
      case Some(Arm) =>
        if s.goAt.Some? then Err(InvalidMove)
        else
          var goAt := now + Delay(derive, s) * 1_000_000;
          Ok((s.(goAt := Some(goAt)), Outcome(false, false, Some(goAt))))
      case Some(Tap) =>
        if s.goAt.None? then Err(InvalidMove)
        else
          var elapsed := Milliseconds(now - s.goAt.value);
          var foul := elapsed < 80;
          var t := s.(fouls := if foul then s.fouls + 1 else s.fouls, results := s.results + [Charged(elapsed)],
                      goAt := None, round := s.round + 1, done := s.round + 1 >= 5);
          Ok((t, Outcome(!foul, t.done, None)))
      case _ => Err(InvalidMove)
  }

  function Sum(results: seq<int>): int {
    if results == [] then 0 else Sum(results[..|results| - 1]) + results[|results| - 1]
  }

  /** Five times the mean, rounds never played charged as fouls. */
  function PaddedTotal(s: State): int {
    Sum(s.results) + (if |s.results| < 5 then (5 - |s.results|) * 500 else 0)
  }

  function Raw(s: State): real {
    PaddedTotal(s) as real / 5.0
  }

  method ComputeRaw(s: State) returns (raw: real)
    ensures raw == Raw(s)
  {
    var total := 0;
    for i := 0 to |s.results|
      invariant total == Sum(s.results[..i])
    {
      assert s.results[..i + 1][..i] == s.results[..i];
      total := total + s.results[i];
    }
    assert s.results[..|s.results|] == s.results;
    var missing := 5 - |s.results|;
    if missing > 0 {
      total := total + missing * 500;
    }
    raw := total as real / 5.0;
  }

  function Points(s: State): int {
    PointsOn(Raw(s), 500.0, 180.0)
  }

  // --------------------------------------------------------------------------- what every move keeps

  ghost predicate Valid(s: State) {
    && 0 <= s.round == |s.results| <= 5 && (s.done <==> s.round == 5)
    && (s.done ==> s.goAt.None?)
    && 0 <= s.fouls <= s.round
    && forall r | r in s.results :: r >= 80
  }

  /** Moves made: two a round, arming and tapping. */
  function Progress(s: State): int {
    2 * s.round + if s.goAt.Some? then 1 else 0
  }

  lemma StartedValid(seed: int)
    ensures Valid(Started(seed)) && Points(Started(seed)) == 0 && Progress(Started(seed)) == 0
  {
    PointsFollowRaw(500.0, 500.0, 500.0, 180.0);
    assert Raw(Started(seed)) == 500.0;
  }

  /** An accepted move is an arming when the moves so far are even in number and a tap when they are odd,
      the game is over at ten, and an armed signal comes 1.2 to 3 seconds later. */
  lemma MoveKeeps(derive: Derive, s: State, action: Option<Action>, now: int)
    requires Valid(s) && Move(derive, s, action, now).Ok?
    ensures var (t, outcome) := Move(derive, s, action, now).value;
            && Valid(t) && t.seed == s.seed
            && Progress(t) == Progress(s) + 1 <= 10
            && action == Some(if Progress(s) % 2 == 0 then Arm else Tap)
            && outcome.done == t.done == (Progress(t) == 10)
            && (action == Some(Arm) ==>
                  outcome.holdUntil == t.goAt && now + 1_200_000_000 <= t.goAt.value <= now + 3_000_000_000)
  {
    var (t, outcome) := Move(derive, s, action, now).value;
    forall r | r in t.results ensures r >= 80 {
      if r !in s.results {
        assert r == t.results[|s.results|];
      }
    }
  }

  /** A move is taken exactly if it is what the view says comes next: an arming when nothing is armed, a tap
      when something is, and nothing once the game is over. */
  lemma MoveIsTaken(derive: Derive, s: State, action: Option<Action>, now: int)
    requires Valid(s)
    ensures Move(derive, s, action, now).Ok? <==>
            || (action == Some(Arm) && |s.results| < 5 && s.goAt.None?)
            || (action == Some(Tap) && s.goAt.Some?)
    ensures Move(derive, s, action, now).Ok? <==>
            (action == Some(Arm) && ViewOf(s).next == ToArm) || (action == Some(Tap) && ViewOf(s).next == ToTap)
    ensures Move(derive, s, action, now) == Err(AlreadyDone) <==> |s.results| == 5
    ensures Move(derive, s, action, now).Err? ==> Move(derive, s, action, now).error in {AlreadyDone, InvalidMove}
  {
  }

  /** Every delay from 1.2 to 3 seconds can come up in any round, whatever comes up in the others: as the hash of the
      round has it. */
  lemma DelayIsDrawn(derive: Derive, s: State, now: int, milliseconds: int)
    requires Valid(s) && !s.done && s.goAt.None? && 1200 <= milliseconds <= 3000
    requires derive(s.seed, "reaction-delay", |s.results|) == milliseconds - 1200
    ensures Move(derive, s, Some(Arm), now).Ok?
    ensures Move(derive, s, Some(Arm), now).value.0.goAt == Some(now + milliseconds * 1_000_000)
  {
    EveryValueIsDrawn(derive, s.seed, "reaction-delay", s.round, 1200, 3000, milliseconds);
  }

  /** A tap is measured in whole milliseconds since the signal. One that comes before 80 of them have passed,
      or before the signal, is a foul and costs what a round not played does: the mean stays as it is. */
  lemma TapIsMeasured(derive: Derive, s: State, now: int)
    requires Valid(s) && s.goAt.Some?
    ensures var (t, outcome) := Move(derive, s, Some(Tap), now).value;
            var after := now - s.goAt.value;
            && |t.results| == |s.results| + 1 && t.results[..|s.results|] == s.results && t.goAt == None
            && outcome.correct == (after >= 80_000_000) && outcome.holdUntil == None
            && if after >= 80_000_000 then
                 t.fouls == s.fouls && 1_000_000 * t.results[|s.results|] <= after < 1_000_000 * (t.results[|s.results|] + 1)
               else
                 t.fouls == s.fouls + 1 && Raw(t) == Raw(s) && Points(t) == Points(s)
  {
    var (t, outcome) := Move(derive, s, Some(Tap), now).value;
    assert t.results[..|s.results|] == s.results;
  }

  /** Tapping pays exactly when the tap is charged no more than a round not played: the mean does not
      rise, and so the points do not fall, exactly for a charge of at most half a second. */
  lemma TapPays(derive: Derive, s: State, now: int)
    requires Valid(s) && !s.done && s.goAt.Some?
    ensures var t := Move(derive, s, Some(Tap), now).value.0;
            && (Raw(t) <= Raw(s) <==> Charged(Milliseconds(now - s.goAt.value)) <= 500)
            && (Raw(t) <= Raw(s) ==> Points(s) <= Points(t))
  {
    var t := Move(derive, s, Some(Tap), now).value.0;
    assert t.results[..|s.results|] == s.results;
    assert PaddedTotal(t) == PaddedTotal(s) - 500 + Charged(Milliseconds(now - s.goAt.value));
    if Raw(t) <= Raw(s) {
      PointsFollowRaw(Raw(s), Raw(t), 500.0, 180.0);
    }
  }

  /** A slow tap can cost points: after one of 180 milliseconds, a second charged 820 takes all away that
      the first had earned. */
  lemma SlowTapCosts() returns (s: State, t: State)
    ensures s == State(0, 1, Some(0), [180], 0, false)
    ensures t == Move((seed, name, index) => 0, s, Some(Tap), 820_000_000).value.0
    ensures Points(s) == 2_000 && Points(t) == 0
  {
    s := State(0, 1, Some(0), [180], 0, false);
    t := Move((seed, name, index) => 0, s, Some(Tap), 820_000_000).value.0;
    assert t.results == [180, 820];
    assert Sum([180, 820]) == 1000 by { assert [180, 820][..1] == [180]; assert [180][..0] == []; }
    assert Sum([180]) == 180 by { assert [180][..0] == []; }
    assert Raw(s) == 436.0 && Raw(t) == 500.0;
  }

  // --------------------------------------------------------------- the signal's time is never shown

  /** Two games alike in all but their seed and when their signal is due. */
  predicate AlikeButSignal(s: State, t: State) {
    s.round == t.round && s.results == t.results && s.fouls == t.fouls && s.done == t.done
    && (s.goAt.Some? <==> t.goAt.Some?)
  }

  /** The state after moves made at certain instants, a rejected one changing nothing. */
  function Played(derive: Derive, s: State, moves: seq<(Option<Action>, int)>): State {
    if moves == [] then s
    else
      var n := |moves| - 1;
      var before := Played(derive, s, moves[..n]);
      var r := Move(derive, before, moves[n].0, moves[n].1);
      if r.Err? then before else r.value.0
  }

  function TapDelay(s: State, now: int): int {
    if s.goAt.Some? then Milliseconds(now - s.goAt.value) else 0
  }

  lemma MoveAlike(derive: Derive, s: State, t: State, action: Option<Action>, now: int, later: int)
    requires AlikeButSignal(s, t) && (action == Some(Tap) ==> TapDelay(s, now) == TapDelay(t, later))
    ensures Move(derive, s, action, now).Ok? <==> Move(derive, t, action, later).Ok?
    ensures Move(derive, s, action, now).Ok? ==>
              AlikeButSignal(Move(derive, s, action, now).value.0, Move(derive, t, action, later).value.0)
  {
  }

  /** The k-th moves of two games ask for the same, and if it is a tap it comes as long after the signal. */
  predicate SameMove(derive: Derive, s: State, x: seq<(Option<Action>, int)>, t: State, y: seq<(Option<Action>, int)>, k: nat)
    requires k < |x| && k < |y|
  {
    && x[k].0 == y[k].0
    && (x[k].0 == Some(Tap) ==> TapDelay(Played(derive, s, x[..k]), x[k].1) == TapDelay(Played(derive, t, y[..k]), y[k].1))
  }

  lemma SameMoveBefore(derive: Derive, s: State, x: seq<(Option<Action>, int)>, t: State, y: seq<(Option<Action>, int)>, n: nat, k: nat)
    requires k < n <= |x| && n <= |y| && SameMove(derive, s, x, t, y, k)
    ensures SameMove(derive, s, x[..n], t, y[..n], k)
  {
    assert x[..n][..k] == x[..k] && y[..n][..k] == y[..k];
  }

  /** Games with the same actions and the same delays between signal and tap show the same views after
      every move, whatever their seeds and whenever their signals came. */
  lemma {:induction false} ViewsHideTheSignal(derive: Derive, s: State, x: seq<(Option<Action>, int)>, t: State, y: seq<(Option<Action>, int)>)
    requires AlikeButSignal(s, t) && |x| == |y|
    requires forall k | 0 <= k < |x| :: SameMove(derive, s, x, t, y, k)
    ensures AlikeButSignal(Played(derive, s, x), Played(derive, t, y))
    ensures ViewOf(Played(derive, s, x)) == ViewOf(Played(derive, t, y))
    decreases |x|
  {
    if x != [] {
      var n := |x| - 1;
      forall k | 0 <= k < n ensures SameMove(derive, s, x[..n], t, y[..n], k) {
        SameMoveBefore(derive, s, x, t, y, n, k);
      }
      assert SameMove(derive, s, x, t, y, n);
      ViewsHideTheSignal(derive, s, x[..n], t, y[..n]);
      MoveAlike(derive, Played(derive, s, x[..n]), Played(derive, t, y[..n]), x[n].0, x[n].1, y[n].1);
    }
  }
}
