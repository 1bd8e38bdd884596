/** Three hidden numbers from 1 to 100, seven guesses each. */
module NumberGuess {
  import opened Wrappers
  import opened Games

  datatype Hint = NoHint | Correct | Higher | Lower | OutOfGuesses

  datatype State = State(secrets: seq<int>, round: int, low: int, high: int, used: int, total: int, hint: Hint, done: bool)

  /** What a client may see: everything but the secrets. */
  datatype View = View(round: int, low: int, high: int, used: int, left: int, hint: Hint, solved: int, done: bool)

  function Secrets(derive: Derive, seed: int): seq<int> {
    seq(3, round => DeriveRange(derive, seed, "number-guess", round, 1, 100))
  }

  function Started(derive: Derive, seed: int): State {
    State(Secrets(derive, seed), 0, 1, 100, 0, 0, NoHint, false)
  }

  method Start(derive: Derive, seed: int) returns (s: State)
    ensures s == Started(derive, seed)
  {
    var secrets := [];
    for round := 0 to 3
      invariant secrets == Secrets(derive, seed)[..round]
    {
      secrets := secrets + [DeriveRange(derive, seed, "number-guess", round, 1, 100)];
    }
    s := State(secrets, 0, 1, 100, 0, 0, NoHint, false);
  }

  /** Every three numbers from 1 to 100 can come up. */
  lemma AnySecretsComeUp(derive: Derive, seed: int, secrets: seq<int>)
    requires |secrets| == 3 && forall i | 0 <= i < 3 :: 1 <= secrets[i] <= 100 && derive(seed, "number-guess", i) == secrets[i] - 1
    ensures Started(derive, seed).secrets == secrets
  {
    forall i | 0 <= i < 3 ensures Secrets(derive, seed)[i] == secrets[i] {
      EveryValueIsDrawn(derive, seed, "number-guess", i, 1, 100, secrets[i]);
    }
  }

  function ViewOf(s: State): View {
    View(if s.round + 1 < 3 then s.round + 1 else 3, s.low, s.high, s.used, 7 - s.used, s.hint,
         if s.done then 3 else s.round, s.done)
  }

  function Advanced(s: State): State {
    s.(round := s.round + 1, used := 0, low := 1, high := 100, done := s.round + 1 >= 3 || s.done)
  }

  function Max(a: int, b: int): int {
    if a < b then b else a
  }

  function Min(a: int, b: int): int {
    if a < b then a else b
  }

  /** A move whose guess is missing or out of range is rejected and costs nothing. */
  function Move(s: State, guess: Option<int>): Result<(State, Outcome), Error>
    requires s.done || 0 <= s.round < |s.secrets|
  {
    if s.done then Err(AlreadyDone)
    else if guess.None? || guess.value < 1 || guess.value > 100 then Err(InvalidMove)
    else
      var g, secret := guess.value, s.secrets[s.round];
      var t := s.(used := s.used + 1, total := s.total + 1);
      if g == secret then
        Ok((Advanced(t.(hint := Correct)), Outcome(true, s.round + 1 >= 3, None)))
      else
        var u := if g < secret then t.(hint := Higher, low := Max(s.low, g + 1))
                 else t.(hint := Lower, high := Min(s.high, g - 1));
        if u.used >= 7 then Ok((Advanced(u.(hint := OutOfGuesses)), Outcome(false, s.round + 1 >= 3, None)))
        else Ok((u, Outcome(false, false, None)))
  }

  /** Guesses used, rounds never reached charged in full. */
  function Raw(s: State): int {
    s.total + if s.done then 0 else (3 - s.round) * 7 - s.used
  }

  function Points(s: State): int {
    PointsOn(Raw(s) as real, 21.0, 9.0)
  }

  // --------------------------------------------------------------------------- what every move keeps

  ghost predicate Valid(s: State) {
    && |s.secrets| == 3
    && (forall i | 0 <= i < 3 :: 1 <= s.secrets[i] <= 100)
    && 0 <= s.round <= 3 && (s.done <==> s.round == 3)
    && 0 <= s.used < 7 && (s.done ==> s.used == 0)
    && s.round + s.used <= s.total <= 7 * s.round + s.used
    && 1 <= s.low && s.high <= 100
    && (!s.done ==> s.low <= s.secrets[s.round] <= s.high)
  }

  lemma StartedValid(derive: Derive, seed: int)
    ensures Valid(Started(derive, seed)) && Points(Started(derive, seed)) == 0
  {
    PointsFollowRaw(21.0, 21.0, 21.0, 9.0);
  }

  /** A guess is taken exactly if the game is not over and it lies in 1 to 100; one that is not costs
      nothing. */
  lemma MoveIsTaken(s: State, guess: Option<int>)
    requires Valid(s)
    ensures Move(s, guess).Ok? <==> s.round < 3 && guess.Some? && 1 <= guess.value <= 100
    ensures Move(s, guess) == Err(AlreadyDone) <==> s.round == 3
    ensures Move(s, guess).Err? ==> Move(s, guess).error in {AlreadyDone, InvalidMove}
  {
  }

  /** A round is over by the right guess or by the seventh, and a fresh one begins. The hint says which, or on
      which side of the guess the secret lies, and the view counts the guesses down. */
  lemma RoundsEnd(s: State, guess: Option<int>)
    requires Valid(s) && Move(s, guess).Ok?
    ensures var (t, outcome) := Move(s, guess).value;
            var secret, over := s.secrets[s.round], guess.value == s.secrets[s.round] || ViewOf(s).left == 1;
            && t.hint == (if guess.value == secret then Correct
                          else if over then OutOfGuesses else if secret > guess.value then Higher else Lower)
            && t.round == s.round + (if over then 1 else 0)
            && (over ==> t.low == 1 && t.high == 100 && ViewOf(t).left == 7)
            && (!over ==> ViewOf(t).left == ViewOf(s).left - 1 >= 1)
            && (!over ==> t.low >= s.low && t.high <= s.high && !(t.low <= guess.value <= t.high))
            && ViewOf(t).solved == t.round && ViewOf(t).round == (if t.round < 3 then t.round + 1 else 3)
  {
  }

  /** The range shown always holds the secret, the raw score only falls and stays within 3 to 21, the
      points never fall, every accepted guess is counted, and the game says it is over exactly when it
      is. */
  lemma MoveKeeps(s: State, guess: Option<int>)
    requires Valid(s) && Move(s, guess).Ok?
    ensures var (t, outcome) := Move(s, guess).value;
            && Valid(t) && t.secrets == s.secrets
            && 3 <= Raw(t) <= Raw(s) <= 21
            && Points(s) <= Points(t)
            && t.total == s.total + 1 <= 21
            && outcome.done == t.done
            && (outcome.correct <==> guess.value == s.secrets[s.round])
  {
    var (t, outcome) := Move(s, guess).value;
    PointsFollowRaw(Raw(s) as real, Raw(t) as real, 21.0, 9.0);
  }

  // -------------------------------------------------------------------------------- halving always wins

  function Middle(s: State): int {
    (s.low + s.high) / 2
  }

  /** The state after n guesses, each the middle of the range shown. */
  function Halved(s: State, n: nat): State
    requires Valid(s)
    decreases n
  {
    if n == 0 || s.done then s
    else
      var r := Move(s, Some(Middle(s)));
      assert 1 <= Middle(s) <= 100;
      MoveKeeps(s, Some(Middle(s)));
      Halved(r.value.0, n - 1)
  }

  /** The widest range seven guesses, used of them spent, can still search by halving. */
  function Room(used: int): int
    requires 0 <= used < 7
  {
    [127, 63, 31, 15, 7, 3, 1][used]
  }

  /** From a range that fits, guessing the middle ends the round as solved with the guesses that are
      left, and not before the round is over does the round change. */
  lemma {:induction false} HalvingSolvesRound(s: State) returns (n: nat)
    requires Valid(s) && !s.done && s.high - s.low + 1 <= Room(s.used)
    ensures 1 <= n <= 7 - s.used
    ensures Halved(s, n).round == s.round + 1 && Halved(s, n).hint == Correct
    ensures forall k: nat | k < n :: Halved(s, k).round == s.round
    decreases 7 - s.used
  {
    if Middle(s) == s.secrets[s.round] {
      MoveKeeps(s, Some(Middle(s)));
      assert Halved(s, 1) == Move(s, Some(Middle(s))).value.0;
      n := 1;
    } else {
      var t := HalvingMisses(s);
      var m := HalvingSolvesRound(t);
      n := m + 1;
      assert Halved(s, n) == Halved(t, m);
      forall k: nat | k < n
        ensures Halved(s, k).round == s.round
      {
        if k > 0 {
          assert Halved(s, k) == Halved(t, k - 1);
        }
      }
    }
  }

  /** A middle that misses leaves a range that fits the guesses left. */
  lemma HalvingMisses(s: State) returns (t: State)
    requires Valid(s) && !s.done && s.high - s.low + 1 <= Room(s.used) && Middle(s) != s.secrets[s.round]
    ensures Valid(t) && !t.done && t.round == s.round && t.used == s.used + 1 && t.used < 7
    ensures t.high - t.low + 1 <= Room(t.used)
    ensures forall k: nat :: Halved(s, k + 1) == Halved(t, k)
  {
    t := Move(s, Some(Middle(s))).value.0;
    MoveKeeps(s, Some(Middle(s)));
    assert s.used < 6;
    assert Room(s.used) == 2 * Room(s.used + 1) + 1;
  }

  /** Whatever the secret, a round that has just begun is solved by halving within seven guesses. */
  lemma SevenGuessesSuffice(s: State) returns (n: nat)
    requires Valid(s) && !s.done && s.used == 0
    requires s.low == 1 && s.high == 100
    ensures 1 <= n <= 7 && Halved(s, n).round == s.round + 1 && Halved(s, n).hint == Correct
  {
    n := HalvingSolvesRound(s);
  }

  // ------------------------------------------------------------------------------- six are not enough

  /** A way to choose the next guess from the hints so far. */
  type Strategy = seq<Hint> -> int

  /** Whether a strategy, given some hints already, ends the round solved within n more guesses. */
  predicate Solves(s: State, strategy: Strategy, hints: seq<Hint>, n: nat)
    requires Valid(s) && !s.done
    decreases n
  {
    n > 0 &&
    var r := Move(s, Some(strategy(hints)));
    r.Ok? &&
    var (t, outcome) := r.value;
    outcome.correct ||
    (t.round == s.round &&
     (MoveKeeps(s, Some(strategy(hints)));
      !t.done && Solves(t, strategy, hints + [t.hint], n - 1)))
  }

  /** The same game with another secret in the current round. */
  function With(s: State, secret: int): State
    requires Valid(s) && !s.done
  {
    s.(secrets := s.secrets[s.round := secret])
  }

  /** Two to the n. */
  function Pow2(n: nat): (r: nat)
    ensures r >= 1
  {
    if n == 0 then 1 else 2 * Pow2(n - 1)
  }

  /** A wrong guess with guesses to spare leaves the rest to the strategy, told the hint. */
  lemma WrongGuess(s: State, strategy: Strategy, hints: seq<Hint>, n: nat) returns (t: State)
    requires Valid(s) && !s.done && s.used + n <= 6 && n > 0
    requires 1 <= strategy(hints) <= 100 && strategy(hints) != s.secrets[s.round]
    ensures t == Move(s, Some(strategy(hints))).value.0
    ensures Valid(t) && !t.done && t.secrets == s.secrets && t.round == s.round && t.used == s.used + 1
    ensures t.hint == if strategy(hints) < s.secrets[s.round] then Higher else Lower
    ensures Solves(s, strategy, hints, n) ==> Solves(t, strategy, hints + [t.hint], n - 1)
  {
    MoveKeeps(s, Some(strategy(hints)));
    t := Move(s, Some(strategy(hints))).value.0;
  }

  /** The part of the range an answer may leave that is the larger: a secret at its far end. */
  function FarEnd(s: State, g: int): int {
    if g - s.low > s.high - g then s.low else s.high
  }

  lemma WithMoves(s: State, secret: int, other: int, g: int)
    requires Valid(s) && !s.done && s.used < 6 && 1 <= g <= 100
    requires s.low <= secret <= s.high && s.low <= other <= s.high
    requires g != secret && g != other && (g < secret <==> g < other)
    ensures var t := Move(With(s, other), Some(g)).value.0;
            && Valid(t) && !t.done && t.used == s.used + 1
            && Valid(With(s, secret)) && With(t, secret) == Move(With(s, secret), Some(g)).value.0
            && t.low == (if g < other then Max(s.low, g + 1) else s.low)
            && t.high == (if g < other then s.high else Min(s.high, g - 1))
            && t.hint == (if g < other then Higher else Lower)
  {
    MoveKeeps(With(s, other), Some(g));
    var t := Move(With(s, other), Some(g)).value.0;
    assert t.secrets[t.round := secret] == s.secrets[s.round := secret];
  }

  /** From a range of at least two to the n numbers, one escapes n more guesses of any strategy. */
  lemma {:induction false} SomeSecretEscapes(s: State, strategy: Strategy, hints: seq<Hint>, n: nat) returns (secret: int)
    requires Valid(s) && !s.done && s.used + n <= 6
    requires s.high - s.low + 1 >= Pow2(n)
    ensures s.low <= secret <= s.high && Valid(With(s, secret))
    ensures !Solves(With(s, secret), strategy, hints, n)
    decreases n
  {
    secret := s.low;
    var g := strategy(hints);
    if n > 0 && 1 <= g <= 100 {
      var other := FarEnd(s, g);
      assert Pow2(n) == 2 * Pow2(n - 1);
      WithMoves(s, other, other, g);
      var t := Move(With(s, other), Some(g)).value.0;
      secret := SomeSecretEscapes(t, strategy, hints + [t.hint], n - 1);
      WithMoves(s, secret, other, g);
      var next := WrongGuess(With(s, secret), strategy, hints, n);
    }
  }

  /** No way of guessing that goes by the hints finds every secret of a round within six guesses. */
  lemma SixGuessesAreNotEnough(s: State, strategy: Strategy) returns (secret: int)
    requires Valid(s) && !s.done && s.used == 0 && s.low == 1 && s.high == 100
    ensures 1 <= secret <= 100 && Valid(With(s, secret))
    ensures !Solves(With(s, secret), strategy, [], 6)
  {
    assert Pow2(6) == 64;
    secret := SomeSecretEscapes(s, strategy, [], 6);
  }

  // ------------------------------------------------------------------------------ nothing else is shown

  /** Two games alike in all but the secrets. */
  predicate AlikeButSecrets(s: State, t: State) {
    s.(secrets := []) == t.(secrets := []) && |s.secrets| == |t.secrets|
  }

  /** Whether two secrets give a guess the same answer. */
  predicate SameAnswer(x: int, y: int, guess: int) {
    (guess < x <==> guess < y) && (guess > x <==> guess > y)
  }

  /** The state after a list of moves, a rejected one changing nothing. */
  function Played(s: State, moves: seq<Option<int>>): State
    requires Valid(s)
    ensures Valid(Played(s, moves)) && Played(s, moves).secrets == s.secrets
    decreases |moves|
  {
    if moves == [] then s
    else
      var before := Played(s, moves[..|moves| - 1]);
      var r := Move(before, moves[|moves| - 1]);
      if r.Err? then before
      else
        MoveKeeps(before, moves[|moves| - 1]);
        r.value.0
  }

  lemma MoveAlike(s: State, t: State, guess: Option<int>)
    requires Valid(s) && Valid(t) && AlikeButSecrets(s, t)
    requires guess.Some? && s.round < 3 ==> SameAnswer(s.secrets[s.round], t.secrets[t.round], guess.value)
    ensures Move(s, guess).Ok? <==> Move(t, guess).Ok?
    ensures Move(s, guess).Ok? ==> AlikeButSecrets(Move(s, guess).value.0, Move(t, guess).value.0)
  {
    var secrets := t.secrets;
    assert t == s.(secrets := secrets) by {
      assert s.(secrets := []).(secrets := secrets) == t.(secrets := []).(secrets := secrets);
    }
  }

  /** As long as the secrets of two games answer the guesses alike, their views are the same after every
      move: a view tells nothing about the secret but the answers. */
  lemma {:induction false} ViewsTellOnlyAnswers(s: State, t: State, moves: seq<Option<int>>)
    requires Valid(s) && Valid(t) && AlikeButSecrets(s, t)
    requires forall k | 0 <= k < |moves| && moves[k].Some? ::
               var round := Played(s, moves[..k]).round;
               round < 3 ==> SameAnswer(s.secrets[round], t.secrets[round], moves[k].value)
    ensures AlikeButSecrets(Played(s, moves), Played(t, moves))
    ensures ViewOf(Played(s, moves)) == ViewOf(Played(t, moves))
    decreases |moves|
  {
    if moves != [] {
      var n := |moves| - 1;
      forall k | 0 <= k < n ensures moves[..n][..k] == moves[..k] {
      }
      ViewsTellOnlyAnswers(s, t, moves[..n]);
      MoveAlike(Played(s, moves[..n]), Played(t, moves[..n]), moves[n]);
    }
    SameView(Played(s, moves), Played(t, moves));
  }

  lemma SameView(s: State, t: State)
    requires AlikeButSecrets(s, t)
    ensures ViewOf(s) == ViewOf(t)
  {
    assert s.(secrets := []).used == t.(secrets := []).used;
  }
}
