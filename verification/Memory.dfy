/** A growing sequence of symbols to repeat; one mistake ends the run. */
module Memory {
  import opened Wrappers
  import opened Games

  datatype State = State(seed: int, level: int, completed: int, done: bool)

  function Started(seed: int): State {
    State(seed, 1, 0, false)
  }

  /** The symbols of a level. */
  function Sequence(derive: Derive, seed: int, level: nat): seq<int> {
    seq(level, i => DeriveIntn(derive, seed, "memory", i, 4) + 1)
  }

  method MakeSequence(derive: Derive, seed: int, level: nat) returns (sequence: seq<int>)
    ensures sequence == Sequence(derive, seed, level)
  {
    sequence := [];
    for i := 0 to level
      invariant sequence == Sequence(derive, seed, level)[..i]
    {
      sequence := sequence + [DeriveIntn(derive, seed, "memory", i, 4) + 1];
    }
  }

  /** A level's sequence is the one before and one symbol more. */
  lemma SequenceExtends(derive: Derive, seed: int, level: nat, longer: nat)
    requires level <= longer
    ensures Sequence(derive, seed, longer)[..level] == Sequence(derive, seed, level)
    ensures forall x | x in Sequence(derive, seed, longer) :: 1 <= x <= 4
  {
  }

  /** Every sequence of the four symbols can come up. */
  lemma EverySequenceComesUp(derive: Derive, seed: int, symbols: seq<int>)
    requires forall i | 0 <= i < |symbols| :: 1 <= symbols[i] <= 4 && derive(seed, "memory", i) == symbols[i] - 1
    ensures Sequence(derive, seed, |symbols|) == symbols
  {
    forall i | 0 <= i < |symbols| ensures Sequence(derive, seed, |symbols|)[i] == symbols[i] {
      SmallRemainder(symbols[i] - 1, 4);
    }
  }

  /** None stands for a move that cannot be decoded. */
  function Move(derive: Derive, s: State, answer: Option<seq<int>>): Result<(State, Outcome), Error>
    requires s.done || s.level >= 0
  {
    if s.done then Err(AlreadyDone)
    else if answer.None? || answer.value == [] then Err(InvalidMove)
    else if answer.value != Sequence(derive, s.seed, s.level) then
      Ok((s.(done := true), Outcome(false, true, None)))
    else
      var t := s.(completed := s.level, level := s.level + 1);
      if t.level > 20 then Ok((t.(done := true), Outcome(true, true, None)))
      else Ok((t, Outcome(true, false, None)))
  }

  function Raw(s: State): int {
    s.completed
  }

  function Points(s: State): int {
    PointsOn(Raw(s) as real, 0.0, 12.0)
  }

  ghost predicate Valid(s: State) {
    && 1 <= s.level <= 21 && s.completed == s.level - 1
    && (s.level == 21 ==> s.done)
  }

  lemma StartedValid(seed: int)
    ensures Valid(Started(seed)) && Points(Started(seed)) == 0
  {
    PointsFollowRaw(0.0, 0.0, 0.0, 12.0);
  }

  /** Moves still possible. */
  function Left(s: State): int {
    if s.done then 0 else 21 - s.level
  }

  /** A move is taken exactly if the run is not over and it has symbols in it, right or wrong. */
  lemma MoveIsTaken(derive: Derive, s: State, answer: Option<seq<int>>)
    requires Valid(s)
    ensures Move(derive, s, answer).Ok? <==> !s.done && answer.Some? && |answer.value| > 0
    ensures Move(derive, s, answer) == Err(AlreadyDone) <==> s.done
    ensures Move(derive, s, answer).Err? ==> Move(derive, s, answer).error in {AlreadyDone, InvalidMove}
  {
  }

  /** Every accepted move leaves fewer to make, twenty at most; points never fall; and a level is
      completed exactly by repeating its sequence. A mistake or the twentieth level ends the run. */
  lemma MoveKeeps(derive: Derive, s: State, answer: Option<seq<int>>)
    requires Valid(s) && Move(derive, s, answer).Ok?
    ensures var (t, outcome) := Move(derive, s, answer).value;
            && Valid(t) && t.seed == s.seed
            && 0 <= Left(t) < Left(s) <= 20
            && Points(s) <= Points(t)
            && outcome.done == t.done == (!outcome.correct || s.level == 20) && outcome.holdUntil == None
            && (outcome.correct <==> answer.value == Sequence(derive, s.seed, s.level))
            && Raw(t) == Raw(s) + (if outcome.correct then 1 else 0)
  {
    var (t, outcome) := Move(derive, s, answer).value;
    PointsFollowRaw(Raw(s) as real, Raw(t) as real, 0.0, 12.0);
  }
}
