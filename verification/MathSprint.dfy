/** Arithmetic against the clock. */
module MathSprint {
  import opened Wrappers
  import opened Games

  datatype State = State(seed: int, deadline: int, index: int, correct: int, wrong: int)

  datatype Operator = Plus | Minus | Times

  datatype Problem = Problem(op: Operator, a: int, b: int, answer: int)

  function ProblemAt(derive: Derive, seed: int, index: int): Problem {
    match DeriveIntn(derive, seed, "math-op", index, 3)
    case 0 =>
      var a, b := DeriveRange(derive, seed, "math-a", index, 12, 99), DeriveRange(derive, seed, "math-b", index, 12, 99);
      Problem(Plus, a, b, a + b)
    case 1 =>
      var a, b := DeriveRange(derive, seed, "math-a", index, 30, 99), DeriveRange(derive, seed, "math-b", index, 2, 29);
      Problem(Minus, a, b, a - b)
    case _ =>
      var a, b := DeriveRange(derive, seed, "math-a", index, 2, 12), DeriveRange(derive, seed, "math-b", index, 2, 12);
      Problem(Times, a, b, a * b)
  }

  /** A number taken so many times, added up. */
  function Taken(a: int, times: nat): int {
    if times == 0 then 0 else Taken(a, times - 1) + a
  }

  /** What a player has to find: for a sum what is left of it without either number, for a difference what
      makes up for it, for a product the one number taken as often as the other says. */
  predicate Answers(op: Operator, a: int, b: int, x: int) {
    match op
    case Plus => x - a == b
    case Minus => x + b == a
    case Times => b >= 0 && x == Taken(a, b)
  }

  lemma {:induction false} TakenMultiplies(a: int, times: nat)
    ensures Taken(a, times) == a * times
  {
    if times > 0 {
      TakenMultiplies(a, times - 1);
    }
  }

  /** Every problem has the answer to what it asks, and that answer alone, from numbers small enough to
      reckon with: two of 12 to 99 to add, 2 to 29 to take from 30 to 99, two of 2 to 12 to multiply. */
  lemma ProblemIsRight(derive: Derive, seed: int, index: int)
    ensures var p := ProblemAt(derive, seed, index);
            && (forall x :: Answers(p.op, p.a, p.b, x) <==> x == p.answer)
            && (p.op == Plus ==> 12 <= p.a <= 99 && 12 <= p.b <= 99)
            && (p.op == Minus ==> 30 <= p.a <= 99 && 2 <= p.b <= 29 && p.answer >= 1)
            && (p.op == Times ==> 2 <= p.a <= 12 && 2 <= p.b <= 12)
  {
    var p := ProblemAt(derive, seed, index);
    if p.op == Times {
      TakenMultiplies(p.a, p.b);
    }
  }

  /** Every such problem can come up at every index: as the three hashes of the index have it. */
  lemma EveryProblemComesUp(derive: Derive, seed: int, index: int, op: Operator, a: int, b: int)
    requires if op == Plus then 12 <= a <= 99 && 12 <= b <= 99
             else if op == Minus then 30 <= a <= 99 && 2 <= b <= 29
             else 2 <= a <= 12 && 2 <= b <= 12
    requires derive(seed, "math-op", index) == if op == Plus then 0 else if op == Minus then 1 else 2
    requires derive(seed, "math-a", index) == a - if op == Plus then 12 else if op == Minus then 30 else 2
    requires derive(seed, "math-b", index) == b - if op == Plus then 12 else 2
    ensures var p := ProblemAt(derive, seed, index); p.op == op && p.a == a && p.b == b
  {
    SmallRemainder(derive(seed, "math-op", index), 3);
    EveryValueIsDrawn(derive, seed, "math-a", index, if op == Plus then 12 else if op == Minus then 30 else 2,
                      if op == Times then 12 else 99, a);
    EveryValueIsDrawn(derive, seed, "math-b", index, if op == Plus then 12 else 2,
                      if op == Plus then 99 else if op == Minus then 29 else 12, b);
  }

  /** An answer to the problem at an index of a seed. */
  predicate RightAt(derive: Derive, seed: int, index: int, x: int) {
    var p := ProblemAt(derive, seed, index);
    Answers(p.op, p.a, p.b, x)
  }

  function Started(seed: int, now: int): State {
    State(seed, now + 30_000_000_000, 0, 0, 0)
  }

  /** None stands for a move that cannot be decoded, or has no answer in it. */
  function Move(derive: Derive, s: State, answer: Option<int>, now: int): Result<(State, Outcome), Error> {
    if now > s.deadline then Err(DeadlinePassed)
    else if answer.None? then Err(InvalidMove)
    else
      var correct := answer.value == ProblemAt(derive, s.seed, s.index).answer;
      var t := if correct then s.(correct := s.correct + 1) else s.(wrong := s.wrong + 1);
      Ok((t.(index := s.index + 1), Outcome(correct, false, None)))
  }

  function Raw(s: State): int {
    s.correct
  }

  function Points(s: State): int {
    PointsOn(Raw(s) as real, 0.0, 30.0)
  }

  /** The state after moves made at certain instants, and the answers among them that came within the half
      minute. */
  function Played(derive: Derive, s: State, moves: seq<(Option<int>, int)>): State {
    if moves == [] then s
    else
      var n := |moves| - 1;
      var before := Played(derive, s, moves[..n]);
      var r := Move(derive, before, moves[n].0, moves[n].1);
      if r.Err? then before else r.value.0
  }

  function Accepted(start: int, moves: seq<(Option<int>, int)>): seq<int> {
    if moves == [] then []
    else
      var n := |moves| - 1;
      if moves[n].1 > start + 30_000_000_000 || moves[n].0.None? then Accepted(start, moves[..n])
      else Accepted(start, moves[..n]) + [moves[n].0.value]
  }

  /** How many answers are the answers of the problems from the seed, in order. */
  function RightAnswers(derive: Derive, seed: int, answers: seq<int>): nat {
    if answers == [] then 0
    else
      var n := |answers| - 1;
      RightAnswers(derive, seed, answers[..n]) + if RightAt(derive, seed, n, answers[n]) then 1 else 0
  }

  /** A move is taken exactly if it comes in time and has an answer in it. */
  lemma MoveIsTaken(derive: Derive, s: State, answer: Option<int>, now: int)
    ensures Move(derive, s, answer, now).Ok? <==> now <= s.deadline && answer.Some?
    ensures Move(derive, s, answer, now) == Err(DeadlinePassed) <==> now > s.deadline
    ensures Move(derive, s, answer, now).Err? ==> Move(derive, s, answer, now).error in {DeadlinePassed, InvalidMove}
  {
  }

  /** A move that is taken is right exactly if it answers what the problem asks; it moves on to the next
      problem, and points never fall. */
  lemma MoveKeeps(derive: Derive, s: State, answer: Option<int>, now: int)
    requires Move(derive, s, answer, now).Ok?
    ensures var (t, outcome) := Move(derive, s, answer, now).value;
            && Points(s) <= Points(t) && !outcome.done
            && (outcome.correct <==> RightAt(derive, s.seed, s.index, answer.value))
            && t.seed == s.seed && t.deadline == s.deadline && t.index == s.index + 1
            && t.correct + t.wrong == s.correct + s.wrong + 1 && outcome.holdUntil == None
            && Raw(t) == Raw(s) + (if outcome.correct then 1 else 0)
  {
    var (t, outcome) := Move(derive, s, answer, now).value;
    ProblemIsRight(derive, s.seed, s.index);
    PointsFollowRaw(Raw(s) as real, Raw(t) as real, 0.0, 30.0);
  }

  lemma OneMoreAnswer(derive: Derive, seed: int, answers: seq<int>, answer: int)
    ensures RightAnswers(derive, seed, answers + [answer]) ==
            RightAnswers(derive, seed, answers) + if RightAt(derive, seed, |answers|, answer) then 1 else 0
  {
    assert (answers + [answer])[..|answers|] == answers;
  }

  /** The score is the number of the answers that match the seeded problems, each asked once and in
      order. */
  predicate Tallies(derive: Derive, s: State, seed: int, deadline: int, answers: seq<int>) {
    && s.seed == seed && s.deadline == deadline
    && s.index == |answers| == s.correct + s.wrong
    && s.correct == RightAnswers(derive, seed, answers)
  }

  lemma MoveTallies(derive: Derive, s: State, seed: int, deadline: int, answers: seq<int>, answer: int, now: int)
    requires Tallies(derive, s, seed, deadline, answers) && now <= deadline
    ensures Tallies(derive, Move(derive, s, Some(answer), now).value.0, seed, deadline, answers + [answer])
  {
    ProblemIsRight(derive, seed, |answers|);
    OneMoreAnswer(derive, seed, answers, answer);
  }

  /** In every run the score tallies with the answers that came within the half minute. */
  lemma {:induction false} ScoreMatchesProblems(derive: Derive, seed: int, start: int, moves: seq<(Option<int>, int)>)
    ensures Tallies(derive, Played(derive, Started(seed, start), moves), seed, start + 30_000_000_000,
                    Accepted(start, moves))
  {
    if moves != [] {
      var n := |moves| - 1;
      var begun := Started(seed, start);
      ScoreMatchesProblems(derive, seed, start, moves[..n]);
      if moves[n].1 <= begun.deadline && moves[n].0.Some? {
        MoveTallies(derive, Played(derive, begun, moves[..n]), seed, begun.deadline, Accepted(start, moves[..n]),
                    moves[n].0.value, moves[n].1);
      }
    }
  }

  lemma StartsAtNothing(seed: int, now: int)
    ensures Points(Started(seed, now)) == 0
  {
    PointsFollowRaw(0.0, 0.0, 0.0, 30.0);
  }
}
