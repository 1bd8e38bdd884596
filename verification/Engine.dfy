/** The five games behind one interface. */
module Engine {
  import opened Wrappers
  import opened Keys
  import opened Games
  import Reaction
  import MathSprint
  import Memory
  import WordScramble
  import NumberGuess

  /** What the games are derived from besides the seed. */
  datatype Env = Env(derive: Derive, words: seq<string>)

  datatype Game = OfReaction | OfMathSprint | OfMemory | OfWordScramble | OfNumberGuess

  datatype State =
    | Reacting(reaction: Reaction.State)
    | Sprinting(sprint: MathSprint.State)
    | Remembering(memory: Memory.State)
    | Unscrambling(scramble: WordScramble.State)
    | Guessing(guess: NumberGuess.State)

  /** What a client may send. A move meant for another game cannot be decoded by this one. */
  datatype Move =
    | Act(action: Reaction.Action)
    | Solve(answer: int)
    | Repeat(sequence: seq<int>)
    | Try(attempt: WordScramble.Attempt)
    | Guess(guess: int)
    | Garbage

  function SlugOf(g: Game): (slug: string)
    ensures slug in SLUGS
  {
    match g
    case OfReaction => assert SLUGS[0] in SLUGS; SLUGS[0]
    case OfMathSprint => assert SLUGS[1] in SLUGS; SLUGS[1]
    case OfMemory => assert SLUGS[2] in SLUGS; SLUGS[2]
    case OfWordScramble => assert SLUGS[3] in SLUGS; SLUGS[3]
    case OfNumberGuess => assert SLUGS[4] in SLUGS; SLUGS[4]
  }

  function GameOf(s: State): Game {
    match s
    case Reacting(_) => OfReaction
    case Sprinting(_) => OfMathSprint
    case Remembering(_) => OfMemory
    case Unscrambling(_) => OfWordScramble
    case Guessing(_) => OfNumberGuess
  }

  function Start(env: Env, g: Game, seed: int, now: int): State {
    match g
    case OfReaction => Reacting(Reaction.Started(seed))
    case OfMathSprint => Sprinting(MathSprint.Started(seed, now))
    case OfMemory => Remembering(Memory.Started(seed))
    case OfWordScramble => Unscrambling(WordScramble.Started(seed, now))
    case OfNumberGuess => Guessing(NumberGuess.Started(env.derive, seed))
  }

  ghost predicate Valid(s: State) {
    match s
    case Reacting(r) => Reaction.Valid(r)
    case Sprinting(_) => true
    case Remembering(m) => Memory.Valid(m)
    case Unscrambling(w) => w.index == w.solved + w.skipped
    case Guessing(n) => NumberGuess.Valid(n)
  }

  /** The timed games never end on their own. */
  predicate Done(s: State) {
    match s
    case Reacting(r) => r.done
    case Sprinting(_) => false
    case Remembering(m) => m.done
    case Unscrambling(_) => false
    case Guessing(n) => n.done
  }

  function Apply(env: Env, s: State, move: Move, now: int): (r: Result<(State, Outcome), Error>)
    requires Valid(s) && WordScramble.WordList(env.words)
  {
    match s
    case Reacting(x) =>
      (match Reaction.Move(env.derive, x, if move.Act? then Some(move.action) else None, now)
       case Ok((t, o)) => Ok((Reacting(t), o))
       case Err(e) => Err(e))
    case Sprinting(x) =>
      (match MathSprint.Move(env.derive, x, if move.Solve? then Some(move.answer) else None, now)
       case Ok((t, o)) => Ok((Sprinting(t), o))
       case Err(e) => Err(e))
    case Remembering(x) =>
      (match Memory.Move(env.derive, x, if move.Repeat? then Some(move.sequence) else None)
       case Ok((t, o)) => Ok((Remembering(t), o))
       case Err(e) => Err(e))
    case Unscrambling(x) =>
      (match WordScramble.Move(env.derive, env.words, x, if move.Try? then move.attempt else WordScramble.Undecodable, now)
       case Ok((t, o)) => Ok((Unscrambling(t), o))
       case Err(e) => Err(e))
    case Guessing(x) =>
      (match NumberGuess.Move(x, if move.Guess? then Some(move.guess) else None)
       case Ok((t, o)) => Ok((Guessing(t), o))
       case Err(e) => Err(e))
  }

  function Raw(s: State): real {
    match s
    case Reacting(x) => Reaction.Raw(x)
    case Sprinting(x) => MathSprint.Raw(x) as real
    case Remembering(x) => Memory.Raw(x) as real
    case Unscrambling(x) => WordScramble.Raw(x) as real
    case Guessing(x) => NumberGuess.Raw(x) as real
  }

  function Points(g: Game, raw: real): int {
    match g
    case OfReaction => PointsOn(raw, 500.0, 180.0)
    case OfMathSprint => PointsOn(raw, 0.0, 30.0)
    case OfMemory => PointsOn(raw, 0.0, 12.0)
    case OfWordScramble => PointsOn(raw, 0.0, 15.0)
    case OfNumberGuess => PointsOn(raw, 21.0, 9.0)
  }

  /** Every game starts valid, undone and worth nothing. */
  lemma StartIsNothing(env: Env, g: Game, seed: int, now: int)
    ensures var s := Start(env, g, seed, now);
            Valid(s) && !Done(s) && GameOf(s) == g && Points(g, Raw(s)) == 0
  {
    match g
    case OfReaction => Reaction.StartedValid(seed);
    case OfMathSprint => MathSprint.StartsAtNothing(seed, now);
    case OfMemory => Memory.StartedValid(seed);
    case OfWordScramble => WordScramble.StartsAtNothing(seed, now);
    case OfNumberGuess => NumberGuess.StartedValid(env.derive, seed);
  }

  /** An accepted move keeps the game valid and says it is done exactly when it is. */
  lemma MoveKeeps(env: Env, s: State, move: Move, now: int)
    requires Valid(s) && WordScramble.WordList(env.words) && Apply(env, s, move, now).Ok?
    ensures var (t, outcome) := Apply(env, s, move, now).value;
            Valid(t) && GameOf(t) == GameOf(s) && (outcome.done <==> Done(t))
  {
    match s
    case Reacting(x) => Reaction.MoveKeeps(env.derive, x, if move.Act? then Some(move.action) else None, now);
    case Sprinting(x) =>
    case Remembering(x) => Memory.MoveKeeps(env.derive, x, if move.Repeat? then Some(move.sequence) else None);
    case Unscrambling(x) =>
    case Guessing(x) => NumberGuess.MoveKeeps(x, if move.Guess? then Some(move.guess) else None);
  }

  /** A game takes only moves that are meant for it, and only while it goes on. */
  lemma MoveIsTaken(env: Env, s: State, move: Move, now: int)
    requires Valid(s) && WordScramble.WordList(env.words)
    ensures Apply(env, s, move, now).Ok? <==>
            match s
            case Reacting(x) => move.Act? && ((move.action == Reaction.Arm && !x.done && x.goAt.None?) || (move.action == Reaction.Tap && x.goAt.Some?))
            case Sprinting(x) => move.Solve? && now <= x.deadline
            case Remembering(x) => move.Repeat? && move.sequence != [] && !x.done
            case Unscrambling(x) =>
              move.Try? && now <= x.deadline && (move.attempt.Skip? || (move.attempt.Answer? && move.attempt.word != ""))
            case Guessing(x) => move.Guess? && 1 <= move.guess <= 100 && !x.done
  {
  }

  /** What a move that is taken has to be to be called right: a tap once 80 milliseconds have passed, an answer to the
      problem asked, the sequence shown, a listed word of the letters shown, the number hidden. Where right moves are
      counted, each counts one. */
  lemma WhatIsRight(env: Env, s: State, move: Move, now: int)
    requires Valid(s) && WordScramble.WordList(env.words) && Apply(env, s, move, now).Ok?
    ensures var (t, outcome) := Apply(env, s, move, now).value;
            && (outcome.correct <==>
                match s
                case Reacting(x) => x.goAt.Some? && now - x.goAt.value >= 80_000_000
                case Sprinting(x) => MathSprint.RightAt(env.derive, x.seed, x.index, move.answer)
                case Remembering(x) => move.sequence == Memory.Sequence(env.derive, x.seed, x.level)
                case Unscrambling(x) => WordScramble.Passes(env.words, move.attempt, WordScramble.WordAt(env.derive, env.words, x.seed, x.index))
                                        && !move.attempt.Skip?
                case Guessing(x) => move.guess == x.secrets[x.round])
            && (s.Sprinting? || s.Remembering? || s.Unscrambling? ==> Raw(t) == Raw(s) + if outcome.correct then 1.0 else 0.0)
  {
    match s
    case Reacting(x) =>
      if x.goAt.Some? {
        Reaction.TapIsMeasured(env.derive, x, now);
      }
    case Sprinting(x) => MathSprint.MoveKeeps(env.derive, x, Some(move.answer), now);
    case Remembering(x) => Memory.MoveKeeps(env.derive, x, Some(move.sequence));
    case Unscrambling(x) => WordScramble.MoveKeeps(env.derive, env.words, x, move.attempt, now);
    case Guessing(x) => NumberGuess.MoveKeeps(x, Some(move.guess));
  }

  /** Playing on never costs points, so quitting never pays: outside the reaction game with no
      exception, and there unless a tap is charged more than half a second. */
  lemma PlayingOnNeverCosts(env: Env, s: State, move: Move, now: int)
    requires Valid(s) && WordScramble.WordList(env.words) && Apply(env, s, move, now).Ok?
    requires s.Reacting? && s.reaction.goAt.Some? ==>
               Reaction.Charged(Reaction.Milliseconds(now - s.reaction.goAt.value)) <= 500
    ensures Points(GameOf(s), Raw(s)) <= Points(GameOf(s), Raw(Apply(env, s, move, now).value.0))
  {
    match s
    case Reacting(x) =>
      if x.goAt.Some? {
        Reaction.TapPays(env.derive, x, now);
      }
    case Sprinting(x) => MathSprint.MoveKeeps(env.derive, x, if move.Solve? then Some(move.answer) else None, now);
    case Remembering(x) => Memory.MoveKeeps(env.derive, x, if move.Repeat? then Some(move.sequence) else None);
    case Unscrambling(x) =>
      WordScramble.MoveKeeps(env.derive, env.words, x, if move.Try? then move.attempt else WordScramble.Undecodable, now);
    case Guessing(x) => NumberGuess.MoveKeeps(x, if move.Guess? then Some(move.guess) else None);
  }

  /** What it takes to earn nothing and to earn everything: a mean reaction of half a second and of 180
      milliseconds, no answer right and thirty, no level and twelve, no word and fifteen, all guesses used and
      nine. */
  lemma FullMarks()
    ensures Points(OfReaction, 500.0) == 0 && Points(OfReaction, 180.0) == MAX_POINTS
    ensures Points(OfMathSprint, 0.0) == 0 && Points(OfMathSprint, 30.0) == MAX_POINTS
    ensures Points(OfMemory, 0.0) == 0 && Points(OfMemory, 12.0) == MAX_POINTS
    ensures Points(OfWordScramble, 0.0) == 0 && Points(OfWordScramble, 15.0) == MAX_POINTS
    ensures Points(OfNumberGuess, 21.0) == 0 && Points(OfNumberGuess, 9.0) == MAX_POINTS
  {
    PointsFollowRaw(500.0, 180.0, 500.0, 180.0);
    PointsFollowRaw(0.0, 30.0, 0.0, 30.0);
    PointsFollowRaw(0.0, 12.0, 0.0, 12.0);
    PointsFollowRaw(0.0, 15.0, 0.0, 15.0);
    PointsFollowRaw(21.0, 9.0, 21.0, 9.0);
  }

  /** And a raw score on the way earns its share of the way. */
  lemma SharesOfTheWay(g: Game, raw: real, worst: real, best: real, way: real, all: real, p: real)
    requires worst < raw < best || best < raw < worst
    requires Points(g, worst) == 0 && Points(g, best) == MAX_POINTS
    requires way == raw - worst && all == best - worst && p == Points(g, raw) as real
    requires match g
             case OfReaction => worst == 500.0 && best == 180.0
             case OfMathSprint => worst == 0.0 && best == 30.0
             case OfMemory => worst == 0.0 && best == 12.0
             case OfWordScramble => worst == 0.0 && best == 15.0
             case OfNumberGuess => worst == 21.0 && best == 9.0
    ensures all > 0.0 ==> p * all <= 10_000.0 * way < p * all + all
    ensures all < 0.0 ==> p * all + all < 10_000.0 * way <= p * all
  {
    PointsAreLinear(raw, worst, best, way, all, p);
  }

  lemma PointsRange(g: Game, raw: real)
    ensures 0 <= Points(g, raw) <= MAX_POINTS
  {
    PointsFollowRaw(raw, raw, 0.0, 1.0);
    match g
    case OfReaction => PointsFollowRaw(raw, raw, 500.0, 180.0);
    case OfMathSprint => PointsFollowRaw(raw, raw, 0.0, 30.0);
    case OfMemory => PointsFollowRaw(raw, raw, 0.0, 12.0);
    case OfWordScramble => PointsFollowRaw(raw, raw, 0.0, 15.0);
    case OfNumberGuess => PointsFollowRaw(raw, raw, 21.0, 9.0);
  }
}
