/** Words with their letters shuffled, against the clock. */
module WordScramble {
  import opened Wrappers
  import opened Decimal
  import opened Games

  datatype State = State(seed: int, deadline: int, index: int, solved: int, skipped: int)

  // ------------------------------------------------------------------------------------- shuffling

  function Swapped(letters: string, i: nat, j: nat): string
    requires i < |letters| && j < |letters|
  {
    letters[i := letters[j]][j := letters[i]]
  }

  lemma SwapPermutes(letters: string, i: nat, j: nat)
    requires i < |letters| && j < |letters|
    ensures multiset(Swapped(letters, i, j)) == multiset(letters)
  {
    assert multiset(letters[i := letters[j]]) == multiset(letters) - multiset{letters[i]} + multiset{letters[j]};
  }

  function Target(derive: Derive, seed: int, index: int, i: int): int {
    DeriveIntn(derive, seed, "scramble:" + FormatInt(index), i, i + 1)
  }

  /** The word after the swaps at positions above i have been made. */
  function Shuffled(derive: Derive, word: string, seed: int, index: int, i: int): string
    requires 0 <= i < |word| || i == |word| - 1 == -1
    ensures |Shuffled(derive, word, seed, index, i)| == |word|
    decreases |word| - i
  {
    if i >= |word| - 1 then word
    else Swapped(Shuffled(derive, word, seed, index, i + 1), i + 1, Target(derive, seed, index, i + 1))
  }

  /** The shuffle, rotated if it happens to give the word itself. */
  function Scrambled(derive: Derive, word: string, seed: int, index: int): string {
    if word == "" then ""
    else
      var shuffled := Shuffled(derive, word, seed, index, 0);
      if shuffled == word && |word| > 1 then Swapped(shuffled, 0, 1) else shuffled
  }

  /** Shuffles the letters in place, from the last position down. */
  method ShuffleLetters(derive: Derive, letters: array<char>, seed: int, index: int)
    requires letters.Length > 0
    modifies letters
    ensures letters[..] == Shuffled(derive, old(letters[..]), seed, index, 0)
  {
    ghost var word := letters[..];
    var i := letters.Length - 1;
    while i > 0
      invariant 0 <= i < letters.Length == |word|
      invariant letters[..] == Shuffled(derive, word, seed, index, i)
    {
      var j := DeriveIntn(derive, seed, "scramble:" + FormatInt(index), i, i + 1);
      letters[i], letters[j] := letters[j], letters[i];
      i := i - 1;
    }
  }

  method ScrambleWord(derive: Derive, word: string, seed: int, index: int) returns (scramble: string)
    ensures scramble == Scrambled(derive, word, seed, index)
  {
    var letters := new char[|word|](i requires 0 <= i < |word| => word[i]);
    assert letters[..] == word;
    if |word| > 0 {
      ShuffleLetters(derive, letters, seed, index);
      if letters[..] == word && letters.Length > 1 {
        letters[0], letters[1] := letters[1], letters[0];
      }
    }
    scramble := letters[..];
  }

  lemma {:induction false} ShufflePermutes(derive: Derive, word: string, seed: int, index: int, i: nat)
    requires i < |word|
    ensures multiset(Shuffled(derive, word, seed, index, i)) == multiset(word)
    decreases |word| - i
  {
    if i < |word| - 1 {
      ShufflePermutes(derive, word, seed, index, i + 1);
      SwapPermutes(Shuffled(derive, word, seed, index, i + 1), i + 1, Target(derive, seed, index, i + 1));
    }
  }

  /** The player always gets the letters of the word, and never the word itself if its first two letters
      differ. If they are the same the rotation is none, so the word is given away exactly when the
      shuffle comes back to it. */
  lemma ScrambleHidesWord(derive: Derive, word: string, seed: int, index: int)
    ensures multiset(Scrambled(derive, word, seed, index)) == multiset(word)
    ensures |word| >= 2 ==>
              (Scrambled(derive, word, seed, index) == word <==>
               Shuffled(derive, word, seed, index, 0) == word && word[0] == word[1])
  {
    if word != "" {
      ShufflePermutes(derive, word, seed, index, 0);
      var shuffled := Shuffled(derive, word, seed, index, 0);
      if |word| >= 2 {
        SwapPermutes(shuffled, 0, 1);
        if shuffled == word && word[0] != word[1] {
          assert Swapped(shuffled, 0, 1)[0] != word[0];
        }
      }
    }
  }

  /** The hash that draws certain places. */
  function Picking(picks: seq<nat>): Derive {
    (seed, name, i) => if 0 <= i < |picks| then picks[i] else 0
  }

  lemma PickingDraws(picks: seq<nat>, seed: int, index: int, n: nat)
    requires n < |picks| && picks[n] <= n
    ensures Target(Picking(picks), seed, index, n) == picks[n]
  {
    assert Picking(picks)(seed, "scramble:" + FormatInt(index), n) == picks[n];
    SmallRemainder(picks[n], n + 1);
  }

  /** Only what is drawn for the places above matters. */
  lemma {:induction false} ShuffleSame(a: seq<nat>, b: seq<nat>, word: string, seed: int, index: int, i: nat)
    requires i < |word| && |a| == |b| == |word| && forall n | i < n < |word| :: a[n] == b[n]
    ensures Shuffled(Picking(a), word, seed, index, i) == Shuffled(Picking(b), word, seed, index, i)
    decreases |word| - i
  {
    if i < |word| - 1 {
      ShuffleSame(a, b, word, seed, index, i + 1);
      var name := "scramble:" + FormatInt(index);
      assert Picking(a)(seed, name, i + 1) == Picking(b)(seed, name, i + 1);
    }
  }

  /** Two words with the same letters that agree from some place on have the same letters up to it. */
  lemma SameFront(a: string, b: string, n: nat)
    requires n <= |a| == |b| && multiset(a) == multiset(b) && a[n..] == b[n..]
    ensures multiset(a[..n]) == multiset(b[..n])
  {
    assert a == a[..n] + a[n..] && b == b[..n] + b[n..];
    assert multiset(a) == multiset(a[..n]) + multiset(a[n..]);
    assert multiset(b) == multiset(b[..n]) + multiset(b[n..]);
    forall c ensures multiset(a[..n])[c] == multiset(b[..n])[c] {
      assert multiset(a)[c] == multiset(a[..n])[c] + multiset(a[n..])[c];
      assert multiset(b)[c] == multiset(b[..n])[c] + multiset(b[n..])[c];
    }
  }

  lemma PlaceOf(front: string, c: char) returns (j: nat)
    requires c in multiset(front)
    ensures j < |front| && front[j] == c
  {
    j :| j < |front| && front[j] == c;
  }

  lemma {:induction false} ShuffleReaches(word: string, goal: string, seed: int, index: int, i: nat) returns (picks: seq<nat>)
    requires i < |word| == |goal| && multiset(word) == multiset(goal)
    ensures |picks| == |word|
    ensures Shuffled(Picking(picks), word, seed, index, i)[i + 1..] == goal[i + 1..]
    decreases |word| - i
  {
    if i == |word| - 1 {
      picks := seq(|word|, _ => 0);
    } else {
      var n := i + 1;
      var before := ShuffleReaches(word, goal, seed, index, n);
      var sofar := Shuffled(Picking(before), word, seed, index, n);
      ShufflePermutes(Picking(before), word, seed, index, n);
      SameFront(sofar, goal, n + 1);
      assert goal[..n + 1][n] == goal[n];
      var j := PlaceOf(sofar[..n + 1], goal[n]);
      picks := before[n := j];
      ShuffleSame(before, picks, word, seed, index, n);
      PickingDraws(picks, seed, index, n);
      PutInPlace(sofar, goal, n, j);
    }
  }

  lemma PutInPlace(sofar: string, goal: string, n: nat, j: nat)
    requires j <= n < |sofar| == |goal| && sofar[n + 1..] == goal[n + 1..] && sofar[j] == goal[n]
    ensures Swapped(sofar, n, j)[n..] == goal[n..]
  {
    var swapped := Swapped(sofar, n, j);
    forall k | n <= k < |goal| ensures swapped[k] == goal[k] {
      if k > n {
        assert sofar[n + 1..][k - n - 1] == goal[n + 1..][k - n - 1];
      }
    }
    assert forall k | 0 <= k < |goal| - n :: swapped[n..][k] == goal[n..][k];
  }

  /** Every order of a word's letters can come out of the shuffle. */
  lemma EveryOrderComesUp(word: string, goal: string, seed: int, index: int) returns (picks: seq<nat>)
    requires word != "" && multiset(word) == multiset(goal)
    ensures Shuffled(Picking(picks), word, seed, index, 0) == goal
  {
    assert |word| == |multiset(word)| == |multiset(goal)| == |goal|;
    picks := ShuffleReaches(word, goal, seed, index, 0);
    ShufflePermutes(Picking(picks), word, seed, index, 0);
    RestDecidesFirst(Shuffled(Picking(picks), word, seed, index, 0), goal);
  }

  lemma RestDecidesFirst(a: string, b: string)
    requires 1 <= |a| == |b| && multiset(a) == multiset(b) && a[1..] == b[1..]
    ensures a == b
  {
    SameFront(a, b, 1);
    assert a[..1] == [a[0]] && b[..1] == [b[0]];
    assert a[0] in multiset(b[..1]);
    assert a == [a[0]] + a[1..] && b == [b[0]] + b[1..];
  }

  // ---------------------------------------------------------------------------- comparing by letters

  predicate SortedLetters(s: string) {
    forall i, j | 0 <= i < j < |s| :: s[i] <= s[j]
  }

  /** A letter put at its place in a sorted string. */
  function Inserted(c: char, s: string): (r: string)
    ensures r != ""
  {
    if s == "" || c <= s[0] then [c] + s else [s[0]] + Inserted(c, s[1..])
  }

  /** The letters of a word in order, as slices.Sort gives them. */
  function Sorted(word: string): string {
    if word == "" then "" else Inserted(word[0], Sorted(word[1..]))
  }

  lemma PutFirst(c: char, s: string)
    requires SortedLetters(s) && (s == "" || c <= s[0])
    ensures SortedLetters([c] + s)
  {
  }

  lemma TailSorted(s: string)
    requires SortedLetters(s) && s != ""
    ensures SortedLetters(s[1..]) && (|s| > 1 ==> s[0] <= s[1..][0])
    ensures multiset(s[1..]) == multiset(s) - multiset{s[0]}
  {
    assert s == [s[0]] + s[1..];
  }

  lemma {:induction false} InsertedLetters(c: char, s: string)
    ensures multiset(Inserted(c, s)) == multiset(s) + multiset{c}
  {
    if s != "" && c > s[0] {
      InsertedLetters(c, s[1..]);
      assert s == [s[0]] + s[1..];
    }
  }

  lemma {:induction false} InsertedSorts(c: char, s: string)
    requires SortedLetters(s)
    ensures SortedLetters(Inserted(c, s))
    ensures Inserted(c, s)[0] == if s == "" || c <= s[0] then c else s[0]
  {
    if s == "" || c <= s[0] {
      PutFirst(c, s);
    } else {
      TailSorted(s);
      InsertedSorts(c, s[1..]);
      PutFirst(s[0], Inserted(c, s[1..]));
    }
  }

  lemma {:induction false} SortedSorts(word: string)
    ensures SortedLetters(Sorted(word)) && multiset(Sorted(word)) == multiset(word)
  {
    if word != "" {
      SortedSorts(word[1..]);
      InsertedSorts(word[0], Sorted(word[1..]));
      InsertedLetters(word[0], Sorted(word[1..]));
      assert word == [word[0]] + word[1..];
    }
  }

  lemma FirstIsLeast(a: string, b: string)
    requires SortedLetters(a) && a != "" && b != "" && multiset(a) == multiset(b)
    ensures a[0] <= b[0]
  {
    assert b[0] in multiset(b);
    var i :| 0 <= i < |a| && a[i] == b[0];
  }

  lemma {:induction false} SortedUnique(a: string, b: string)
    requires SortedLetters(a) && SortedLetters(b) && multiset(a) == multiset(b)
    ensures a == b
  {
    assert |a| == |multiset(a)| == |multiset(b)| == |b|;
    if a != "" {
      FirstIsLeast(a, b);
      FirstIsLeast(b, a);
      TailSorted(a);
      TailSorted(b);
      SortedUnique(a[1..], b[1..]);
      assert a == [a[0]] + a[1..] && b == [b[0]] + b[1..];
    }
  }

  /** Two words have the same letters in order exactly when they have the same letters. */
  lemma AnagramsSortAlike(a: string, b: string)
    ensures Sorted(a) == Sorted(b) <==> multiset(a) == multiset(b)
  {
    SortedSorts(a);
    SortedSorts(b);
    if multiset(a) == multiset(b) {
      SortedUnique(Sorted(a), Sorted(b));
    }
  }

  // ----------------------------------------------------------------------------------------- moves

  /** The lower-case words of the list, none shorter than five letters. */
  predicate WordList(words: seq<string>) {
    words != [] && forall w | w in words :: |w| >= 5
  }

  function WordAt(derive: Derive, words: seq<string>, seed: int, index: int): string
    requires WordList(words)
  {
    words[DeriveIntn(derive, seed, "scramble-word", index, |words|)]
  }

  /** An answer trimmed and in lower case, a wish to skip, or something that cannot be decoded. */
  datatype Attempt = Answer(word: string) | Skip | Undecodable

  function Started(seed: int, now: int): State {
    State(seed, now + 60_000_000_000, 0, 0, 0)
  }

  function Move(derive: Derive, words: seq<string>, s: State, attempt: Attempt, now: int): Result<(State, Outcome), Error>
    requires WordList(words)
  {
    if now > s.deadline then Err(DeadlinePassed)
    else match attempt
      case Undecodable => Err(InvalidMove)
      case Skip => Ok((s.(skipped := s.skipped + 1, index := s.index + 1), Outcome(false, false, None)))
      case Answer(word) =>
        if word == "" then Err(InvalidMove)
        else if word !in words || Sorted(word) != Sorted(WordAt(derive, words, s.seed, s.index)) then
          Ok((s, Outcome(false, false, None)))
        else Ok((s.(solved := s.solved + 1, index := s.index + 1), Outcome(true, false, None)))
  }

  function Raw(s: State): int {
    s.solved
  }

  function Points(s: State): int {
    PointsOn(Raw(s) as real, 0.0, 15.0)
  }

  /** A move is taken exactly if it comes in time and is a wish to skip or an answer, right or wrong. */
  lemma MoveIsTaken(derive: Derive, words: seq<string>, s: State, attempt: Attempt, now: int)
    requires WordList(words)
    ensures Move(derive, words, s, attempt, now).Ok? <==>
            now <= s.deadline && (attempt.Skip? || (attempt.Answer? && |attempt.word| > 0))
    ensures Move(derive, words, s, attempt, now) == Err(DeadlinePassed) <==> now > s.deadline
    ensures Move(derive, words, s, attempt, now).Err? ==>
              Move(derive, words, s, attempt, now).error in {DeadlinePassed, InvalidMove}
  {
  }

  /** In time, an answer scores exactly when it is a listed word and an anagram of the word that was
      scrambled; only that or a skip moves on to the next word; and points never fall. */
  lemma MoveKeeps(derive: Derive, words: seq<string>, s: State, attempt: Attempt, now: int)
    requires WordList(words) && Move(derive, words, s, attempt, now).Ok?
    requires s.index == s.solved + s.skipped
    ensures var (t, outcome) := Move(derive, words, s, attempt, now).value;
            && t.index == t.solved + t.skipped && t.seed == s.seed && t.deadline == s.deadline
            && (outcome.correct <==>
                  attempt.Answer? && attempt.word in words
                  && multiset(attempt.word) == multiset(WordAt(derive, words, s.seed, s.index)))
            && t.solved == s.solved + (if outcome.correct then 1 else 0)
            && t.skipped == s.skipped + (if attempt.Skip? then 1 else 0)
            && Points(s) <= Points(t) && !outcome.done && outcome.holdUntil == None
  {
    var (t, outcome) := Move(derive, words, s, attempt, now).value;
    if attempt.Answer? {
      AnagramsSortAlike(attempt.word, WordAt(derive, words, s.seed, s.index));
    }
    PointsFollowRaw(Raw(s) as real, Raw(t) as real, 0.0, 15.0);
  }

  /** The state after moves made at certain instants, a rejected one changing nothing. */
  function Played(derive: Derive, words: seq<string>, s: State, moves: seq<(Attempt, int)>): State
    requires WordList(words)
  {
    if moves == [] then s
    else
      var n := |moves| - 1;
      var before := Played(derive, words, s, moves[..n]);
      var r := Move(derive, words, before, moves[n].0, moves[n].1);
      if r.Err? then before else r.value.0
  }

  /** An attempt that moves on from a word: a skip, or a listed word of the same letters. */
  predicate Passes(words: seq<string>, attempt: Attempt, word: string) {
    attempt.Skip? || (attempt.Answer? && attempt.word in words && multiset(attempt.word) == multiset(word))
  }

  /** The attempts within the minute that moved on, each from the next of the seeded words. */
  function Passed(derive: Derive, words: seq<string>, seed: int, start: int, moves: seq<(Attempt, int)>): seq<Attempt>
    requires WordList(words)
  {
    if moves == [] then []
    else
      var n := |moves| - 1;
      var before := Passed(derive, words, seed, start, moves[..n]);
      if moves[n].1 <= start + 60_000_000_000 && Passes(words, moves[n].0, WordAt(derive, words, seed, |before|))
      then before + [moves[n].0] else before
  }

  function Solutions(passed: seq<Attempt>): nat {
    if passed == [] then 0
    else Solutions(passed[..|passed| - 1]) + if passed[|passed| - 1].Skip? then 0 else 1
  }

  /** In every run the score is the number of words solved within the minute: the seeded words are gone
      through in order, each until it is skipped or a listed word of its letters is given. */
  lemma {:induction false} ScoreMatchesWords(derive: Derive, words: seq<string>, seed: int, start: int, moves: seq<(Attempt, int)>)
    requires WordList(words)
    ensures var s, passed := Played(derive, words, Started(seed, start), moves), Passed(derive, words, seed, start, moves);
            && s.seed == seed && s.deadline == start + 60_000_000_000
            && s.index == |passed| == s.solved + s.skipped
            && Raw(s) == s.solved == Solutions(passed)
  {
    if moves != [] {
      var n := |moves| - 1;
      ScoreMatchesWords(derive, words, seed, start, moves[..n]);
      var before := Played(derive, words, Started(seed, start), moves[..n]);
      var passed := Passed(derive, words, seed, start, moves[..n]);
      MovePasses(derive, words, before, moves[n].0, moves[n].1);
      assert (passed + [moves[n].0])[..|passed|] == passed;
    }
  }

  lemma MovePasses(derive: Derive, words: seq<string>, s: State, attempt: Attempt, now: int)
    requires WordList(words) && s.index == s.solved + s.skipped
    ensures var r := Move(derive, words, s, attempt, now);
            var t := if r.Err? then s else r.value.0;
            && t.seed == s.seed && t.deadline == s.deadline
            && t == if now <= s.deadline && Passes(words, attempt, WordAt(derive, words, s.seed, s.index)) then
                      (if attempt.Skip? then s.(skipped := s.skipped + 1, index := s.index + 1)
                       else s.(solved := s.solved + 1, index := s.index + 1))
                    else s
  {
    if attempt.Answer? {
      ListedAnagram(words, attempt.word, WordAt(derive, words, s.seed, s.index));
    }
  }

  lemma ListedAnagram(words: seq<string>, a: string, word: string)
    requires WordList(words)
    ensures a !in words || Sorted(a) != Sorted(word) <==> !(a in words && multiset(a) == multiset(word))
    ensures a in words ==> a != ""
  {
    AnagramsSortAlike(a, word);
    if a in words {
      assert |a| >= 5;
    }
  }

  /** No word begins with the same letter twice. */
  predicate NoDoubledStart(words: seq<string>) {
    forall w | w in words :: |w| < 2 || w[0] != w[1]
  }

  /** From such a list no word is ever given away, whatever the seed. */
  lemma NeverGivenAway(derive: Derive, words: seq<string>, seed: int, index: int)
    requires WordList(words) && NoDoubledStart(words)
    ensures Scrambled(derive, WordAt(derive, words, seed, index), seed, index) != WordAt(derive, words, seed, index)
  {
    ScrambleHidesWord(derive, WordAt(derive, words, seed, index), seed, index);
  }

  /** The hash that leaves every letter at its place. */
  function Staying(): Derive {
    (seed, name, index) => if index < 0 then 0 else index
  }

  lemma StayingDraws(seed: int, name: string, i: int, n: int)
    requires 0 <= i < n
    ensures DeriveIntn(Staying(), seed, name, i, n) == i
  {
    assert Staying()(seed, name, i) == i;
    SmallRemainder(i, n);
  }

  lemma SwapSame(letters: string, i: nat)
    requires i < |letters|
    ensures Swapped(letters, i, i) == letters
  {
  }

  lemma {:induction false} NothingMoves(word: string, seed: int, index: int, i: nat)
    requires i < |word|
    ensures Shuffled(Staying(), word, seed, index, i) == word
    decreases |word| - i
  {
    if i < |word| - 1 {
      NothingMoves(word, seed, index, i + 1);
      StayingDraws(seed, "scramble:" + FormatInt(index), i + 1, i + 2);
      SwapSame(word, i + 1);
    }
  }

  /** From any other list one is, for some hash: the word itself, as it stands. */
  lemma DoubledStartGivenAway(words: seq<string>, seed: int, index: nat)
    requires WordList(words) && index < |words| && |words[index]| >= 2 && words[index][0] == words[index][1]
    ensures WordAt(Staying(), words, seed, index) == words[index]
    ensures Scrambled(Staying(), words[index], seed, index) == words[index]
  {
    StayingDraws(seed, "scramble-word", index, |words|);
    NothingMoves(words[index], seed, index, 0);
    SwapDoubled(words[index]);
  }

  lemma SwapDoubled(word: string)
    requires |word| >= 2 && word[0] == word[1]
    ensures Swapped(word, 0, 1) == word
  {
  }

  /** What a player is shown can always be solved: the word it was made from is an accepted answer. */
  lemma ScrambleIsSolvable(derive: Derive, words: seq<string>, s: State, now: int)
    requires WordList(words) && now <= s.deadline && s.index == s.solved + s.skipped
    ensures var word := WordAt(derive, words, s.seed, s.index);
            && multiset(Scrambled(derive, word, s.seed, s.index)) == multiset(word)
            && Move(derive, words, s, Answer(word), now).Ok?
            && Move(derive, words, s, Answer(word), now).value.1.correct
  {
    ScrambleHidesWord(derive, WordAt(derive, words, s.seed, s.index), s.seed, s.index);
  }

  lemma StartsAtNothing(seed: int, now: int)
    ensures Points(Started(seed, now)) == 0
  {
    PointsFollowRaw(0.0, 0.0, 0.0, 15.0);
  }
}
