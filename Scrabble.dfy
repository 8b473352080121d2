/** The game: letter values and the score of a word, the dictionary lookup,
    dealing a hand, and the loop that plays one hand. The dictionary is a
    sequence of words; the keyboard is a sequence of tokens; the random draws
    are reals in [0, 1). */
module Scrabble {
  import opened Outcomes
  import opened MyString

  /** The Scrabble value of 'a', 'b', ..., 'z'. */
  const SCRABBLE_LETTER_VALUES: seq<int> :=
    [1, 3, 3, 2, 1, 4, 2, 4, 1, 8, 5, 1, 3, 1, 1, 3, 10, 1, 1, 1, 1, 4, 4, 8, 4, 10]

  /** Number of letters dealt in a hand. */
  const HAND_SIZE: int := 10

  /** Bonus for a word as long as a full hand. */
  const FULL_HAND_BONUS: int := 50

  /** A word whose letters include those of this token earns BONUS. */
  const BONUS_TOKEN: string := "runi"
  const BONUS: int := 1000

  // ---------------------------------------------------------------------------
  // wordScore
  // ---------------------------------------------------------------------------

  function LetterValue(c: char): (v: int)
    requires IsLowerLetter(c)
    ensures 1 <= v <= 10
  {
    SCRABBLE_LETTER_VALUES[c as int - 97]
  }

  /** The sum of the letter values of a word. */
  function LetterSum(w: string): int
    requires AllLowerLetters(w)
  {
    if w == [] then 0 else LetterSum(w[..|w| - 1]) + LetterValue(w[|w| - 1])
  }

  /** The two bonuses; both can apply to the same word. */
  function Bonuses(w: string): int {
    (if |w| == HAND_SIZE then FULL_HAND_BONUS else 0)
    + (if Subset(BONUS_TOKEN, w) then BONUS else 0)
  }

  /** The score of a word: its length times the sum of its letter values,
      plus the bonuses. */
  function Score(w: string): int
    requires AllLowerLetters(w)
  {
    |w| * LetterSum(w) + Bonuses(w)
  }

  /** What wordScore does: a character outside 'a'..'z' indexes the value
      table out of bounds. */
  function ScoreResult(w: string): Result<int> {
    if AllLowerLetters(w) then Returned(Score(w)) else Threw(ArrayIndexOutOfBounds)
  }

  /** wordScore: the bonuses first, then each letter's value times the length
      of the word. */
  method WordScore(word: string) returns (r: Result<int>)
    ensures r == ScoreResult(word)
  {
    var sum := 0;
    if |word| == HAND_SIZE {
      sum := sum + FULL_HAND_BONUS;
    }
    var bonus := SubsetOf(BONUS_TOKEN, word);
    if bonus {
      sum := sum + BONUS;
    }
    var i := 0;
    while i < |word|
      invariant 0 <= i <= |word|
      invariant AllLowerLetters(word[..i])
      invariant sum == Bonuses(word) + |word| * LetterSum(word[..i])
    {
      var index := word[i] as int - 97;
      if !(0 <= index < |SCRABBLE_LETTER_VALUES|) {
        return Threw(ArrayIndexOutOfBounds);
      }
      ghost var prefix := word[..i + 1];
      assert prefix[..i] == word[..i];
      assert LetterSum(prefix) == LetterSum(word[..i]) + SCRABBLE_LETTER_VALUES[index];
      Distribute(|word|, LetterSum(word[..i]), SCRABBLE_LETTER_VALUES[index]);
      sum := sum + SCRABBLE_LETTER_VALUES[index] * |word|;
      i := i + 1;
    }
    assert word[..i] == word;
    return Returned(sum);
  }

  /** Every letter is worth between 1 and 10 points. */
  lemma {:induction false} LetterSumBounds(w: string)
    requires AllLowerLetters(w)
    ensures |w| <= LetterSum(w) <= 10 * |w|
  {
    if w != [] {
      LetterSumBounds(w[..|w| - 1]);
    }
  }

  /** A word that fits in a hand scores at most 2050, far inside Java's int. */
  lemma ScoreOfHandWordFits(w: string)
    requires AllLowerLetters(w) && |w| <= HAND_SIZE
    ensures |w| * |w| <= Score(w) <= 2050
  {
    LetterSumBounds(w);
    var n, s := |w|, LetterSum(w);
    assert n * n <= n * s <= n * (10 * n) by {
      MultiplyMonotone(n, n, s);
      MultiplyMonotone(n, s, 10 * n);
    }
    assert n * (10 * n) <= 1000 by {
      MultiplyMonotone(n, n, 10);
      MultiplyMonotone(10, n, 10);
    }
  }

  lemma Distribute(a: int, b: int, c: int)
    ensures a * (b + c) == a * b + c * a
  {
  }

  lemma MultiplyMonotone(a: nat, b: int, c: int)
    requires b <= c
    ensures a * b <= a * c
  {
  }

  /** Adding a letter to a word that is not a full hand long never lowers its
      score. (The full-hand bonus can be lost: "aaaaaaaaaa" scores 150 and
      "aaaaaaaaaaa" 121.) */
  lemma ScoreGrowsWithWord(w: string, c: char)
    requires AllLowerLetters(w + [c]) && |w| != HAND_SIZE
    ensures AllLowerLetters(w) && Score(w) <= Score(w + [c])
  {
    var w' := w + [c];
    assert w'[..|w'| - 1] == w && w'[|w|] == c;
    assert AllLowerLetters(w);
    var n, s := |w|, LetterSum(w);
    assert LetterSum(w') == s + LetterValue(c);
    LetterSumBounds(w);
    assert (n + 1) * (s + LetterValue(c)) >= n * s by {
      MultiplyMonotone(n + 1, s, s + LetterValue(c));
      MultiplyMonotone(s, n, n + 1);
    }
    if Subset(BONUS_TOKEN, w) {
      forall i | 0 <= i < |BONUS_TOKEN|
        ensures BONUS_TOKEN[i] in w'
      {
        assert BONUS_TOKEN[i] in w;
      }
    }
  }

  /** The test printer's words, with their scores. */
  lemma ScoreExamples()
    ensures ScoreResult("cat") == Returned(15)
    ensures ScoreResult("dog") == Returned(15)
    ensures ScoreResult("quiz") == Returned(88)
    ensures ScoreResult("friendship") == Returned(240)
    ensures ScoreResult("running") == Returned(1056)
    ensures ScoreResult("") == Returned(0)
    ensures ScoreResult("a") == Returned(1)
  {
    ScoreOfCat();
    ScoreOfDog();
    ScoreOfQuiz();
    ScoreOfFriendship();
    ScoreOfRunning();
    assert "a"[..0] == "";
  }

  // One lemma per word of the test printer, to keep each proof small.
  lemma ScoreOfCat()
    ensures ScoreResult("cat") == Returned(15)
  {
    assert AllLowerLetters("cat");
    assert BONUS_TOKEN[0] == 'r' && 'r' !in "cat";
    assert LetterSum("c") == 3 by { assert "c"[..0] == ""; }
    assert LetterSum("ca") == 4 by { assert "ca"[..1] == "c"; }
    assert LetterSum("cat") == 5 by { assert "cat"[..2] == "ca"; }
  }

  lemma ScoreOfDog()
    ensures ScoreResult("dog") == Returned(15)
  {
    assert AllLowerLetters("dog");
    assert BONUS_TOKEN[0] == 'r' && 'r' !in "dog";
    assert LetterSum("d") == 2 by { assert "d"[..0] == ""; }
    assert LetterSum("do") == 3 by { assert "do"[..1] == "d"; }
    assert LetterSum("dog") == 5 by { assert "dog"[..2] == "do"; }
  }

  lemma ScoreOfQuiz()
    ensures ScoreResult("quiz") == Returned(88)
  {
    assert AllLowerLetters("quiz");
    assert BONUS_TOKEN[0] == 'r' && 'r' !in "quiz";
    assert LetterSum("q") == 10 by { assert "q"[..0] == ""; }
    assert LetterSum("qu") == 11 by { assert "qu"[..1] == "q"; }
    assert LetterSum("qui") == 12 by { assert "qui"[..2] == "qu"; }
    assert LetterSum("quiz") == 22 by { assert "quiz"[..3] == "qui"; }
  }

  lemma ScoreOfFriendship()
    ensures ScoreResult("friendship") == Returned(240)
  {
    var friendship := "friendship";
    assert friendship == ['f', 'r', 'i', 'e', 'n', 'd', 's', 'h', 'i', 'p'];
    assert AllLowerLetters(friendship);
    assert BONUS_TOKEN[1] == 'u' && 'u' !in friendship;
    LetterSumOfFriendship();
  }

  lemma LetterSumOfFriendship()
    ensures LetterSum("friendship") == 19
  {
    LetterSumOfFrien();
    assert LetterSum("friend") == 10 by { assert "friend"[..5] == "frien"; }
    assert LetterSum("friends") == 11 by { assert "friends"[..6] == "friend"; }
    assert LetterSum("friendsh") == 15 by { assert "friendsh"[..7] == "friends"; }
    assert LetterSum("friendshi") == 16 by { assert "friendshi"[..8] == "friendsh"; }
    assert LetterSum("friendship") == 19 by { assert "friendship"[..9] == "friendshi"; }
  }

  lemma LetterSumOfFrien()
    ensures LetterSum("frien") == 8
  {
    assert LetterSum("f") == 4 by { assert "f"[..0] == ""; }
    assert LetterSum("fr") == 5 by { assert "fr"[..1] == "f"; }
    assert LetterSum("fri") == 6 by { assert "fri"[..2] == "fr"; }
    assert LetterSum("frie") == 7 by { assert "frie"[..3] == "fri"; }
    assert LetterSum("frien") == 8 by { assert "frien"[..4] == "frie"; }
  }

  lemma ScoreOfRunning()
    ensures ScoreResult("running") == Returned(1056)
  {
    var running := "running";
    assert running == ['r', 'u', 'n', 'n', 'i', 'n', 'g'];
    assert AllLowerLetters(running);
    assert running[0] == 'r' && running[1] == 'u' && running[2] == 'n' && running[4] == 'i';
    assert Subset(BONUS_TOKEN, running);
    LetterSumOfRunning();
  }

  lemma LetterSumOfRunning()
    ensures LetterSum("running") == 8
  {
    assert LetterSum("r") == 1 by { assert "r"[..0] == ""; }
    assert LetterSum("ru") == 2 by { assert "ru"[..1] == "r"; }
    assert LetterSum("run") == 3 by { assert "run"[..2] == "ru"; }
    assert LetterSum("runn") == 4 by { assert "runn"[..3] == "run"; }
    assert LetterSum("runni") == 5 by { assert "runni"[..4] == "runn"; }
    assert LetterSum("runnin") == 6 by { assert "runnin"[..5] == "runni"; }
    assert LetterSum("running") == 8 by { assert "running"[..6] == "runnin"; }
  }

  // ---------------------------------------------------------------------------
  // isWordInDictionary
  // ---------------------------------------------------------------------------

  /** isWordInDictionary: linear search of the dictionary. */
  method IsWordInDictionary(word: string, dictionary: seq<string>) returns (found: bool)
    ensures found <==> word in dictionary
  {
    found := Contains(dictionary, word);
  }

  // ---------------------------------------------------------------------------
  // createHand
  // ---------------------------------------------------------------------------

  /** createHand: HAND_SIZE - 2 random letters, then 'e' and then 'a' inserted
      at random positions. */
  method CreateHand(letterDraws: seq<real>, ePosition: real, aPosition: real) returns (hand: string)
    requires HAND_SIZE - 2 <= |letterDraws| && AreDraws(letterDraws)
    requires 0.0 <= ePosition < 1.0 && 0.0 <= aPosition < 1.0
    ensures |hand| == HAND_SIZE && AllLowerLetters(hand)
    ensures 'a' in hand && 'e' in hand
    ensures multiset(hand) == multiset(LettersOf(letterDraws[..HAND_SIZE - 2])) + multiset{'e', 'a'}
  {
    hand := RandomStringOfLetters(HAND_SIZE - 2, letterDraws);
    ghost var letters := hand;
    hand := InsertRandomly('e', hand, ePosition);
    hand := InsertRandomly('a', hand, aPosition);
    assert 'a' in multiset(hand) && 'e' in multiset(hand);
    assert AllLowerLetters(hand) by {
      forall i | 0 <= i < |hand|
        ensures IsLowerLetter(hand[i])
      {
        assert hand[i] in multiset(hand);
        if hand[i] !in multiset{'e', 'a'} {
          assert hand[i] in multiset(letters);
        }
      }
    }
  }

  // ---------------------------------------------------------------------------
  // playHand
  // ---------------------------------------------------------------------------

  /** The variables of the playHand loop: the current hand and the total. */
  datatype HandState = HandState(hand: string, sum: int)

  /** What one turn of the loop leads to. */
  datatype Turn =
    | Stop                       // the player typed "."
    | Continue(next: HandState)  // the loop goes on (with the same state if the word was refused)
    | Crash(exception: Exception)

  /** One turn of playHand for the token `input`. */
  function PlayTurn(s: HandState, input: string, dictionary: seq<string>): Turn {
    if input == "." then Stop
    else if !Subset(input, s.hand) || input !in dictionary then Continue(s)
    else
      match ScoreResult(input)
      case Threw(e) => Crash(e)
      case Returned(score) =>
        match RemoveResult(input, s.hand)
        case Threw(e) => Crash(e)
        case Returned(rest) => Continue(HandState(rest, s.sum + score))
  }

  /** How playHand ends. */
  datatype Ending =
    | RanOutOfLetters(total: int)          // the hand became empty
    | EndOfHand(hand: string, total: int)  // the player stopped
    | Aborted(exception: Exception)

  /** The whole playHand loop from state `s` on the tokens `inputs`. */
  function Play(s: HandState, inputs: seq<string>, dictionary: seq<string>): Ending
    decreases |inputs|
  {
    if |s.hand| == 0 then RanOutOfLetters(s.sum)
    else if inputs == [] then Aborted(InputExhausted)
    else
      match PlayTurn(s, inputs[0], dictionary)
      case Stop => EndOfHand(s.hand, s.sum)
      case Crash(e) => Aborted(e)
      case Continue(t) => Play(t, inputs[1..], dictionary)
  }

  /** playHand, started with a total of 0. */
  method PlayHand(hand: string, inputs: seq<string>, dictionary: seq<string>) returns (ending: Ending)
    ensures ending == Play(HandState(hand, 0), inputs, dictionary)
  {
    var current := hand;
    var sum := 0;
    var i := 0;
    while |current| > 0
      invariant 0 <= i <= |inputs|
      invariant Play(HandState(current, sum), inputs[i..], dictionary) == Play(HandState(hand, 0), inputs, dictionary)
      decreases |inputs| - i
    {
      if i == |inputs| {
        return Aborted(InputExhausted);
      }
      var input := inputs[i];
      assert inputs[i..][1..] == inputs[i + 1..];
      i := i + 1;
      if input == "." {
        break;
      }
      var available := SubsetOf(input, current);
      if available {
        var known := IsWordInDictionary(input, dictionary);
        if known {
          var score := WordScore(input);
          if score.Threw? {
            return Aborted(score.exception);
          }
          sum := sum + score.value;
          var rest := Remove(input, current);
          if rest.Threw? {
            return Aborted(rest.exception);
          }
          current := rest.value;
        }
      }
    }
    if |current| == 0 {
      return RanOutOfLetters(sum);
    } else {
      return EndOfHand(current, sum);
    }
  }

  /** A word typed from a lowercase hand is itself lowercase. */
  lemma SubsetOfLowerIsLower(word: string, hand: string)
    requires AllLowerLetters(hand) && Subset(word, hand)
    ensures AllLowerLetters(word)
  {
    forall i | 0 <= i < |word|
      ensures IsLowerLetter(word[i])
    {
      assert word[i] in hand;
    }
  }

  /** Everything a turn can do: "." stops; a word that fails the letter test
      or the dictionary changes nothing; an accepted word with a character
      outside 'a'..'z' (possible once the hand is the sentinel "-1") makes
      wordScore throw; an accepted lowercase word adds its score, and then the
      hand becomes the sentinel when the word is empty or uses the whole hand,
      loses exactly the word's letters when the hand holds them with their
      multiplicities, and otherwise remove throws. From a lowercase hand every
      accepted word is lowercase. */
  lemma PlayTurnCases(s: HandState, input: string, dictionary: seq<string>)
    ensures PlayTurn(s, input, dictionary) == Stop <==> input == "."
    ensures input != "." && !(Subset(input, s.hand) && input in dictionary) ==>
      PlayTurn(s, input, dictionary) == Continue(s)
    ensures input != "." && Subset(input, s.hand) && input in dictionary && !AllLowerLetters(input) ==>
      PlayTurn(s, input, dictionary) == Crash(ArrayIndexOutOfBounds)
    ensures input != "." && Subset(input, s.hand) && input in dictionary && AllLowerLetters(input) ==>
      var turn := PlayTurn(s, input, dictionary);
      if input == [] || |input| == |s.hand| then
        turn == Continue(HandState(SENTINEL, s.sum + Score(input)))
      else if multiset(input) <= multiset(s.hand) then
        turn.Continue? && turn.next.sum == s.sum + Score(input) &&
        |turn.next.hand| == |s.hand| - |input| &&
        multiset(turn.next.hand) == multiset(s.hand) - multiset(input)
      else
        turn == Crash(StringIndexOutOfBounds)
    ensures AllLowerLetters(s.hand) && Subset(input, s.hand) ==> AllLowerLetters(input)
  {
    if Subset(input, s.hand) {
      if AllLowerLetters(s.hand) {
        SubsetOfLowerIsLower(input, s.hand);
      }
      RemoveOutcomes(input, s.hand);
    }
  }

  /** After a whole-hand word the hand is "-1"; a dictionary word made of its
      characters passes the letter test and then makes wordScore throw. */
  lemma SentinelHandCrashes()
    ensures PlayTurn(HandState(SENTINEL, 15), "-1", ["-1"]) == Crash(ArrayIndexOutOfBounds)
  {
    var minusOne := "-1";
    assert !IsLowerLetter(minusOne[0]);
    assert Subset(minusOne, SENTINEL);
  }

  /** playHand("") of the test printer: the loop does not run and the hand has
      run out of letters with a total of 0, whatever the inputs. */
  lemma EmptyHandRunsOut(inputs: seq<string>, dictionary: seq<string>)
    ensures Play(HandState("", 0), inputs, dictionary) == RanOutOfLetters(0)
  {
  }

  /** The total of a hand only grows: every score is non-negative. */
  lemma {:induction false} PlayTotalNeverDecreases(s: HandState, inputs: seq<string>, dictionary: seq<string>)
    ensures Play(s, inputs, dictionary).Aborted? || Play(s, inputs, dictionary).total >= s.sum
    decreases |inputs|
  {
    if |s.hand| > 0 && inputs != [] {
      var input := inputs[0];
      var turn := PlayTurn(s, input, dictionary);
      if turn.Continue? {
        if turn.next != s {
          assert AllLowerLetters(input);
          LetterSumBounds(input);
          assert Score(input) >= 0;
        }
        PlayTotalNeverDecreases(turn.next, inputs[1..], dictionary);
      }
    }
  }

  /** remove never empties a hand: a word as long as the hand leaves the
      sentinel and a shorter one leaves at least one letter. So a hand that
      starts non-empty never ends "out of letters"; only an empty starting hand
      does. */
  lemma {:induction false} NeverRunsOutOfLetters(s: HandState, inputs: seq<string>, dictionary: seq<string>)
    requires |s.hand| > 0
    ensures !Play(s, inputs, dictionary).RanOutOfLetters?
    decreases |inputs|
  {
    if inputs != [] {
      var turn := PlayTurn(s, inputs[0], dictionary);
      if turn.Continue? {
        DeleteEachMultiset(inputs[0], s.hand);
        NeverRunsOutOfLetters(turn.next, inputs[1..], dictionary);
      }
    }
  }

  /** The multiset/set gap reaches the game: "aa" passes the letter test on
      the hand "abc", and remove then throws. */
  lemma RepeatedLetterCrashes()
    ensures PlayTurn(HandState("abc", 0), "aa", ["aa"]) == Crash(StringIndexOutOfBounds)
  {
    var abc := "abc";
    assert abc == ['a', 'b', 'c'];
    assert AllLowerLetters(abc);
    assert !(multiset("aa") <= multiset(abc)) by {
      assert multiset("aa")['a'] == 2 by {
        assert "aa" == ['a'] + ['a'];
      }
      assert multiset(abc)['a'] == 1 by {
        assert multiset(abc) == multiset{'a', 'b', 'c'};
      }
    }
    assert Subset("aa", abc) by {
      assert abc[0] == 'a';
    }
    PlayTurnCases(HandState(abc, 0), "aa", ["aa"]);
  }

  /** Playing a word that uses every letter of the hand leaves the sentinel
      "-1" as the hand, which is not empty, so the loop does not end. */
  lemma WholeHandWordLeavesSentinel()
    ensures PlayTurn(HandState("tac", 0), "cat", ["cat"]) == Continue(HandState(SENTINEL, 15))
  {
    var tac := "tac";
    assert tac == ['t', 'a', 'c'];
    assert Subset("cat", tac) by {
      assert tac[2] == 'c' && tac[1] == 'a' && tac[0] == 't';
    }
    ScoreExamples();
    PlayTurnCases(HandState(tac, 0), "cat", ["cat"]);
  }
}
