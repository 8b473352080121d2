# Scrabble word game: string library and scoring

A model of the deterministic core of a classroom Scrabble game written in
Java: the string library `MyString` (counting letters, membership, the
"subset" test between a word and a hand, removing a word's letters from a
hand, spacing a hand for display, the random helpers) and the game class
`Scrabble` (letter values and the score of a word, the dictionary lookup,
dealing a hand, and the loop that plays one hand).

`Scrabble.java` repeats `subsetOf`, `remove`, `spacedString`, `isThere`,
`insertRandomly` and `randomStringOfLetters` statement for statement from
`MyString.java` (lines 208-299; only `remove`'s parameter names differ). The
model defines each of them once, in module `MyString`, and module `Scrabble`
imports it.

Files:

- `Outcomes.dfy`: module `Outcomes`, how a Java call ends: `Returned(value)`
  or `Threw(exception)`, for the exceptions the code can raise.
- `MyString.dfy`: module `MyString`. Each loop of the Java code is a
  `method` with loop invariants, proved against a specification function
  (`Subset`, `DeleteEach`/`RemoveResult`, `LettersOf`, `multiset`), and the
  properties of those functions are lemmas.
- `Scrabble.dfy`: module `Scrabble`. `WordScore` is proved against `Score`;
  `PlayHand` runs the `playHand` loop over a finite sequence of input tokens
  and is proved against `Play`, which is built from `PlayTurn`, one turn of
  the loop over the state `(hand, sum)`.

Modelling choices:

- A Java `String` is a `string` (`seq<char>`). `str == ""`, which in Java
  compares references, is modelled as an emptiness test.
- Exceptions are values: `substring(0, -1)` after a failed `indexOf` is
  `Threw(StringIndexOutOfBounds)`; indexing the letter-value table with a
  character outside `'a'..'z'` is `Threw(ArrayIndexOutOfBounds)`; reading a
  token after the input has ended is `Aborted(InputExhausted)`.
- Each `Math.random()` draw is a parameter: a `real` in `[0, 1)`. The cast
  `(int) (u * m)` is `RandomIndex(u, m)`, the floor of `u * m`.
- The dictionary is a `seq<string>`; the keyboard is a `seq<string>` of tokens.

Where the code and its comments disagree, the model follows the code:

- `subsetOf` tests sets of characters, not multisets: once the word is no
  longer than the pool, it is accepted when each of its characters occurs
  somewhere in the pool. `subsetOf("pass", "space")` is therefore true,
  although the comment at MyString.java:45 says false
  (`SubsetOfDocExamples`). Every multiset-contained word is accepted
  (`MultisetContainedIsSubset`), and the contiguous-substring shortcut never
  changes the answer (`SubstringShortcutAgrees`).
- The same set test gives the "runi" bonus, so "running" earns it
  (`ScoreOfRunning`). The full-hand bonus compares the word's length with
  `HAND_SIZE`, not with the length of the current hand as the comment at
  Scrabble.java:64 says.
- `spacedString` puts a space after the last character too; the comment at
  MyString.java:92-95 says it does not (`SpacedString`).
- `remove` returns `"-1"` when the word is as long as the hand, so playing
  every letter of the hand leaves the hand `"-1"`: it is not empty and the
  loop goes on (`WholeHandWordLeavesSentinel`). A shorter word leaves at
  least one letter, so a hand that starts non-empty never runs out of letters
  and the "Ran out of letters" ending is reached only from an empty starting
  hand (`NeverRunsOutOfLetters`).
- `remove` throws when a letter is missing at its turn. Because the letter
  test lets "aa" through on the hand "abc", a turn of `playHand` can crash
  (`RepeatedLetterCrashes`). From the hand `"-1"` a dictionary word made of
  '-' and '1' passes the letter test and makes `wordScore` throw
  (`SentinelHandCrashes`). `PlayTurnCases` says exactly when a turn crashes,
  for every hand.

## Model

| member | source | states |
|---|---|---|
| `MyString.Contains` | MyString.java:175-182 | the linear search shared by isThere and isWordInDictionary is true exactly when `x` is an element of the sequence |
| `MyString.IsThere` | MyString.java:175-182 | the result is true exactly when `x` occurs in `str` |
| `MyString.CountChar` | MyString.java:23-39 | -1 for the empty string; otherwise the number of positions holding `ch` (its multiplicity in the string, case-sensitive), never more than the length |
| `MyString.CountCharExamples` | MyString.java:5-17 | countChar answers 2 for ('Center', 'e') and 0 for ('Center', 'c') as documented, and 1, 2, 0 for ("hello", 'h'), 'l', 'z' as the test printer asks |
| `MyString.SubsetOf` | MyString.java:52-90 | the answer, shortcut and early exits included, is `Subset`: the word is empty, or it is no longer than the pool and each of its characters occurs in the pool |
| `MyString.SubstringShortcutAgrees` | Scrabble.java:219-230 | when the word is the slice of the pool at some offset, the general test accepts it too, so the shortcut only returns true where the fallback would |
| `MyString.MultisetContainedIsSubset` | MyString.java:41-51 | every word whose letters the pool holds with their multiplicities is accepted by subsetOf |
| `MyString.SubsetOfDocExamples` | MyString.java:41-46 | "sap", "spa", "c" are accepted in "space" as documented; "pass" is accepted too, against the comment, though it is not multiset-contained in "space" |
| `MyString.SpacedString` | MyString.java:92-109 | the sentinel "-1" for the empty string; otherwise twice the length, character `i` at position `2i`, a space at `2i+1`, so the last character is a space |
| `MyString.RandomIndex` | MyString.java:168-170 | `(int) (u * bound)` for a draw `u` in [0, 1) is an index in [0, bound) |
| `MyString.LetterOf` | MyString.java:123-125 | `(char) ((int) (u * 26) + 97)` is a lowercase letter |
| `MyString.RandomStringOfLetters` | MyString.java:111-128 | `max(n, 0)` characters, the `i`-th the letter picked by draw `i`, all lowercase |
| `MyString.InsertRandomly` | MyString.java:160-174 | one character longer; `ch` at the drawn index with the prefix before and the suffix after it preserved; the multiset gains exactly `ch` |
| `MyString.IndexOf` | MyString.java:144 | Java's indexOf: -1 exactly when the character is absent, otherwise the first position holding it |
| `MyString.Remove` | MyString.java:139-158 | the three branches together compute `RemoveResult`: the sentinel when the word is empty or not shorter than the hand, otherwise the first occurrence of each letter deleted in order, or a StringIndexOutOfBounds exception |
| `MyString.DeleteEachMultiset` | MyString.java:143-157 | the removal loop completes exactly when the hand holds the word's letters with their multiplicities, and then the result is the hand's multiset minus the word's, of length the difference of the lengths |
| `MyString.RemoveOutcomes` | Scrabble.java:247-266 | all outcomes of remove: the sentinel on empty or too-long words; for shorter non-empty words an exception exactly when multiset containment fails, otherwise exactly the word's letters taken out |
| `MyString.RemoveDocExamples` | MyString.java:130-133 | remove("meet", "committee") is "comit" and remove("dont", "dont") is "-1" |
| `Scrabble.LetterValue` | Scrabble.java:18-21 | each letter's value from the 26-entry table lies between 1 and 10 |
| `Scrabble.WordScore` | Scrabble.java:63-78 | the loop's total is `ScoreResult`: length times the sum of letter values, plus 50 for a word of HAND_SIZE letters, plus 1000 when "runi" passes subsetOf; an ArrayIndexOutOfBounds exception for a character outside 'a'..'z' |
| `Scrabble.LetterSumBounds` | Scrabble.java:20-21 | the sum of a word's letter values lies between its length and ten times its length |
| `Scrabble.ScoreOfHandWordFits` | Scrabble.java:66-78 | a lowercase word of at most HAND_SIZE letters scores between its length squared and 2050, within Java's int |
| `Scrabble.ScoreGrowsWithWord` | Scrabble.java:66-78 | appending a letter to a word that is not HAND_SIZE long never lowers its score |
| `Scrabble.ScoreExamples` | Scrabble.java:187-195 | the test printer's words score cat 15, dog 15, quiz 88, friendship 240 (full-hand bonus), running 1056 (runi bonus), the empty word 0, a 1 |
| `Scrabble.IsWordInDictionary` | Scrabble.java:52-61 | true exactly when some dictionary entry equals the word |
| `Scrabble.CreateHand` | Scrabble.java:80-88 | a lowercase hand of HAND_SIZE letters holding 'a' and 'e', whose multiset is the drawn letters plus 'e' and 'a' |
| `Scrabble.PlayHand` | Scrabble.java:94-138 | the loop's ending is `Play` from the given hand and total 0: out of letters with the total, stopped by "." with hand and total, or aborted by an exception |
| `Scrabble.PlayTurnCases` | Scrabble.java:107-127 | one turn from any hand: "." and only "." stops; a word failing the letter test or the dictionary changes nothing; an accepted word with a non-letter crashes in wordScore; an accepted lowercase word adds its score and leaves the sentinel (empty or whole-hand word), the hand minus its letters (multiset-contained word), or crashes in remove; from a lowercase hand accepted words are lowercase |
| `Scrabble.PlayTotalNeverDecreases` | Scrabble.java:101-137 | whatever the inputs, a hand that ends normally ends with a total at least the starting total |
| `Scrabble.NeverRunsOutOfLetters` | Scrabble.java:101-134 | from a non-empty hand, whatever the inputs and the dictionary, the loop never ends with an empty hand |
| `Scrabble.SentinelHandCrashes` | Scrabble.java:113-115 | on the hand "-1", the dictionary word "-1" passes the letter test and wordScore throws ArrayIndexOutOfBounds |
| `Scrabble.EmptyHandRunsOut` | Scrabble.java:202-204 | playHand("") ends at once out of letters with a total of 0, whatever the inputs |
| `Scrabble.RepeatedLetterCrashes` | Scrabble.java:113-117 | the word "aa", in the dictionary, on the hand "abc" passes the letter test and then makes remove throw |
| `Scrabble.WholeHandWordLeavesSentinel` | Scrabble.java:113-117 | playing "cat" on the hand "tac" scores 15 and leaves the hand "-1" rather than empty |

## Left out

- `init`, the `DICTIONARY` array with its fixed capacity `MAX_NUMBER_OF_WORDS`
  and its null tail, and `NUM_OF_WORDS`: the dictionary file is not read; the
  dictionary is a sequence of words given to `IsWordInDictionary`.
- All console output, including the message at Scrabble.java:118, which
  prints the word's score where the running total was meant; the model's
  `Play` returns the total instead.
- Keyboard reading in `playHand` and `playGame`: the input tokens are a
  sequence; what the input library does at the end of its stream is not part
  of this model, and the model aborts with `InputExhausted` there.
- `playGame`: the menu loop only reads "n" or "e" and calls `createHand` and
  `playHand`, which are modelled. `main` and the `test*` printers are left
  out; what they ask is stated by `ScoreExamples`, `CountCharExamples`,
  `RemoveDocExamples`, `SubsetOfDocExamples` (which includes
  `subsetOf("no", "dont")`) and `EmptyHandRunsOut`. The dictionary test
  `isWordInDictionary("mango")` depends on the dictionary file, which is not
  part of this model.
- `Math.random()`: its draws are parameters; they are exact reals, so the
  rounding of the source's double multiplication is not modelled.
- Java reference equality on strings (`str == ""` in `countChar`,
  `spacedString` and `remove`): modelled as an emptiness test. For an empty
  string that is not the literal `""`, Java would skip the early return.
- `WordScore`: integers are unbounded, so Java's 32-bit wrap-around of the
  score (for words of thousands of letters) and of the running total is not
  modelled; `ScoreOfHandWordFits` shows that a word that fits in a hand is far
  from it.
- Java `char` is a UTF-16 code unit; the model's `char` is a Unicode scalar
  value. The two agree on the letters the game uses.
- `HAND_SIZE` is a non-final static field in Java; nothing assigns it, so it
  is a constant here.
- The unused variables `n` and `score`'s first value in `playHand`, and the
  never-false flag `x` in `subsetOf`, whose final test always answers true.
