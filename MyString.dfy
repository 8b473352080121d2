/** The string library of the game: counting, membership, the "subset" test,
    removal of letters from a hand, spacing for display and the random helpers.
    Randomness is passed in: each Math.random() draw is a real in [0, 1). */
module MyString {
  import opened Outcomes

  /** The string the code returns instead of reporting a bad argument. */
  const SENTINEL: string := "-1"

  predicate IsLowerLetter(c: char) {
    'a' <= c <= 'z'
  }

  predicate AllLowerLetters(s: string) {
    forall i :: 0 <= i < |s| ==> IsLowerLetter(s[i])
  }

  // ---------------------------------------------------------------------------
  // isThere and countChar
  // ---------------------------------------------------------------------------

  /** The linear search of isThere (and of the game's dictionary lookup):
      the first element equal to `x` ends it with true. */
  method Contains<T(==)>(s: seq<T>, x: T) returns (found: bool)
    ensures found <==> x in s
  {
    var i := 0;
    while i < |s|
      invariant 0 <= i <= |s|
      invariant forall k :: 0 <= k < i ==> s[k] != x
    {
      if x == s[i] {
        return true;
      }
      i := i + 1;
    }
    return false;
  }

  /** isThere: linear search for `x` in `str`. */
  method IsThere(x: char, str: string) returns (found: bool)
    ensures found <==> x in str
  {
    found := Contains(str, x);
  }

  /** Case-sensitive count of `ch` in `str`; the empty string gives -1. */
  method CountChar(str: string, ch: char) returns (count: int)
    ensures str == [] ==> count == -1
    ensures str != [] ==> count == multiset(str)[ch]
    ensures count <= |str|
  {
    if str == [] {
      return -1;
    }
    count := 0;
    var i := 0;
    while i < |str|
      invariant 0 <= i <= |str|
      invariant count == multiset(str[..i])[ch]
      invariant count <= i
    {
      assert str[..i + 1] == str[..i] + [str[i]];
      if str[i] == ch {
        count := count + 1;
      }
      i := i + 1;
    }
    assert str[..i] == str;
  }

  /** The answers of countChar documented in its comment ("Center") and
      printed by the library's test printer ("hello"). */
  method CountCharExamples() returns (answers: seq<int>)
    ensures answers == [2, 0, 1, 2, 0]
  {
    var center, hello := "Center", "hello";
    assert multiset(center) == multiset{'C', 'e', 'n', 't', 'e', 'r'} by {
      assert center == ['C', 'e', 'n', 't', 'e', 'r'];
    }
    assert multiset(hello) == multiset{'h', 'e', 'l', 'l', 'o'} by {
      assert hello == ['h', 'e', 'l', 'l', 'o'];
    }
    var e := CountChar(center, 'e');
    var c := CountChar(center, 'c');
    var h := CountChar(hello, 'h');
    var l := CountChar(hello, 'l');
    var z := CountChar(hello, 'z');
    answers := [e, c, h, l, z];
  }

  // ---------------------------------------------------------------------------
  // subsetOf
  // ---------------------------------------------------------------------------

  /** Every character of `word` occurs somewhere in `pool`; repeated
      characters of `word` may all be matched by one occurrence. */
  predicate EveryCharOccurs(word: string, pool: string) {
    forall i :: 0 <= i < |word| ==> word[i] in pool
  }

  /** The answer subsetOf gives: the empty word is always accepted, and a
      non-empty one when it is no longer than `pool` and each of its characters
      occurs in `pool`. This is a test on sets of characters, not multisets. */
  predicate Subset(word: string, pool: string) {
    word == [] || (|word| <= |pool| && EveryCharOccurs(word, pool))
  }

  /** The contiguous-substring shortcut of subsetOf: when `word` is the slice
      of `pool` starting at `j`, the general test accepts it too, so the
      shortcut never changes the answer. */
  lemma SubstringShortcutAgrees(word: string, pool: string, j: int)
    requires 0 <= j && j + |word| <= |pool|
    requires word == pool[j..j + |word|]
    ensures Subset(word, pool)
  {
    forall i | 0 <= i < |word|
      ensures word[i] in pool
    {
      assert word[i] == pool[j + i];
    }
  }

  /** subsetOf accepts every word whose letters the pool holds with their
      multiplicities; the converse fails (see SubsetOfDocExamples). */
  lemma MultisetContainedIsSubset(word: string, pool: string)
    requires multiset(word) <= multiset(pool)
    ensures Subset(word, pool)
  {
    assert |multiset(word)| <= |multiset(pool)| by {
      MultisetSizeMonotone(multiset(word), multiset(pool));
    }
    forall i | 0 <= i < |word|
      ensures word[i] in pool
    {
      assert word[i] in multiset(word);
    }
  }

  lemma {:induction false} MultisetSizeMonotone(a: multiset<char>, b: multiset<char>)
    requires a <= b
    ensures |a| <= |b|
    decreases |b|
  {
    if a != multiset{} {
      var c :| c in a;
      MultisetSizeMonotone(a - multiset{c}, b - multiset{c});
    }
  }

  /** The examples of the subsetOf documentation, as the code answers them:
      "pass" is accepted by the code although the comment says it is not, and
      it is indeed not multiset-contained in "space". */
  lemma SubsetOfDocExamples()
    ensures Subset("sap", "space") && Subset("spa", "space") && Subset("c", "space")
    ensures Subset("pass", "space")
    ensures !(multiset("pass") <= multiset("space"))
    ensures Subset("no", "dont")
  {
    var space, pass, dont := "space", "pass", "dont";
    assert space == ['s', 'p', 'a', 'c', 'e'];
    assert pass == ['p', 'a', 's', 's'];
    assert dont == ['d', 'o', 'n', 't'];
    assert space[0] == 's' && space[1] == 'p' && space[2] == 'a' && space[3] == 'c';
    assert multiset(pass)['s'] == 2 by {
      assert multiset(pass) == multiset{'p', 'a', 's', 's'};
    }
    assert multiset(space)['s'] == 1 by {
      assert multiset(space) == multiset{'s', 'p', 'a', 'c', 'e'};
    }
  }

  /** subsetOf: the early exits, the contiguous-substring shortcut, then the
      per-character membership test. The source's flag `x` is true whenever
      it is read, so its final test always answers true and is folded in. */
  method SubsetOf(str1: string, str2: string) returns (r: bool)
    ensures r == Subset(str1, str2)
  {
    if str1 == [] {
      return true;
    }
    if str2 == [] {
      return false;
    }
    if |str2| < |str1| {
      return false;
    }
    var i := 0;
    while i < |str1|
      invariant 0 <= i <= |str1|
    {
      var j := 0;
      while j < |str2|
        invariant 0 <= j <= |str2|
      {
        if str1[i] == str2[j] && j + |str1| <= |str2| {
          if str1 == str2[j..j + |str1|] {
            SubstringShortcutAgrees(str1, str2, j);
            return true;
          }
        }
        j := j + 1;
      }
      i := i + 1;
    }
    i := 0;
    while i < |str1|
      invariant 0 <= i <= |str1|
      invariant forall k :: 0 <= k < i ==> str1[k] in str2
    {
      var there := IsThere(str1[i], str2);
      if !there {
        return false;
      }
      i := i + 1;
    }
    return true;
  }

  // ---------------------------------------------------------------------------
  // spacedString
  // ---------------------------------------------------------------------------

  /** Each character followed by a space, the last one included; the empty
      string gives the sentinel. */
  method SpacedString(str: string) returns (r: string)
    ensures str == [] ==> r == SENTINEL
    ensures str != [] ==> |r| == 2 * |str| && r[|r| - 1] == ' '
    ensures str != [] ==> forall i :: 0 <= i < |str| ==> r[2 * i] == str[i] && r[2 * i + 1] == ' '
  {
    var newString := "";
    if str == [] {
      return SENTINEL;
    }
    var i := 0;
    while i < |str|
      invariant 0 <= i <= |str|
      invariant |newString| == 2 * i
      invariant forall k :: 0 <= k < i ==> newString[2 * k] == str[k] && newString[2 * k + 1] == ' '
    {
      newString := newString + [str[i], ' '];
      i := i + 1;
    }
    assert newString[2 * (i - 1) + 1] == ' ';
    return newString;
  }

  // ---------------------------------------------------------------------------
  // Random helpers
  // ---------------------------------------------------------------------------

  /** `(int) (u * bound)` for a draw `u` of Math.random(): an index below `bound`. */
  function RandomIndex(u: real, bound: nat): (k: nat)
    requires 0.0 <= u < 1.0 && bound > 0
    ensures k < bound
  {
    assert 0.0 <= u * bound as real < bound as real;
    (u * bound as real).Floor
  }

  /** The letter `(char) ((int) (u * 26) + 97)`. */
  function LetterOf(u: real): (c: char)
    requires 0.0 <= u < 1.0
    ensures IsLowerLetter(c)
  {
    (RandomIndex(u, 26) + 97) as char
  }

  predicate AreDraws(us: seq<real>) {
    forall i :: 0 <= i < |us| ==> 0.0 <= us[i] < 1.0
  }

  /** The letters picked by a sequence of draws, one each. */
  function LettersOf(us: seq<real>): (s: string)
    requires AreDraws(us)
    ensures |s| == |us| && AllLowerLetters(s)
  {
    seq(|us|, i requires 0 <= i < |us| => LetterOf(us[i]))
  }

  /** randomStringOfLetters: `n` letters from the first `n` draws (none when
      `n` is not positive). */
  method RandomStringOfLetters(n: int, draws: seq<real>) returns (s: string)
    requires n <= |draws| && AreDraws(draws)
    ensures |s| == (if n < 0 then 0 else n)
    ensures s == LettersOf(draws[..|s|])
  {
    var newString := "";
    ghost var m := if n < 0 then 0 else n;
    var i := 0;
    while i < n
      invariant 0 <= i <= m
      invariant newString == LettersOf(draws[..i])
    {
      newString := newString + [LetterOf(draws[i])];
      i := i + 1;
    }
    return newString;
  }

  /** insertRandomly: `ch` inserted at the position picked by the draw `u`. */
  function InsertRandomly(ch: char, str: string, u: real): (r: string)
    requires 0.0 <= u < 1.0
    ensures var k := RandomIndex(u, |str| + 1);
      |r| == |str| + 1 && r[k] == ch && r[..k] == str[..k] && r[k + 1..] == str[k..]
    ensures multiset(r) == multiset(str) + multiset{ch}
  {
    var randomIndex := RandomIndex(u, |str| + 1);
    assert str == str[..randomIndex] + str[randomIndex..];
    str[..randomIndex] + [ch] + str[randomIndex..]
  }

  // ---------------------------------------------------------------------------
  // remove
  // ---------------------------------------------------------------------------

  /** Java's String.indexOf for a character: the first position, or -1. */
  function IndexOf(s: string, c: char): (k: int)
    ensures -1 <= k < |s|
    ensures k == -1 <==> c !in s
    ensures k >= 0 ==> s[k] == c && forall i :: 0 <= i < k ==> s[i] != c
  {
    if s == [] then -1
    else if s[0] == c then 0
    else
      var k := IndexOf(s[1..], c);
      if k == -1 then -1 else k + 1
  }

  /** The loop of remove: the first occurrence of each letter of `word` is
      deleted from `hand`, left to right. A missing letter makes indexOf give
      -1 and the following substring(0, -1) throw. */
  function DeleteEach(word: string, hand: string): Result<string>
    decreases |word|
  {
    if word == [] then Returned(hand)
    else
      var k := IndexOf(hand, word[0]);
      if k == -1 then Threw(StringIndexOutOfBounds)
      else DeleteEach(word[1..], hand[..k] + hand[k + 1..])
  }

  /** The answer of remove(word, hand): the sentinel when `word` is empty or
      not shorter than `hand` (a word using the whole hand included), the loop
      otherwise. */
  function RemoveResult(word: string, hand: string): Result<string> {
    if |word| >= |hand| || word == [] then Returned(SENTINEL)
    else DeleteEach(word, hand)
  }

  /** remove, with its three branches for the position found by indexOf. */
  method Remove(str1: string, str2: string) returns (r: Result<string>)
    ensures r == RemoveResult(str1, str2)
  {
    if |str1| > |str2| || |str1| == |str2| || str1 == [] || str2 == [] {
      return Returned(SENTINEL);
    }
    var hand := str2;
    var i := 0;
    while i < |str1|
      invariant 0 <= i <= |str1|
      invariant |hand| == |str2| - i
      invariant DeleteEach(str1[i..], hand) == DeleteEach(str1, str2)
    {
      assert str1[i..][1..] == str1[i + 1..];
      var indexOf := IndexOf(hand, str1[i]);
      if indexOf == 0 {
        assert hand[1..] == hand[..0] + hand[1..];
        hand := hand[1..];
      } else if indexOf == |hand| - 1 {
        assert hand[..indexOf] == hand[..indexOf] + hand[indexOf + 1..];
        hand := hand[..indexOf];
      } else {
        if indexOf < 0 {
          // substring(0, -1)
          return Threw(StringIndexOutOfBounds);
        }
        hand := hand[..indexOf] + hand[indexOf + 1..];
      }
      i := i + 1;
    }
    assert str1[i..] == [];
    return Returned(hand);
  }

  /** Deleting one occurrence of `c` at position `k` takes one `c` out of the
      multiset of the hand. */
  lemma DeleteAtMultiset(hand: string, k: int)
    requires 0 <= k < |hand|
    ensures multiset(hand[..k] + hand[k + 1..]) == multiset(hand) - multiset{hand[k]}
  {
    assert hand == hand[..k] + [hand[k]] + hand[k + 1..];
  }

  /** The loop of remove completes exactly when the hand holds the letters of
      the word with their multiplicities, and then takes exactly those letters
      out. */
  lemma {:induction false} DeleteEachMultiset(word: string, hand: string)
    ensures DeleteEach(word, hand).Returned? <==> multiset(word) <= multiset(hand)
    ensures DeleteEach(word, hand).Returned? ==>
      |DeleteEach(word, hand).value| == |hand| - |word| &&
      multiset(DeleteEach(word, hand).value) == multiset(hand) - multiset(word)
    decreases |word|
  {
    if word != [] {
      var c := word[0];
      assert word == [c] + word[1..];
      assert multiset(word) == multiset(word[1..]) + multiset{c};
      var k := IndexOf(hand, c);
      if k == -1 {
        assert DeleteEach(word, hand) == Threw(StringIndexOutOfBounds);
        assert multiset(hand)[c] == 0;
      } else {
        var rest := hand[..k] + hand[k + 1..];
        assert DeleteEach(word, hand) == DeleteEach(word[1..], rest);
        DeleteAtMultiset(hand, k);
        DeleteEachMultiset(word[1..], rest);
        SharedElementCancels(multiset(word[1..]), multiset(rest), c);
      }
    }
  }

  /** Taking the same element out of both sides keeps containment and the
      difference. */
  lemma SharedElementCancels(a: multiset<char>, h: multiset<char>, c: char)
    ensures a + multiset{c} <= h + multiset{c} <==> a <= h
    ensures a <= h ==> (h + multiset{c}) - (a + multiset{c}) == h - a
  {
    if a + multiset{c} <= h + multiset{c} {
      forall x
        ensures a[x] <= h[x]
      {
        assert (a + multiset{c})[x] <= (h + multiset{c})[x];
      }
    }
  }

  /** All that remove can do. */
  lemma RemoveOutcomes(word: string, hand: string)
    ensures |word| >= |hand| || word == [] ==> RemoveResult(word, hand) == Returned(SENTINEL)
    ensures 0 < |word| < |hand| ==>
      (RemoveResult(word, hand) == Threw(StringIndexOutOfBounds) <==> !(multiset(word) <= multiset(hand)))
    ensures 0 < |word| < |hand| && multiset(word) <= multiset(hand) ==>
      RemoveResult(word, hand).Returned? &&
      |RemoveResult(word, hand).value| == |hand| - |word| &&
      multiset(RemoveResult(word, hand).value) == multiset(hand) - multiset(word)
  {
    DeleteEachMultiset(word, hand);
    if 0 < |word| < |hand| && !(multiset(word) <= multiset(hand)) {
      DeleteEachThrowsOnlyIndex(word, hand);
    }
  }

  lemma {:induction false} DeleteEachThrowsOnlyIndex(word: string, hand: string)
    ensures DeleteEach(word, hand).Threw? ==> DeleteEach(word, hand).exception == StringIndexOutOfBounds
    decreases |word|
  {
    if word != [] {
      var k := IndexOf(hand, word[0]);
      if k != -1 {
        var rest := hand[..k] + hand[k + 1..];
        assert DeleteEach(word, hand) == DeleteEach(word[1..], rest);
        DeleteEachThrowsOnlyIndex(word[1..], rest);
      }
    }
  }

  /** The examples of the remove documentation and of the library's own
      test printer. */
  lemma RemoveDocExamples()
    ensures RemoveResult("meet", "committee") == Returned("comit")
    ensures RemoveResult("dont", "dont") == Returned(SENTINEL)
  {
    MeetFromCommittee1();
    MeetFromCommittee2();
    MeetFromCommittee3();
    MeetFromCommittee4();
  }

  // The four turns of remove("meet", "committee"), one lemma each to keep
  // each proof small.
  lemma MeetFromCommittee1()
    ensures DeleteEach("meet", "committee") == DeleteEach("eet", "comittee")
  {
    DeleteExample("meet", "committee", 2, "comittee");
  }

  lemma MeetFromCommittee2()
    ensures DeleteEach("eet", "comittee") == DeleteEach("et", "comitte")
  {
    DeleteExample("eet", "comittee", 6, "comitte");
  }

  lemma MeetFromCommittee3()
    ensures DeleteEach("et", "comitte") == DeleteEach("t", "comitt")
  {
    DeleteExample("et", "comitte", 6, "comitt");
  }

  lemma MeetFromCommittee4()
    ensures DeleteEach("t", "comitt") == Returned("comit")
  {
    DeleteExample("t", "comitt", 4, "comit");
  }

  /** One turn of the loop of remove on concrete strings: the first letter of
      `word` is first found at `k`. */
  lemma DeleteExample(word: string, hand: string, k: nat, next: string)
    requires word != [] && k < |hand| && hand[k] == word[0]
    requires forall i :: 0 <= i < k ==> hand[i] != word[0]
    requires next == hand[..k] + hand[k + 1..]
    ensures DeleteEach(word, hand) == DeleteEach(word[1..], next)
  {
    IndexOfExample(hand, word[0], k);
  }

  /** IndexOf evaluated on a concrete string: `k` is the first position of `c`. */
  lemma {:induction false} IndexOfExample(s: string, c: char, k: nat)
    requires k < |s| && s[k] == c
    requires forall i :: 0 <= i < k ==> s[i] != c
    ensures IndexOf(s, c) == k
  {
  }

}
