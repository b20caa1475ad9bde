/**
 The earlier strings example: the same two-pointer reversal written inline in
 the program's entry point, and a vowel count over the Latin vowels only.
 */
module StringsExample {
  import Runes
  import StringsLesson

  /** The vowel rune set of the example: the five Latin vowels in both cases. */
  const LatinVowels: seq<char> := "aeiouAEIOU"

  /** A rune of the Cyrillic Unicode block, U+0400 to U+04FF. */
  predicate IsCyrillic(c: char)
  {
    '\U{0400}' <= c <= '\U{04FF}'
  }

  /**
   The computation of the example's entry point with its console input and
   output taken away: the reversed runes of the line, by the two-pointer swap
   the example writes inline, and the number of its Latin vowels. By
   `Runes.ReversalTwice`, reversing `reversed` again gives back `input`.
   */
  method AnalyzeLine(input: seq<char>) returns (reversed: seq<char>, count: nat)
    ensures |reversed| == |input|
    ensures forall k :: 0 <= k < |input| ==> reversed[k] == input[|input| - 1 - k]
    ensures count == |Runes.Positions(input, LatinVowels)|
  {
    var runes := new char[|input|](k requires 0 <= k < |input| => input[k]);
    var i, j := 0, runes.Length - 1;
    while i < j
      invariant 0 <= i <= j + 1 && i + j == |input| - 1
      invariant forall k :: 0 <= k < i ==> runes[k] == input[|input| - 1 - k]
      invariant forall k :: j < k < |input| ==> runes[k] == input[|input| - 1 - k]
      invariant forall k :: i <= k <= j ==> runes[k] == input[k]
    {
      runes[i], runes[j] := runes[j], runes[i];
      i, j := i + 1, j - 1;
    }
    reversed := runes[..];
    count := CountLatinVowels(input);
  }

  /** Counts, in one pass, the runes of `s` that are in `LatinVowels`. */
  method CountLatinVowels(s: seq<char>) returns (count: nat)
    ensures count == |Runes.Positions(s, LatinVowels)|
    ensures count <= |Runes.Positions(s, StringsLesson.Vowels)|
    ensures count <= |s|
  {
    count := 0;
    var i := 0;
    while i < |s|
      invariant 0 <= i <= |s|
      invariant count == Runes.CountIn(s[..i], LatinVowels)
    {
      assert s[..i + 1][..i] == s[..i];
      if s[i] in LatinVowels {
        count := count + 1;
      }
      i := i + 1;
    }
    assert s[..i] == s;
    Runes.CountIsPositionCount(s, LatinVowels);
    Runes.CountIsPositionCount(s, StringsLesson.Vowels);
    LatinCountAtMostLessonCount(s);
  }

  /** Every Latin vowel of the example is a vowel of the lesson, so the example never counts more. */
  lemma LatinCountAtMostLessonCount(s: seq<char>)
    ensures Runes.CountIn(s, LatinVowels) <= Runes.CountIn(s, StringsLesson.Vowels)
  {
    assert forall c :: c in LatinVowels ==> c in StringsLesson.Vowels;
    Runes.CountMonotone(s, LatinVowels, StringsLesson.Vowels);
  }

  /** A line made only of Cyrillic runes has no Latin vowels. */
  lemma CyrillicOnlyCountsZero(s: seq<char>)
    requires forall k :: 0 <= k < |s| ==> IsCyrillic(s[k])
    ensures Runes.CountIn(s, LatinVowels) == 0
  {
    assert forall k :: 0 <= k < |s| ==> s[k] !in LatinVowels;
    Runes.CountZeroIff(s, LatinVowels);
  }
}
