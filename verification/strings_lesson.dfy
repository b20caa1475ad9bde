/**
 The strings exercise of the basic-types lesson: the rune length of the
 input line, its rune-by-rune reversal, and the number of its runes that are
 Latin or Cyrillic vowels of either case.
 */
module StringsLesson {
  import Runes

  /** The vowel rune set of the exercise: ten Cyrillic and five Latin vowels, each in both cases. */
  const Vowels: seq<char> := "аеёиоуыэюяАЕЁИОУЫЭЮЯaeiouAEIOU"

  /** Length of the input in runes, not in bytes. */
  function RuneLength(s: seq<char>): (n: nat)
  {
    |s|
  }

  /**
   Reverses `s` the way the exercise does: copy the runes into an array and
   swap the two ends, moving both indices inward while `i < j`. The result
   is `Runes.Reverse(s)` by `Runes.ReversalIsReverse`.
   */
  method ReverseString(s: seq<char>) returns (r: seq<char>)
    ensures |r| == |s|
    ensures forall k :: 0 <= k < |s| ==> r[k] == s[|s| - 1 - k]
  {
    var runes := new char[|s|](k requires 0 <= k < |s| => s[k]);
    var i, j := 0, runes.Length - 1;
    while i < j
      invariant 0 <= i <= j + 1 && i + j == |s| - 1
      invariant forall k :: 0 <= k < i ==> runes[k] == s[|s| - 1 - k]
      invariant forall k :: j < k < |s| ==> runes[k] == s[|s| - 1 - k]
      invariant forall k :: i <= k <= j ==> runes[k] == s[k]
    {
      runes[i], runes[j] := runes[j], runes[i];
      i, j := i + 1, j - 1;
    }
    r := runes[..];
  }

  /** Counts, in one pass, the runes of `s` that are in `Vowels`. */
  method CountVowels(s: seq<char>) returns (count: nat)
    ensures count == |Runes.Positions(s, Vowels)|
    ensures count <= |s|
    ensures s == [] ==> count == 0
  {
    count := 0;
    var i := 0;
    while i < |s|
      invariant 0 <= i <= |s|
      invariant count == Runes.CountIn(s[..i], Vowels)
    {
      assert s[..i + 1][..i] == s[..i];
      if s[i] in Vowels {
        count := count + 1;
      }
      i := i + 1;
    }
    assert s[..i] == s;
    Runes.CountIsPositionCount(s, Vowels);
  }

  /** Reversal keeps the rune length. */
  lemma ReverseKeepsRuneLength(s: seq<char>)
    ensures RuneLength(Runes.Reverse(s)) == RuneLength(s)
  {
  }

  /** Reversing the input does not change its vowel count. */
  lemma ReverseKeepsVowelCount(s: seq<char>)
    ensures |Runes.Positions(Runes.Reverse(s), Vowels)| == |Runes.Positions(s, Vowels)|
  {
    Runes.CountReverse(s, Vowels);
    Runes.CountIsPositionCount(s, Vowels);
    Runes.CountIsPositionCount(Runes.Reverse(s), Vowels);
  }

  /** Worked inputs: a Latin and a Cyrillic word reversed; the Cyrillic one is six runes long, not twelve bytes. */
  lemma WorkedReversals()
    ensures Runes.Reverse("hello") == "olleh"
    ensures RuneLength("привет") == 6
    ensures Runes.Reverse("привет") == "тевирп"
  {
  }

  /** Worked input: "hello" has two vowels. */
  lemma WorkedLatinCount()
    ensures Runes.CountIn("hello", Vowels) == 2
  {
    assert "h"[..0] == [];
    assert Runes.CountIn("h", Vowels) == 0;
    assert "he"[..1] == "h";
    assert Runes.CountIn("he", Vowels) == 1;
    assert "hel"[..2] == "he";
    assert Runes.CountIn("hel", Vowels) == 1;
    assert "hell"[..3] == "hel";
    assert Runes.CountIn("hell", Vowels) == 1;
    assert "hello"[..4] == "hell";
  }

  /** The first half of "привет" holds one vowel, и. */
  lemma CyrillicFirstHalfCount()
    ensures Runes.CountIn("при", Vowels) == 1
  {
    assert "п"[..0] == [];
    assert "пр"[..1] == "п";
    assert Runes.CountIn("пр", Vowels) == 0;
    assert "при"[..2] == "пр";
  }

  /** The second half of "привет" holds one vowel, е. */
  lemma CyrillicSecondHalfCount()
    ensures Runes.CountIn("вет", Vowels) == 1
  {
    assert "в"[..0] == [];
    assert "ве"[..1] == "в";
    assert Runes.CountIn("ве", Vowels) == 1;
    assert "вет"[..2] == "ве";
  }

  /** Worked input: "привет" has two vowels, и and е. */
  lemma WorkedCyrillicCount()
    ensures Runes.CountIn("привет", Vowels) == 2
  {
    CyrillicFirstHalfCount();
    CyrillicSecondHalfCount();
    Runes.CountAppend("при", "вет", Vowels);
    assert "при" + "вет" == "привет";
  }

  /** Worked input: every Latin vowel in both cases. */
  lemma WorkedAllLatinVowels()
    ensures Runes.CountIn("AEIOUaeiou", Vowels) == 10
  {
    Runes.CountFullIff("AEIOUaeiou", Vowels);
  }
}
