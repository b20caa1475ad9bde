/**
 Rune sequences: the reference meaning of reversing a string and of counting
 the runes of a string that belong to a fixed set of runes.

 A Go string converted with `[]rune(s)`, or walked with `range`, is a
 sequence of Unicode scalar values; here that sequence is a `seq<char>`, one
 element per rune. A rune set written as a Go string literal and queried with
 `strings.ContainsRune` is a `seq<char>` queried with `in`.
 */
module Runes {

  /** The runes of `s` in reverse order. */
  function Reverse(s: seq<char>): (r: seq<char>)
    ensures |r| == |s|
    ensures forall k :: 0 <= k < |s| ==> r[k] == s[|s| - 1 - k]
  {
    if |s| == 0 then [] else Reverse(s[1..]) + [s[0]]
  }

  /** Number of runes of `s` that occur in `members`, counted one pass from the left. */
  function CountIn(s: seq<char>, members: seq<char>): (n: nat)
    ensures n <= |s|
  {
    if |s| == 0 then 0
    else CountIn(s[..|s| - 1], members) + (if s[|s| - 1] in members then 1 else 0)
  }

  /** The positions of `s` whose rune occurs in `members`. */
  function Positions(s: seq<char>, members: seq<char>): set<nat>
  {
    set k: nat | k < |s| && s[k] in members
  }

  /** Reversal is an involution. */
  lemma ReverseInvolution(s: seq<char>)
    ensures Reverse(Reverse(s)) == s
  {
    var r := Reverse(Reverse(s));
    assert forall k :: 0 <= k < |s| ==> r[k] == s[k];
  }

  /** `r` holds the runes of `s` in reverse order: the promise of a two-pointer reversal. */
  predicate IsReversal(s: seq<char>, r: seq<char>)
  {
    |r| == |s| && forall k :: 0 <= k < |s| ==> r[k] == s[|s| - 1 - k]
  }

  /** Any result that keeps the promise of a reversal is `Reverse(s)`. */
  lemma ReversalIsReverse(s: seq<char>, r: seq<char>)
    requires IsReversal(s, r)
    ensures r == Reverse(s)
  {
    assert forall k :: 0 <= k < |s| ==> r[k] == Reverse(s)[k];
  }

  /** Reversing the reversal of `s` gives back `s`. */
  lemma ReversalTwice(s: seq<char>, r: seq<char>, t: seq<char>)
    requires IsReversal(s, r) && IsReversal(r, t)
    ensures t == s
  {
    assert forall k :: 0 <= k < |s| ==> t[k] == s[k];
  }

  /** Inputs of at most one rune are their own reversal. */
  lemma ReverseShortUnchanged(s: seq<char>)
    requires |s| <= 1
    ensures Reverse(s) == s
  {
  }

  /** The count is exactly the number of matching positions. */
  lemma {:induction false} CountIsPositionCount(s: seq<char>, members: seq<char>)
    ensures CountIn(s, members) == |Positions(s, members)|
  {
    if |s| == 0 {
      assert Positions(s, members) == {};
    } else {
      var p := s[..|s| - 1];
      CountIsPositionCount(p, members);
      assert forall k :: 0 <= k < |p| ==> p[k] == s[k];
      if s[|s| - 1] in members {
        assert Positions(s, members) == Positions(p, members) + {|s| - 1};
      } else {
        assert Positions(s, members) == Positions(p, members);
      }
    }
  }

  /** The count is zero exactly when no rune of `s` is a member. */
  lemma CountZeroIff(s: seq<char>, members: seq<char>)
    ensures CountIn(s, members) == 0 <==> forall k :: 0 <= k < |s| ==> s[k] !in members
  {
    CountIsPositionCount(s, members);
    var p := Positions(s, members);
    if forall k :: 0 <= k < |s| ==> s[k] !in members {
      assert p == {};
    } else {
      var k :| 0 <= k < |s| && s[k] in members;
      assert k in p;
    }
  }

  /** The count equals the length exactly when every rune of `s` is a member. */
  lemma {:induction false} CountFullIff(s: seq<char>, members: seq<char>)
    ensures CountIn(s, members) == |s| <==> forall k :: 0 <= k < |s| ==> s[k] in members
  {
    if |s| > 0 {
      var p := s[..|s| - 1];
      CountFullIff(p, members);
      assert forall k :: 0 <= k < |p| ==> p[k] == s[k];
    }
  }

  /** Counting distributes over concatenation. */
  lemma {:induction false} CountAppend(s: seq<char>, t: seq<char>, members: seq<char>)
    ensures CountIn(s + t, members) == CountIn(s, members) + CountIn(t, members)
  {
    if |t| == 0 {
      assert s + t == s;
    } else {
      var t' := t[..|t| - 1];
      CountAppend(s, t', members);
      assert (s + t)[..|s + t| - 1] == s + t';
    }
  }

  /** The count does not depend on the order of the runes. */
  lemma {:induction false} CountReverse(s: seq<char>, members: seq<char>)
    ensures CountIn(Reverse(s), members) == CountIn(s, members)
  {
    if |s| > 0 {
      CountReverse(s[1..], members);
      CountAppend(Reverse(s[1..]), [s[0]], members);
      CountAppend([s[0]], s[1..], members);
      assert [s[0]] + s[1..] == s;
    }
  }

  /** A larger rune set never counts fewer runes. */
  lemma {:induction false} CountMonotone(s: seq<char>, small: seq<char>, large: seq<char>)
    requires forall c :: c in small ==> c in large
    ensures CountIn(s, small) <= CountIn(s, large)
  {
    if |s| > 0 {
      CountMonotone(s[..|s| - 1], small, large);
    }
  }
}
