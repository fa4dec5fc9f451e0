/**
 The regular-expression matcher of grep.c, against a denotation by segmentation.

 A pattern is read as a list of items.  A text matches at position `i` when it can be cut, from
 `i` on, into consecutive segments such that every item accepts its own segment.  Nothing in that
 definition mentions backtracking, the order in which the matcher tries things, or its recursion.
 */
module Matcher {

  /** The characters of a C string before its terminating NUL. */
  type CString = s: string | '\0' !in s

  datatype Item =
    | Run(c: char)   // c*
    | One(c: char)   // a literal, or '.'
    | End            // a final $

  /** The items of a pattern: a star takes the character before it, `$` is special only at the end. */
  function Items(re: string): seq<Item> {
    if re == "" then []
    else if |re| >= 2 && re[1] == '*' then [Run(re[0])] + Items(re[2..])
    else if re == "$" then [End]
    else [One(re[0])] + Items(re[1..])
  }

  predicate Fits(c: char, x: char) {
    c == '.' || c == x
  }

  /** The item accepts exactly text[i..j]. */
  ghost predicate Accepts(it: Item, text: string, i: nat, j: nat) {
    && i <= j <= |text|
    && match it
       case Run(c) => forall k :: i <= k < j ==> Fits(c, text[k])
       case One(c) => j == i + 1 && Fits(c, text[i])
       case End => i == j == |text|
  }

  /** `cuts` are the boundaries of a segmentation that the items accept one by one. */
  ghost predicate Segments(items: seq<Item>, text: string, cuts: seq<nat>) {
    && |cuts| == |items| + 1
    && cuts[|items|] <= |text|
    && forall k :: 0 <= k < |items| ==> Accepts(items[k], text, cuts[k], cuts[k + 1])
  }

  ghost predicate MatchesAt(items: seq<Item>, text: string, i: nat) {
    exists cuts: seq<nat> :: Segments(items, text, cuts) && cuts[0] == i
  }

  /** What the pattern means: `^` pins the match to the start, otherwise any position will do. */
  ghost predicate Matches(re: string, text: string) {
    if re != "" && re[0] == '^' then
      MatchesAt(Items(re[1..]), text, 0)
    else
      exists i: nat :: i <= |text| && MatchesAt(Items(re), text, i)
  }

  lemma MatchesNothing(text: string, i: nat)
    requires i <= |text|
    ensures MatchesAt([], text, i)
  {
    assert Segments([], text, [i]);
  }

  /** Splitting off the first item of a segmentation. */
  lemma SplitFirst(items: seq<Item>, text: string, i: nat) returns (j: nat)
    requires items != [] && MatchesAt(items, text, i)
    ensures Accepts(items[0], text, i, j) && MatchesAt(items[1..], text, j)
  {
    var cuts: seq<nat> :| Segments(items, text, cuts) && cuts[0] == i;
    j := cuts[1];
    assert Segments(items[1..], text, cuts[1..]);
  }

  /** Putting an accepted segment in front of a segmentation. */
  lemma JoinFirst(it: Item, items: seq<Item>, text: string, i: nat, j: nat)
    requires Accepts(it, text, i, j) && MatchesAt(items, text, j)
    ensures MatchesAt([it] + items, text, i)
  {
    var cuts: seq<nat> :| Segments(items, text, cuts) && cuts[0] == j;
    var all := [i] + cuts;
    forall k | 0 <= k < |items| + 1
      ensures Accepts(([it] + items)[k], text, all[k], all[k + 1])
    {
      if k > 0 {
        assert Accepts(items[k - 1], text, cuts[k - 1], cuts[k]);
      }
    }
    assert Segments([it] + items, text, all);
  }

  /** grep.c matchhere, on the suffixes re[p..] and text[i..]. */
  method MatchHere(re: CString, p: nat, text: CString, i: nat) returns (b: bool)
    requires p <= |re| && i <= |text|
    ensures b <==> MatchesAt(Items(re[p..]), text, i)
    decreases |re| - p, |text| - i, 0
  {
    ghost var items := Items(re[p..]);
    if p == |re| {
      MatchesNothing(text, i);
      return true;
    }
    if p + 1 < |re| && re[p + 1] == '*' {
      assert re[p..][2..] == re[p + 2..];
      b := MatchStar(re[p], re, p + 2, text, i);
      return;
    }
    if re[p] == '$' && p + 1 == |re| {
      assert items == [End] + [];
      if i == |text| {
        MatchesNothing(text, i);
        JoinFirst(End, [], text, i, i);
      } else if MatchesAt(items, text, i) {
        var j := SplitFirst(items, text, i);
      }
      return i == |text|;
    }
    assert re[p..][1..] == re[p + 1..];
    assert items == [One(re[p])] + Items(re[p + 1..]);
    if MatchesAt(items, text, i) {
      var j := SplitFirst(items, text, i);
      assert items[1..] == Items(re[p + 1..]);
    }
    if i < |text| && (re[p] == '.' || re[p] == text[i]) {
      b := MatchHere(re, p + 1, text, i + 1);
      if b {
        JoinFirst(One(re[p]), Items(re[p + 1..]), text, i, i + 1);
      }
      return;
    }
    return false;
  }

  /** grep.c matchstar: zero or more `c`, shortest first, then re[p..]. */
  method MatchStar(c: char, re: CString, p: nat, text: CString, i: nat) returns (b: bool)
    requires p <= |re| && i <= |text|
    ensures b <==> MatchesAt([Run(c)] + Items(re[p..]), text, i)
    decreases |re| - p, |text| - i, 1
  {
    ghost var rest := Items(re[p..]);
    var t := i;
    while true
      invariant i <= t <= |text|
      invariant forall k :: i <= k < t ==> Fits(c, text[k])
      invariant forall k :: i <= k < t ==> !MatchesAt(rest, text, k)
      decreases |text| - t
    {
      var here := MatchHere(re, p, text, t);
      if here {
        JoinFirst(Run(c), rest, text, i, t);
        return true;
      }
      if t == |text| || !(text[t] == c || c == '.') {
        break;
      }
      t := t + 1;
    }
    assert ([Run(c)] + rest)[1..] == rest;
    if MatchesAt([Run(c)] + rest, text, i) {
      var j := SplitFirst([Run(c)] + rest, text, i);
      assert false;
    }
    return false;
  }

  /** grep.c match: true exactly when some position of the text satisfies the pattern. */
  method Match(re: CString, text: CString) returns (b: bool)
    ensures b <==> Matches(re, text)
  {
    if re != "" && re[0] == '^' {
      b := MatchHere(re, 1, text, 0);
      return;
    }
    assert re[0..] == re;
    var t := 0;
    while true
      invariant t <= |text|
      invariant forall k :: 0 <= k < t ==> !MatchesAt(Items(re), text, k)
      decreases |text| - t
    {
      var here := MatchHere(re, 0, text, t);
      if here {
        return true;
      }
      if t == |text| {
        break;
      }
      t := t + 1;
    }
    return false;
  }
}
