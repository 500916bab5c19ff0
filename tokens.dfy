/** Python's `str.split(" ", maxsplit)`, its inverse `" ".join(parts)`, and
    `tok.split(":")[0]`. */
module Tokens {
  import opened Wrappers
  import opened Text

  /** `s.split(" ", maxsplit)`: cut at each single space, at most `maxsplit`
      times, so that the last part keeps the rest of the string. */
  function SplitSpace(s: string, maxsplit: nat): (parts: seq<string>)
    ensures 1 <= |parts| <= maxsplit + 1
    decreases maxsplit
  {
    if maxsplit == 0 then [s]
    else
      var at := IndexOf(s, ' ');
      if at.None? then [s]
      else [s[..at.value]] + SplitSpace(s[at.value + 1..], maxsplit - 1)
  }

  /** Every part but the last is free of spaces, and so is the last one
      when fewer than `maxsplit` cuts were made. */
  predicate SpaceFreeParts(s: string, maxsplit: nat) {
    var parts := SplitSpace(s, maxsplit);
    && (forall k :: 0 <= k < |parts| - 1 ==> ' ' !in parts[k])
    && (|parts| <= maxsplit ==> ' ' !in parts[|parts| - 1])
  }

  lemma SplitSpaceParts(s: string, maxsplit: nat)
    ensures SpaceFreeParts(s, maxsplit)
  {
    SpaceFreeAll(maxsplit);
  }

  /** By induction on `maxsplit`, for every string at once. */
  lemma SpaceFreeAll(maxsplit: nat)
    ensures forall s :: SpaceFreeParts(s, maxsplit)
  {
    forall s ensures SpaceFreeParts(s, 0) {
      SpaceFreeWhole(s, 0);
    }
    var k := 0;
    while k < maxsplit
      invariant k <= maxsplit
      invariant forall s :: SpaceFreeParts(s, k)
    {
      var next := k + 1;
      forall s ensures SpaceFreeParts(s, next) {
        SpaceFreeAfter(s, k);
      }
      k := next;
    }
  }

  lemma SpaceFreeAfter(s: string, fewer: nat)
    requires forall t :: SpaceFreeParts(t, fewer)
    ensures SpaceFreeParts(s, fewer + 1)
  {
    if IndexOf(s, ' ').None? {
      SpaceFreeWhole(s, fewer + 1);
    } else {
      SpaceFreeStep(s, fewer + 1, IndexOf(s, ' ').value);
    }
  }

  /** A cut at the first space puts a space-free head before the parts of
      the rest. */
  lemma SpaceFreeStep(s: string, maxsplit: nat, i: nat)
    requires maxsplit > 0 && IndexOf(s, ' ') == Some(i)
    requires SpaceFreeParts(s[i + 1..], maxsplit - 1)
    ensures SpaceFreeParts(s, maxsplit)
  {
    var tail := SplitSpace(s[i + 1..], maxsplit - 1);
    var parts := SplitSpace(s, maxsplit);
    forall k | 0 <= k < |parts| - 1 ensures ' ' !in parts[k] {
      if k > 0 {
        assert parts[k] == tail[k - 1];
      }
    }
  }

  lemma SpaceFreeWhole(s: string, maxsplit: nat)
    requires maxsplit == 0 || IndexOf(s, ' ').None?
    ensures SpaceFreeParts(s, maxsplit)
  {
  }

  /** `" ".join(parts)`. */
  function JoinSpaced(parts: seq<string>): string {
    if |parts| <= 1 then (if parts == [] then "" else parts[0])
    else parts[0] + [' '] + JoinSpaced(parts[1..])
  }

  /** Joining the parts of `s.split(" ", maxsplit)` gives back `s`. */
  predicate Rejoins(s: string, maxsplit: nat) {
    JoinSpaced(SplitSpace(s, maxsplit)) == s
  }

  /** Splitting on single spaces and joining the parts back with single spaces
      gives back the string: no character is lost or added. */
  lemma SplitSpaceJoin(s: string, maxsplit: nat)
    ensures Rejoins(s, maxsplit)
  {
    RejoinsAll(maxsplit);
  }

  /** `SplitSpaceJoin` for every string, counting the cuts up to `maxsplit`. */
  lemma RejoinsAll(maxsplit: nat)
    ensures forall s :: Rejoins(s, maxsplit)
  {
    forall s ensures Rejoins(s, 0) {
      SplitSpaceWhole(s, 0);
    }
    var k := 0;
    while k < maxsplit
      invariant k <= maxsplit
      invariant forall s :: Rejoins(s, k)
    {
      var next := k + 1;
      forall s ensures Rejoins(s, next) {
        RejoinsAfter(s, k);
      }
      k := next;
    }
  }

  /** One cut more than a count for which every string rejoins. */
  lemma RejoinsAfter(s: string, fewer: nat)
    requires forall t :: Rejoins(t, fewer)
    ensures Rejoins(s, fewer + 1)
  {
    if IndexOf(s, ' ').None? {
      SplitSpaceWhole(s, fewer + 1);
    } else {
      SplitSpaceStep(s, fewer + 1, IndexOf(s, ' ').value);
    }
  }

  /** The step of `RejoinsAfter` at the first space `s[i]`. */
  lemma SplitSpaceStep(s: string, maxsplit: nat, i: nat)
    requires maxsplit > 0 && IndexOf(s, ' ') == Some(i)
    requires Rejoins(s[i + 1..], maxsplit - 1)
    ensures Rejoins(s, maxsplit)
  {
    JoinAtSpace(s, i, SplitSpace(s[i + 1..], maxsplit - 1));
  }

  lemma SplitSpaceWhole(s: string, maxsplit: nat)
    requires maxsplit == 0 || IndexOf(s, ' ').None?
    ensures Rejoins(s, maxsplit)
  {
    assert SplitSpace(s, maxsplit) == [s];
  }

  lemma JoinAtSpace(s: string, i: nat, tail: seq<string>)
    requires i < |s| && s[i] == ' ' && tail != [] && JoinSpaced(tail) == s[i + 1..]
    ensures JoinSpaced([s[..i]] + tail) == s
  {
    JoinCons(s[..i], tail);
    CutAt(s, i);
  }

  lemma CutAt(s: string, i: nat)
    requires i < |s| && s[i] == ' '
    ensures s[..i] + [' '] + s[i + 1..] == s
  {
  }

  lemma JoinCons(head: string, tail: seq<string>)
    requires tail != []
    ensures JoinSpaced([head] + tail) == head + [' '] + JoinSpaced(tail)
  {
    assert ([head] + tail)[1..] == tail;
  }

  /** The first space of `head + " " + rest` is the one after `head` when
      `head` has none. */
  lemma IndexOfJoin(head: string, rest: string)
    requires ' ' !in head
    ensures IndexOf(head + [' '] + rest, ' ') == Some(|head|)
  {
    var s := head + [' '] + rest;
    assert s[|head|] == ' ';
  }

  /** Conversely, splitting the join of parts that are free of spaces (but
      the last, which keeps the rest) with one cut fewer than there are parts
      gives back the parts. */
  lemma {:induction false} SplitJoinSpaced(parts: seq<string>)
    requires |parts| >= 1
    requires forall k :: 0 <= k < |parts| - 1 ==> ' ' !in parts[k]
    ensures SplitSpace(JoinSpaced(parts), |parts| - 1) == parts
    decreases |parts|
  {
    if |parts| > 1 {
      var head := parts[0];
      var tail := parts[1..];
      assert parts == [head] + tail;
      SplitJoinSpaced(tail);
      JoinCons(head, tail);
      var s := JoinSpaced(parts);
      IndexOfJoin(head, JoinSpaced(tail));
      assert s[..|head|] == head;
      assert s[|head| + 1..] == JoinSpaced(tail);
    } else {
      assert parts == [parts[0]];
    }
  }

  /** Number of spaces in `s`. */
  function Spaces(s: string): nat {
    multiset(s)[' ']
  }

  /** Cutting at the first space removes one space from the count. */
  lemma SpacesCut(s: string, i: nat)
    requires i < |s| && s[i] == ' ' && ' ' !in s[..i]
    ensures Spaces(s) == 1 + Spaces(s[i + 1..])
  {
    assert s == s[..i] + [' '] + s[i + 1..];
    assert multiset(s) == multiset(s[..i]) + multiset([' ']) + multiset(s[i + 1..]);
  }

  /** `split(" ", maxsplit)` cuts at every space up to `maxsplit` of them:
      there is one part more than the cuts made. */
  lemma {:induction false} SplitSpaceCount(s: string, maxsplit: nat)
    ensures |SplitSpace(s, maxsplit)| == 1 + (if Spaces(s) < maxsplit then Spaces(s) else maxsplit)
    decreases maxsplit
  {
    var at := IndexOf(s, ' ');
    if maxsplit > 0 && at.Some? {
      var i := at.value;
      SplitSpaceCount(s[i + 1..], maxsplit - 1);
      SpacesCut(s, i);
      assert |SplitSpace(s, maxsplit)| == 1 + |SplitSpace(s[i + 1..], maxsplit - 1)|;
    } else if maxsplit > 0 {
      assert multiset(s)[' '] == 0;
    }
  }

  /** A token made of a colon-free head, a colon and anything after it
      keeps the head. */
  lemma BeforeColonJoin(head: string, rest: string)
    requires ':' !in head
    ensures BeforeColon(head + [':'] + rest) == head
  {
    var tok := head + [':'] + rest;
    assert tok[|head|] == ':';
    assert tok[..|head|] == head;
  }

  /** `tok.split(":")[0]`: the part of `tok` before its first colon, or all of it. */
  function BeforeColon(tok: string): (r: string)
    ensures ':' !in r
    ensures StartsWith(tok, r)
    ensures |r| < |tok| ==> tok[|r|] == ':'
    ensures ':' !in tok ==> r == tok
  {
    match IndexOf(tok, ':')
    case None => tok
    case Some(i) => tok[..i]
  }
}
