/** Order-preserving selection over sequences: the shape of a Python loop
    that appends what it accepts, and of a pandas boolean-mask selection. */
module Seqs {
  import opened Wrappers

  /** Keeps, in order, the images of the elements that `f` maps to `Some`. */
  function FilterMap<A, B>(s: seq<A>, f: A -> Option<B>): (r: seq<B>)
    ensures |r| <= |s|
    ensures forall y :: y in r ==> exists x :: x in s && f(x) == Some(y)
  {
    if s == [] then []
    else
      var rest := FilterMap(s[1..], f);
      assert forall x :: x in s[1..] ==> x in s;
      match f(s[0])
      case Some(y) => [y] + rest
      case None => rest
  }

  /** The partial function that keeps an element exactly when `keep` holds of it. */
  function KeepIf<T>(keep: T -> bool): T -> Option<T> {
    x => if keep(x) then Some(x) else None
  }

  /** Keeps, in order, the elements satisfying `keep`. */
  function Filter<T>(s: seq<T>, keep: T -> bool): seq<T> {
    FilterMap(s, KeepIf(keep))
  }

  /** Applies `f` to every element, keeping length and order. */
  function Map<A, B>(s: seq<A>, f: A -> B): (r: seq<B>)
    ensures |r| == |s|
    ensures forall i :: 0 <= i < |s| ==> r[i] == f(s[i])
  {
    seq(|s|, i requires 0 <= i < |s| => f(s[i]))
  }

  /** Pairs up two sequences of the same length, element by element. */
  function Zip<A, B>(a: seq<A>, b: seq<B>): (r: seq<(A, B)>)
    requires |a| == |b|
    ensures |r| == |a|
    ensures forall i :: 0 <= i < |a| ==> r[i] == (a[i], b[i])
  {
    seq(|a|, i requires 0 <= i < |a| => (a[i], b[i]))
  }

  ghost predicate Increasing(idx: seq<nat>) {
    forall k, l :: 0 <= k < l < |idx| ==> idx[k] < idx[l]
  }

  /** `r` lists, in the order of `s`, the images under `f` of exactly those
      positions of `s` that `f` accepts; `idx` says where each one came from. */
  ghost predicate Picks<A, B>(s: seq<A>, f: A -> Option<B>, r: seq<B>, idx: seq<nat>) {
    && |idx| == |r|
    && Increasing(idx)
    && (forall k :: 0 <= k < |idx| ==> idx[k] < |s| && f(s[idx[k]]) == Some(r[k]))
    && (forall j :: 0 <= j < |s| && f(s[j]).Some? ==> j in idx)
  }

  function Shift(idx: seq<nat>): (r: seq<nat>)
    ensures |r| == |idx| && forall k :: 0 <= k < |idx| ==> r[k] == idx[k] + 1
  {
    seq(|idx|, k requires 0 <= k < |idx| => idx[k] + 1)
  }

  /** The positions of `s` that `f` accepts, in increasing order. */
  function Positions<A, B>(s: seq<A>, f: A -> Option<B>): (idx: seq<nat>)
    ensures forall k :: 0 <= k < |idx| ==> idx[k] < |s|
  {
    if s == [] then []
    else (if f(s[0]).Some? then [0] else []) + Shift(Positions(s[1..], f))
  }

  lemma {:induction false} PositionsIncreasing<A, B>(s: seq<A>, f: A -> Option<B>)
    ensures Increasing(Positions(s, f))
    ensures |Positions(s, f)| == |FilterMap(s, f)|
  {
    if s != [] {
      PositionsIncreasing(s[1..], f);
    }
  }

  /** Each position lists the source of the image at the same place. */
  ghost predicate Sources<A, B>(s: seq<A>, f: A -> Option<B>) {
    && |Positions(s, f)| == |FilterMap(s, f)|
    && forall k :: 0 <= k < |Positions(s, f)| ==> f(s[Positions(s, f)[k]]) == Some(FilterMap(s, f)[k])
  }

  lemma {:induction false} PositionsImages<A, B>(s: seq<A>, f: A -> Option<B>)
    ensures Sources(s, f)
  {
    if s == [] {
      assert Positions(s, f) == [];
    } else {
      PositionsImages(s[1..], f);
      SourcesStep(s, f);
    }
  }

  lemma SourcesStep<A, B>(s: seq<A>, f: A -> Option<B>)
    requires s != [] && Sources(s[1..], f)
    ensures Sources(s, f)
  {
    if f(s[0]).Some? {
      SourcesKeep(s, f);
    } else {
      SourcesSkip(s, f);
    }
  }

  /** The positions after the first, moved one place to the right. */
  lemma SourcesShift<A, B>(s: seq<A>, f: A -> Option<B>)
    requires s != [] && Sources(s[1..], f)
    ensures forall k :: 0 <= k < |Shift(Positions(s[1..], f))| ==>
      f(s[Shift(Positions(s[1..], f))[k]]) == Some(FilterMap(s[1..], f)[k])
  {
    var inner := Positions(s[1..], f);
    forall k | 0 <= k < |inner| ensures f(s[inner[k] + 1]) == Some(FilterMap(s[1..], f)[k]) {
      assert s[inner[k] + 1] == s[1..][inner[k]];
    }
  }

  lemma SourcesSkip<A, B>(s: seq<A>, f: A -> Option<B>)
    requires s != [] && f(s[0]).None? && Sources(s[1..], f)
    ensures Sources(s, f)
  {
    SourcesShift(s, f);
    assert Positions(s, f) == Shift(Positions(s[1..], f));
  }

  lemma SourcesKeep<A, B>(s: seq<A>, f: A -> Option<B>)
    requires s != [] && f(s[0]).Some? && Sources(s[1..], f)
    ensures Sources(s, f)
  {
    SourcesShift(s, f);
    var tail := Shift(Positions(s[1..], f));
    var rest := FilterMap(s[1..], f);
    forall k | 1 <= k < |Positions(s, f)| ensures f(s[Positions(s, f)[k]]) == Some(FilterMap(s, f)[k]) {
      assert Positions(s, f)[k] == tail[k - 1];
      assert FilterMap(s, f)[k] == rest[k - 1];
    }
  }

  lemma {:induction false} PositionsComplete<A, B>(s: seq<A>, f: A -> Option<B>)
    ensures forall j :: 0 <= j < |s| && f(s[j]).Some? ==> j in Positions(s, f)
  {
    if s != [] {
      PositionsComplete(s[1..], f);
      var tail := Positions(s[1..], f);
      forall j | 1 <= j < |s| && f(s[j]).Some? ensures j in Shift(tail) {
        assert s[1..][j - 1] == s[j];
        var k :| 0 <= k < |tail| && tail[k] == j - 1;
        assert Shift(tail)[k] == j;
      }
    }
  }

  /** FilterMap is an order-preserving selection of exactly the accepted elements. */
  lemma FilterMapPicks<A, B>(s: seq<A>, f: A -> Option<B>)
    ensures Picks(s, f, FilterMap(s, f), Positions(s, f))
  {
    PositionsIncreasing(s, f);
    PositionsImages(s, f);
    PositionsComplete(s, f);
  }

  /** Filter keeps, in order, exactly the elements satisfying `keep`. */
  lemma FilterPicks<T>(s: seq<T>, keep: T -> bool)
    ensures Picks(s, KeepIf(keep), Filter(s, keep), Positions(s, KeepIf(keep)))
  {
    FilterMapPicks(s, KeepIf(keep));
  }

  lemma {:induction false} FilterMapAppend<A, B>(s: seq<A>, t: seq<A>, f: A -> Option<B>)
    ensures FilterMap(s + t, f) == FilterMap(s, f) + FilterMap(t, f)
  {
    if s == [] {
      assert s + t == t;
    } else {
      assert (s + t)[1..] == s[1..] + t;
      FilterMapAppend(s[1..], t, f);
    }
  }

  /** One more element adds its image, if it has one, at the end: the step
      of a loop that appends what it accepts. */
  lemma FilterMapSnoc<A, B>(s: seq<A>, x: A, f: A -> Option<B>)
    ensures FilterMap(s + [x], f) == FilterMap(s, f) + (if f(x).Some? then [f(x).value] else [])
  {
    FilterMapAppend(s, [x], f);
    assert [x][1..] == [];
  }

  /** The loop that tries each element in turn and appends the image of
      those accepted. */
  method Collect<A, B>(s: seq<A>, f: A -> Option<B>) returns (r: seq<B>)
    ensures r == FilterMap(s, f)
  {
    r := [];
    for k := 0 to |s|
      invariant r == FilterMap(s[..k], f)
    {
      var y := f(s[k]);
      if y.Some? {
        r := r + [y.value];
      }
      FilterMapSnoc(s[..k], s[k], f);
      assert s[..k + 1] == s[..k] + [s[k]];
    }
    assert s[..|s|] == s;
  }

  lemma MapAppend<A, B>(s: seq<A>, t: seq<A>, f: A -> B)
    ensures Map(s + t, f) == Map(s, f) + Map(t, f)
  {
  }

  lemma MapOne<A, B>(x: A, f: A -> B)
    ensures Map([x], f) == [f(x)]
  {
  }

  lemma FilterOne<T>(x: T, keep: T -> bool)
    ensures Filter([x], keep) == if keep(x) then [x] else []
  {
    assert [x][1..] == [];
  }

  lemma FilterMapOne<A, B>(x: A, f: A -> Option<B>)
    ensures FilterMap([x], f) == if f(x).Some? then [f(x).value] else []
  {
    assert [x][1..] == [];
  }

  /** A partial function that gives back every element unchanged keeps the
      whole sequence. */
  lemma {:induction false} FilterMapIdentity<T>(s: seq<T>, f: T -> Option<T>)
    requires forall x :: x in s ==> f(x) == Some(x)
    ensures FilterMap(s, f) == s
  {
    if s != [] {
      assert forall x :: x in s[1..] ==> x in s;
      FilterMapIdentity(s[1..], f);
    }
  }

  /** Every element of a filtered sequence satisfies the filter, and one that
      already satisfies a property keeps it. */
  lemma FilterKeeps<T>(s: seq<T>, keep: T -> bool, p: T -> bool)
    requires forall x :: x in s ==> p(x)
    ensures forall x :: x in Filter(s, keep) ==> p(x) && keep(x)
  {
  }

  /** Filtering with a condition every element satisfies changes nothing. */
  lemma {:induction false} FilterAll<T>(s: seq<T>, keep: T -> bool)
    requires forall x :: x in s ==> keep(x)
    ensures Filter(s, keep) == s
  {
    if s != [] {
      assert forall x :: x in s[1..] ==> x in s;
      FilterAll(s[1..], keep);
      FilterKeepsHead(s, keep);
    }
  }

  lemma FilterKeepsHead<T>(s: seq<T>, keep: T -> bool)
    requires s != [] && keep(s[0]) && Filter(s[1..], keep) == s[1..]
    ensures Filter(s, keep) == s
  {
    assert KeepIf(keep)(s[0]) == Some(s[0]);
    assert s == [s[0]] + s[1..];
  }

  /** Filtering twice is filtering once by both conditions. */
  lemma {:induction false} FilterFilter<T>(s: seq<T>, p: T -> bool, q: T -> bool, both: T -> bool)
    requires forall x :: both(x) == (p(x) && q(x))
    ensures Filter(Filter(s, p), q) == Filter(s, both)
  {
    if s != [] {
      FilterFilter(s[1..], p, q, both);
      if p(s[0]) {
        assert Filter(s, p) == [s[0]] + Filter(s[1..], p);
      }
    }
  }

  /** Counts the elements satisfying `p`. */
  function Count<T>(s: seq<T>, p: T -> bool): (n: nat)
    ensures n <= |s|
  {
    if s == [] then 0 else (if p(s[0]) then 1 else 0) + Count(s[1..], p)
  }

  /** The length of a filter is the count of its condition. */
  lemma {:induction false} FilterCount<T>(s: seq<T>, p: T -> bool)
    ensures |Filter(s, p)| == Count(s, p)
  {
    if s != [] { FilterCount(s[1..], p); }
  }

  /** Counting by three conditions that partition the elements adds up to the length. */
  lemma {:induction false} CountPartition<T>(s: seq<T>, p: T -> bool, q: T -> bool, r: T -> bool)
    requires forall x :: x in s ==> (if p(x) then 1 else 0) + (if q(x) then 1 else 0) + (if r(x) then 1 else 0) == 1
    ensures Count(s, p) + Count(s, q) + Count(s, r) == |s|
  {
    if s != [] {
      assert forall x :: x in s[1..] ==> x in s;
      CountPartition(s[1..], p, q, r);
    }
  }
}
