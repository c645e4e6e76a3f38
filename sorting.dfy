/** Ascending sort of the three sides: the model of Ruby's `Array#sort` as
    `triangle` applies it to the array `[a, b, c]`. Ruby's sort is a library
    routine; here it is a comparison tree whose result is proved to be the
    unique ascending permutation of its input. */
module Sorting {

  /** Every element is at most every element after it. */
  predicate Sorted(s: seq<int>) {
    forall i, j :: 0 <= i < j < |s| ==> s[i] <= s[j]
  }

  /** `[a, b, c]` in ascending order. */
  function SortThree(a: int, b: int, c: int): (r: seq<int>)
    ensures |r| == 3
    ensures Sorted(r)
  {
    if a <= b then
      if b <= c then [a, b, c]
      else if a <= c then [a, c, b]
      else [c, a, b]
    else
      if a <= c then [b, a, c]
      else if b <= c then [b, c, a]
      else [c, b, a]
  }

  /** `SortThree` rearranges its arguments: it neither drops nor duplicates a side. */
  lemma SortThreePermutes(a: int, b: int, c: int)
    ensures multiset(SortThree(a, b, c)) == multiset{a, b, c}
  {
    if a <= b {
      if b <= c {
      } else if a <= c {
        assert multiset{a, c, b} == multiset{a, b, c};
      } else {
        assert multiset{c, a, b} == multiset{a, b, c};
      }
    } else {
      if a <= c {
        assert multiset{b, a, c} == multiset{a, b, c};
      } else if b <= c {
        assert multiset{b, c, a} == multiset{a, b, c};
      } else {
        assert multiset{c, b, a} == multiset{a, b, c};
      }
    }
  }

  /** The first element of an ascending sequence is at most each of its elements. */
  lemma SortedHeadIsLeast(t: seq<int>, x: int)
    requires Sorted(t)
    requires x in multiset(t)
    ensures t != [] && t[0] <= x
  {
    var k :| 0 <= k < |t| && t[k] == x;
    assert t[0] <= t[k];
  }

  /** A non-empty sequence holds its head and then the elements of its tail. */
  lemma HeadAndTail(s: seq<int>)
    requires s != []
    ensures s[0] in multiset(s)
    ensures multiset(s[1..]) == multiset(s) - multiset{s[0]}
  {
    assert s == [s[0]] + s[1..];
  }

  /** Sequences with equal heads and equal multisets have equal tail multisets. */
  lemma TailsPermute(r: seq<int>, t: seq<int>)
    requires r != [] && t != [] && r[0] == t[0]
    requires multiset(r) == multiset(t)
    ensures multiset(r[1..]) == multiset(t[1..])
  {
    HeadAndTail(r);
    HeadAndTail(t);
  }

  /** Two ascending sequences holding the same elements are equal, so an
      ascending permutation is determined by the multiset it permutes. */
  lemma {:induction false} SortedUnique(r: seq<int>, t: seq<int>)
    requires Sorted(r) && Sorted(t)
    requires multiset(r) == multiset(t)
    ensures r == t
  {
    if r == [] {
      assert |t| == |multiset(t)| == 0;
    } else {
      HeadAndTail(r);
      SortedHeadIsLeast(t, r[0]);
      HeadAndTail(t);
      SortedHeadIsLeast(r, t[0]);
      TailsPermute(r, t);
      assert Sorted(r[1..]) && Sorted(t[1..]);
      SortedUnique(r[1..], t[1..]);
      assert r == [r[0]] + r[1..];
      assert t == [t[0]] + t[1..];
    }
  }

  /** Any ascending rearrangement `x <= y <= z` of `a`, `b`, `c` is the one
      `SortThree` gives. */
  lemma SortThreeUnique(a: int, b: int, c: int, x: int, y: int, z: int)
    requires x <= y <= z
    requires multiset{x, y, z} == multiset{a, b, c}
    ensures SortThree(a, b, c) == [x, y, z]
  {
    var s := [x, y, z];
    assert Sorted(s);
    assert multiset(s) == multiset{x, y, z};
    SortThreePermutes(a, b, c);
    SortedUnique(SortThree(a, b, c), s);
  }

  /** The least of three values. */
  function Smallest(a: int, b: int, c: int): int {
    if a <= b && a <= c then a else if b <= c then b else c
  }

  /** The greatest of three values. */
  function Largest(a: int, b: int, c: int): int {
    if a >= b && a >= c then a else if b >= c then b else c
  }

  /** The sorted sides are, in order, the smallest side, the middle one and
      the largest. */
  lemma SortThreeByRank(a: int, b: int, c: int)
    ensures SortThree(a, b, c)
      == [Smallest(a, b, c), a + b + c - Smallest(a, b, c) - Largest(a, b, c), Largest(a, b, c)]
  {
  }

  /** The sorted sides are the same for all six orderings of the sides. */
  lemma SortThreeOrderIndependent(a: int, b: int, c: int)
    ensures SortThree(a, b, c) == SortThree(a, c, b) == SortThree(b, a, c)
      == SortThree(b, c, a) == SortThree(c, a, b) == SortThree(c, b, a)
  {
    SortThreeByRank(a, b, c);
    SortThreeByRank(a, c, b);
    SortThreeByRank(b, a, c);
    SortThreeByRank(b, c, a);
    SortThreeByRank(c, a, b);
    SortThreeByRank(c, b, a);
  }
}
