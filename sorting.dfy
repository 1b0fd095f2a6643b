/** `Array.prototype.sort` with a comparator, as the command module uses it:
    the comparators it passes compare a two-level key (a group, then an
    order within the group), so they are total preorders. What the engine
    promises, and all this model relies on, is that the result is in order
    and holds the same elements; the order of elements with equal keys is
    the engine's and is not modelled. */
module Sorting {

  /** A sort key: elements of a smaller `group` come first, then a smaller
      `order`. */
  datatype Rank = Rank(group: nat, order: int)

  predicate RankLe(a: Rank, b: Rank) {
    a.group < b.group || (a.group == b.group && a.order <= b.order)
  }

  lemma RankLeTotal(a: Rank, b: Rank)
    ensures RankLe(a, b) || RankLe(b, a)
  {
  }

  lemma RankLeTransitive(a: Rank, b: Rank, c: Rank)
    requires RankLe(a, b) && RankLe(b, c)
    ensures RankLe(a, c)
  {
  }

  /** `xs` is in non-decreasing key order. */
  ghost predicate SortedBy<T>(xs: seq<T>, key: T -> Rank) {
    forall i, j :: 0 <= i < j < |xs| ==> RankLe(key(xs[i]), key(xs[j]))
  }

  /** Where `x` goes in the sorted `ys`: after every element whose key is not
      above its own. */
  method InsertionPoint<T>(ys: seq<T>, x: T, key: T -> Rank) returns (j: nat)
    requires SortedBy(ys, key)
    ensures j <= |ys|
    ensures forall k :: 0 <= k < j ==> RankLe(key(ys[k]), key(x))
    ensures forall k :: j <= k < |ys| ==> !RankLe(key(ys[k]), key(x))
  {
    j := 0;
    while j < |ys| && RankLe(key(ys[j]), key(x))
      invariant j <= |ys|
      invariant forall k :: 0 <= k < j ==> RankLe(key(ys[k]), key(x))
    {
      j := j + 1;
    }
    if j < |ys| {
      forall k | j <= k < |ys|
        ensures !RankLe(key(ys[k]), key(x))
      {
        if j < k && RankLe(key(ys[k]), key(x)) {
          RankLeTransitive(key(ys[j]), key(ys[k]), key(x));
        }
      }
    }
  }

  /** Inserting at the insertion point keeps the sequence sorted. */
  lemma InsertKeepsSorted<T>(ys: seq<T>, x: T, key: T -> Rank, j: nat)
    requires SortedBy(ys, key) && j <= |ys|
    requires forall k :: 0 <= k < j ==> RankLe(key(ys[k]), key(x))
    requires forall k :: j <= k < |ys| ==> !RankLe(key(ys[k]), key(x))
    ensures SortedBy(ys[..j] + [x] + ys[j..], key)
  {
    var zs := ys[..j] + [x] + ys[j..];
    forall a, b | 0 <= a < b < |zs|
      ensures RankLe(key(zs[a]), key(zs[b]))
    {
      if b == j {
        assert zs[a] == ys[a];
      } else if a == j {
        assert zs[b] == ys[b - 1];
        RankLeTotal(key(ys[b - 1]), key(x));
      } else {
        var a' := if a < j then a else a - 1;
        var b' := if b < j then b else b - 1;
        assert zs[a] == ys[a'] && zs[b] == ys[b'];
      }
    }
  }

  /** The sort: each element in turn is inserted into the sorted prefix. */
  method Sort<T>(xs: seq<T>, key: T -> Rank) returns (ys: seq<T>)
    ensures SortedBy(ys, key)
    ensures multiset(ys) == multiset(xs)
  {
    ys := [];
    for i := 0 to |xs|
      invariant SortedBy(ys, key)
      invariant multiset(ys) == multiset(xs[..i])
    {
      var j := InsertionPoint(ys, xs[i], key);
      InsertKeepsSorted(ys, xs[i], key, j);
      assert ys == ys[..j] + ys[j..];
      assert xs[..i + 1] == xs[..i] + [xs[i]];
      ys := ys[..j] + [xs[i]] + ys[j..];
    }
    assert xs[..|xs|] == xs;
  }

  /** Two sequences with the same elements have the same length and hold
      the same values. */
  lemma PermutationKeepsMembers<T>(xs: seq<T>, ys: seq<T>)
    requires multiset(ys) == multiset(xs)
    ensures |ys| == |xs| && forall x :: x in ys <==> x in xs
  {
    assert |ys| == |multiset(ys)| == |multiset(xs)| == |xs|;
    forall x
      ensures x in ys <==> x in xs
    {
      assert x in ys <==> x in multiset(ys);
      assert x in xs <==> x in multiset(xs);
    }
  }

  /** An element occurring at two positions is counted twice. */
  lemma TwoPositionsCountTwice<T>(s: seq<T>, i: nat, j: nat)
    requires i < j < |s| && s[i] == s[j]
    ensures multiset(s)[s[i]] >= 2
  {
    assert s == s[..i] + [s[i]] + s[i + 1..j] + [s[j]] + s[j + 1..];
  }

  /** An element counted twice occurs at two positions. */
  lemma {:induction false} CountedTwiceTwoPositions<T>(s: seq<T>, x: T)
    requires multiset(s)[x] >= 2
    ensures exists i, j :: 0 <= i < j < |s| && s[i] == x && s[j] == x
  {
    assert s == [s[0]] + s[1..];
    if s[0] == x {
      assert x in multiset(s[1..]);
      var k :| 0 <= k < |s[1..]| && s[1..][k] == x;
      assert s[k + 1] == x;
    } else {
      CountedTwiceTwoPositions(s[1..], x);
      var i, j :| 0 <= i < j < |s[1..]| && s[1..][i] == x && s[1..][j] == x;
      assert s[i + 1] == x && s[j + 1] == x;
    }
  }

  /** No two positions of `xs` hold elements with the same `f`. */
  ghost predicate DistinctBy<T, K>(xs: seq<T>, f: T -> K) {
    forall i, j :: 0 <= i < j < |xs| ==> f(xs[i]) != f(xs[j])
  }

  lemma DifferentElementsDifferentPositions<T>(xs: seq<T>, ys: seq<T>, u: T, v: T)
    ensures multiset(ys) == multiset(xs) && u in ys && v in ys && u != v ==>
      exists a, b :: 0 <= a < |xs| && 0 <= b < |xs| && a != b && xs[a] == u && xs[b] == v
  {
    if multiset(ys) == multiset(xs) && u in ys && v in ys && u != v {
      assert u in multiset(xs) && v in multiset(xs);
      var a :| 0 <= a < |xs| && xs[a] == u;
      var b :| 0 <= b < |xs| && xs[b] == v;
    }
  }

  /** Reordering keeps the elements' `f` values distinct. */
  lemma PermutationKeepsDistinct<T, K>(xs: seq<T>, ys: seq<T>, f: T -> K)
    requires multiset(ys) == multiset(xs) && DistinctBy(xs, f)
    ensures DistinctBy(ys, f)
  {
    forall i, j | 0 <= i < j < |ys| && f(ys[i]) == f(ys[j])
      ensures false
    {
      if ys[i] == ys[j] {
        TwoPositionsCountTwice(ys, i, j);
        CountedTwiceTwoPositions(xs, ys[i]);
      } else {
        DifferentElementsDifferentPositions(xs, ys, ys[i], ys[j]);
      }
    }
  }
}
