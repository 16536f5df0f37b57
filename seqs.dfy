/**
 * The list operations the screens are built from: `Array.prototype.filter`, `some`, a sum by
 * `reduce`, and the stable `Array.prototype.sort` with a numeric comparator.
 */
module Seqs {

  /** `s.filter(p)`: the elements satisfying `p`, in their original order. */
  function Filter<T>(s: seq<T>, p: T -> bool): (r: seq<T>)
    ensures |r| <= |s|
    ensures forall i :: 0 <= i < |r| ==> r[i] in s && p(r[i])
    ensures forall i :: 0 <= i < |s| && p(s[i]) ==> s[i] in r
    ensures multiset(r) <= multiset(s)
  {
    if s == [] then []
    else
      assert s == [s[0]] + s[1..];
      (if p(s[0]) then [s[0]] else []) + Filter(s[1..], p)
  }

  /** `r` is `s` read at the strictly increasing positions `idx`. */
  ghost predicate PicksAt<T>(r: seq<T>, s: seq<T>, idx: seq<nat>)
  {
    && |idx| == |r|
    && (forall k :: 0 <= k < |idx| ==> idx[k] < |s| && r[k] == s[idx[k]])
    && (forall k, l :: 0 <= k < l < |idx| ==> idx[k] < idx[l])
  }

  /** `r` keeps some of the elements of `s`, in their order in `s`. */
  ghost predicate IsSubsequence<T>(r: seq<T>, s: seq<T>)
  {
    exists idx :: PicksAt(r, s, idx)
  }

  /** Every sequence is a subsequence of itself. */
  lemma SubsequenceOfSelf<T>(s: seq<T>)
    ensures IsSubsequence(s, s)
  {
    var idx := seq(|s|, i => i);
    assert PicksAt(s, s, idx);
  }

  /**
   * Filtering keeps the passing elements in their original order, each exactly as often as
   * it occurs in `s`, and drops every other element.
   */
  lemma FilterKeepsOrder<T>(s: seq<T>, p: T -> bool)
    ensures IsSubsequence(Filter(s, p), s)
    ensures forall x :: multiset(Filter(s, p))[x] == if p(x) then multiset(s)[x] else 0
  {
    FilterIsSubsequence(s, p);
    forall x {
      FilterMultiplicity(s, p, x);
    }
  }

  lemma {:induction false} FilterIsSubsequence<T>(s: seq<T>, p: T -> bool)
    ensures IsSubsequence(Filter(s, p), s)
  {
    if s == [] {
      assert PicksAt([], s, []);
    } else {
      var t := s[1..];
      FilterIsSubsequence(t, p);
      var rest := Filter(t, p);
      var idx :| PicksAt(rest, t, idx);
      assert s == [s[0]] + t;
      PicksAfterHead(rest, s[0], t, idx);
      if p(s[0]) {
        assert Filter(s, p) == [s[0]] + rest;
      } else {
        assert Filter(s, p) == rest;
      }
    }
  }

  /** Positions in `t` shifted by one are positions in `[h] + t`, and `h` can be picked first. */
  lemma PicksAfterHead<T>(r: seq<T>, h: T, t: seq<T>, idx: seq<nat>)
    requires PicksAt(r, t, idx)
    ensures IsSubsequence(r, [h] + t)
    ensures IsSubsequence([h] + r, [h] + t)
  {
    var s := [h] + t;
    var shifted := seq(|idx|, k requires 0 <= k < |idx| => idx[k] + 1);
    forall k | 0 <= k < |shifted| ensures shifted[k] < |s| && r[k] == s[shifted[k]] {
      assert r[k] == t[idx[k]];
    }
    assert PicksAt(r, s, shifted);
    var first := [0] + shifted;
    var hr := [h] + r;
    forall k | 0 <= k < |first| ensures first[k] < |s| && hr[k] == s[first[k]] {
      if k > 0 {
        assert first[k] == shifted[k - 1] && hr[k] == r[k - 1];
      }
    }
    assert PicksAt(hr, s, first);
  }

  lemma {:induction false} FilterMultiplicity<T>(s: seq<T>, p: T -> bool, x: T)
    ensures multiset(Filter(s, p))[x] == if p(x) then multiset(s)[x] else 0
  {
    if s != [] {
      var t := s[1..];
      FilterMultiplicity(t, p, x);
      assert s == [s[0]] + t;
      assert multiset(s) == multiset{s[0]} + multiset(t);
      assert Filter(s, p) == (if p(s[0]) then [s[0]] else []) + Filter(t, p);
      assert multiset(Filter(s, p)) == multiset(if p(s[0]) then [s[0]] else []) + multiset(Filter(t, p));
    }
  }

  lemma {:induction false} FilterAppend<T>(a: seq<T>, b: seq<T>, p: T -> bool)
    ensures Filter(a + b, p) == Filter(a, p) + Filter(b, p)
  {
    if a == [] {
      assert a + b == b;
    } else {
      assert (a + b)[0] == a[0];
      assert (a + b)[1..] == a[1..] + b;
      FilterAppend(a[1..], b, p);
    }
  }

  /** Filtering out a single failing element between two runs of passing ones leaves the two runs. */
  lemma FilterDropsOne<T>(a: seq<T>, x: T, b: seq<T>, p: T -> bool)
    requires !p(x)
    requires forall y :: y in a ==> p(y)
    requires forall y :: y in b ==> p(y)
    ensures Filter(a + [x] + b, p) == a + b
  {
    FilterAppend(a + [x], b, p);
    FilterAppend(a, [x], p);
    FilterAll(a, p);
    FilterAll(b, p);
    var fx := Filter([x], p);
    assert fx == [];
    calc {
      Filter(a + [x] + b, p);
      Filter(a + [x], p) + Filter(b, p);
      (Filter(a, p) + fx) + Filter(b, p);
      (a + fx) + b;
      { assert a + fx == a; }
      a + b;
    }
  }

  /** Filtering keeps everything when every element already passes. */
  lemma {:induction false} FilterAll<T>(s: seq<T>, p: T -> bool)
    requires forall x :: x in s ==> p(x)
    ensures Filter(s, p) == s
  {
    if s != [] {
      assert forall x :: x in s[1..] ==> x in s;
      FilterAll(s[1..], p);
    }
  }

  /** Filtering keeps nothing when no element passes. */
  lemma {:induction false} FilterNone<T>(s: seq<T>, p: T -> bool)
    requires forall x :: x in s ==> !p(x)
    ensures Filter(s, p) == []
  {
    if s != [] {
      assert forall x :: x in s[1..] ==> x in s;
      FilterNone(s[1..], p);
    }
  }

  /** Any reordering of a filtered sequence holds exactly the elements that pass, each from `s`. */
  lemma PermutedFilter<T>(s: seq<T>, p: T -> bool, v: seq<T>)
    requires multiset(v) == multiset(Filter(s, p))
    ensures |v| <= |s| && multiset(v) <= multiset(s)
    ensures forall i :: 0 <= i < |v| ==> p(v[i])
    ensures forall x :: x in s && p(x) ==> x in v
  {
    var selected := Filter(s, p);
    assert |v| == |multiset(v)| == |multiset(selected)| == |selected|;
    forall x | x in s && p(x) ensures x in v {
      assert x in multiset(v);
    }
    forall i | 0 <= i < |v| ensures p(v[i]) {
      assert v[i] in multiset(selected);
      var k :| 0 <= k < |selected| && selected[k] == v[i];
    }
  }

  /** Two predicates that agree on every element select the same elements. */
  lemma {:induction false} FilterExt<T>(s: seq<T>, p: T -> bool, q: T -> bool)
    requires forall x :: x in s ==> p(x) == q(x)
    ensures Filter(s, p) == Filter(s, q)
  {
    if s != [] {
      assert forall x :: x in s[1..] ==> x in s;
      FilterExt(s[1..], p, q);
    }
  }

  /** Filtering by `p` and then by `q` is filtering once by their conjunction `pq`. */
  lemma {:induction false} FilterFilter<T>(s: seq<T>, p: T -> bool, q: T -> bool, pq: T -> bool)
    requires forall x :: x in s ==> pq(x) == (p(x) && q(x))
    ensures Filter(Filter(s, p), q) == Filter(s, pq)
  {
    if s != [] {
      assert forall x :: x in s[1..] ==> x in s;
      FilterFilter(s[1..], p, q, pq);
      assert Filter(s, p) == (if p(s[0]) then [s[0]] else []) + Filter(s[1..], p);
      FilterAppend(if p(s[0]) then [s[0]] else [], Filter(s[1..], p), q);
    }
  }

  /** Filtering twice by the same predicate is filtering once. */
  lemma FilterIdempotent<T>(s: seq<T>, p: T -> bool)
    ensures Filter(Filter(s, p), p) == Filter(s, p)
  {
    FilterAll(Filter(s, p), p);
  }

  /** `s.some(p)`. */
  predicate Exists<T>(s: seq<T>, p: T -> bool)
  {
    exists i :: 0 <= i < |s| && p(s[i])
  }

  /** The number of elements satisfying `p`: `s.filter(p).length`. */
  function Count<T>(s: seq<T>, p: T -> bool): (n: nat)
    ensures n <= |s|
  {
    if s == [] then 0 else (if p(s[0]) then 1 else 0) + Count(s[1..], p)
  }

  /** Counting is the length of the filtered list. */
  lemma {:induction false} CountIsFilterLength<T>(s: seq<T>, p: T -> bool)
    ensures Count(s, p) == |Filter(s, p)|
  {
    if s != [] {
      CountIsFilterLength(s[1..], p);
    }
  }

  /** Counting the elements equal to `x` gives the number of times `x` occurs. */
  lemma {:induction false} CountIsMultiplicity<T>(s: seq<T>, x: T, p: T -> bool)
    requires forall y :: p(y) <==> y == x
    ensures Count(s, p) == multiset(s)[x]
  {
    if s != [] {
      CountIsMultiplicity(s[1..], x, p);
      assert s == [s[0]] + s[1..];
      assert multiset(s) == multiset{s[0]} + multiset(s[1..]);
    }
  }

  lemma CountFour<T>(a: T, b: T, c: T, d: T, p: T -> bool)
    ensures Count([a, b, c, d], p)
         == (if p(a) then 1 else 0) + (if p(b) then 1 else 0) + (if p(c) then 1 else 0) + (if p(d) then 1 else 0)
  {
    assert [a, b, c, d][1..] == [b, c, d];
    assert [b, c, d][1..] == [c, d];
    assert [c, d][1..] == [d];
    assert [d][1..] == [];
    assert Count([d], p) == (if p(d) then 1 else 0) + Count([], p);
    assert Count([c, d], p) == (if p(c) then 1 else 0) + Count([d], p);
    assert Count([b, c, d], p) == (if p(b) then 1 else 0) + Count([c, d], p);
  }

  /** `s.reduce((sum, x) => sum + f(x), 0)`. */
  function Sum<T>(s: seq<T>, f: T -> int): int
  {
    if s == [] then 0 else Sum(s[..|s| - 1], f) + f(s[|s| - 1])
  }

  lemma {:induction false} SumAppend<T>(a: seq<T>, b: seq<T>, f: T -> int)
    ensures Sum(a + b, f) == Sum(a, f) + Sum(b, f)
    decreases |b|
  {
    if b == [] {
      assert a + b == a;
    } else {
      assert (a + b)[..|a + b| - 1] == a + b[..|b| - 1];
      SumAppend(a, b[..|b| - 1], f);
    }
  }

  /** A sum of terms that are all zero is zero. */
  lemma {:induction false} SumZero<T>(s: seq<T>, f: T -> int)
    requires forall x :: x in s ==> f(x) == 0
    ensures Sum(s, f) == 0
  {
    if s != [] {
      assert forall x :: x in s[..|s| - 1] ==> x in s;
      SumZero(s[..|s| - 1], f);
    }
  }

  /** A sum of non-negative terms is non-negative. */
  lemma {:induction false} SumNonNegative<T>(s: seq<T>, f: T -> int)
    requires forall x :: x in s ==> f(x) >= 0
    ensures Sum(s, f) >= 0
  {
    if s != [] {
      assert forall x :: x in s[..|s| - 1] ==> x in s;
      SumNonNegative(s[..|s| - 1], f);
    }
  }

  /** Non-decreasing by `key`. */
  predicate SortedBy<T>(s: seq<T>, key: T -> int)
  {
    forall i, j :: 0 <= i < j < |s| ==> key(s[i]) <= key(s[j])
  }

  /**
   * `x` placed before the first element whose key is not smaller, so that it stays ahead of
   * the elements with an equal key that came after it in the input.
   */
  function Insert<T>(x: T, t: seq<T>, key: T -> int): (r: seq<T>)
    requires SortedBy(t, key)
    ensures SortedBy(r, key)
    ensures multiset(r) == multiset(t) + multiset{x}
  {
    if t == [] || key(x) <= key(t[0]) then
      SortedCons(x, t, key);
      [x] + t
    else
      var rest := Insert(x, t[1..], key);
      HeadSplit(t);
      assert forall y :: y in rest ==> key(t[0]) <= key(y) by {
        forall y | y in rest ensures key(t[0]) <= key(y) {
          assert y in multiset(rest);
        }
      }
      SortedCons(t[0], rest, key);
      [t[0]] + rest
  }

  /** A sequence is its head followed by its tail, as a multiset too. */
  lemma HeadSplit<T>(t: seq<T>)
    requires t != []
    ensures multiset(t) == multiset{t[0]} + multiset(t[1..])
  {
    assert t == [t[0]] + t[1..];
  }

  /** Putting an element no larger than any other in front of a sorted sequence keeps it sorted. */
  lemma SortedCons<T>(h: T, t: seq<T>, key: T -> int)
    requires SortedBy(t, key)
    requires forall y :: y in t ==> key(h) <= key(y)
    ensures SortedBy([h] + t, key)
  {
    var s := [h] + t;
    forall i, j | 0 <= i < j < |s| ensures key(s[i]) <= key(s[j]) {
      assert s[j] == t[j - 1];
      if i > 0 {
        assert s[i] == t[i - 1];
      } else {
        assert t[j - 1] in t;
      }
    }
  }

  /** `s.sort((a, b) => key(a) - key(b))`: a stable sort, ascending by `key`. */
  function SortBy<T>(s: seq<T>, key: T -> int): (r: seq<T>)
    ensures SortedBy(r, key)
    ensures multiset(r) == multiset(s)
    ensures |r| == |s|
  {
    if s == [] then []
    else
      assert s == [s[0]] + s[1..];
      Insert(s[0], SortBy(s[1..], key), key)
  }

  /** The elements of a sorted sequence are those it sorted. */
  lemma SortByMembers<T>(s: seq<T>, key: T -> int, x: T)
    ensures x in SortBy(s, key) <==> x in s
  {
    assert x in SortBy(s, key) <==> x in multiset(SortBy(s, key));
  }
}
