/**
 * Python's `sorted(...)` and `list.sort(key=..., reverse=...)`: a stable sort
 * by a comparison `le` ("a may come before b"). Insertion sort is used as the
 * reference definition; the lemmas give what Python guarantees of its sort:
 * the result is a permutation, it is ordered, it is stable, and for a total
 * order it is the only ordered permutation.
 */
module Sorting {

  /** `le` is total and transitive on the values of type T. */
  ghost predicate TotalPreorder<T(!new)>(le: (T, T) -> bool) {
    && (forall a, b :: le(a, b) || le(b, a))
    && (forall a, b, c :: le(a, b) && le(b, c) ==> le(a, c))
  }

  /** `le` is also antisymmetric: a total order. */
  ghost predicate TotalOrder<T(!new)>(le: (T, T) -> bool) {
    TotalPreorder(le) && forall a, b :: le(a, b) && le(b, a) ==> a == b
  }

  predicate SortedBy<T>(s: seq<T>, le: (T, T) -> bool) {
    forall i, j :: 0 <= i < j < |s| ==> le(s[i], s[j])
  }

  /** The elements of `s` that satisfy `p`, in order. */
  function Filter<T>(s: seq<T>, p: T -> bool): (r: seq<T>)
    ensures |r| <= |s|
    ensures forall i :: 0 <= i < |r| ==> p(r[i])
  {
    if s == [] then []
    else
      if p(s[0]) then [s[0]] + Filter(s[1..], p) else Filter(s[1..], p)
  }

  lemma {:induction false} FilterAppend<T>(a: seq<T>, b: seq<T>, p: T -> bool)
    ensures Filter(a + b, p) == Filter(a, p) + Filter(b, p)
  {
    if a != [] {
      var x, rest := a[0], a[1..];
      assert a == [x] + rest;
      FilterAppend(rest, b, p);
      assert a + b == [x] + (rest + b);
      FilterCons(x, rest + b, p);
      FilterCons(x, rest, p);
    } else {
      assert a + b == b;
    }
  }

  /**
   * `idx` embeds `r` in `s`: it picks, in increasing order, positions of `s`
   * holding the elements of `r` one by one.
   */
  ghost predicate Embeds<T>(idx: seq<nat>, r: seq<T>, s: seq<T>) {
    && |idx| == |r|
    && (forall k :: 0 <= k < |idx| ==> idx[k] < |s| && s[idx[k]] == r[k])
    && (forall k, l :: 0 <= k < l < |idx| ==> idx[k] < idx[l])
  }

  /** `r` is an order-preserving subsequence of `s`. */
  ghost predicate IsSubsequence<T>(r: seq<T>, s: seq<T>) {
    exists idx :: Embeds(idx, r, s)
  }

  /** The positions `Filter` keeps, in order. */
  lemma {:induction false} FilterEmbeds<T>(s: seq<T>, p: T -> bool) returns (idx: seq<nat>)
    ensures Embeds(idx, Filter(s, p), s)
  {
    if s == [] {
      idx := [];
    } else {
      var sub := FilterEmbeds(s[1..], p);
      var shifted := ShiftEmbeds(sub, Filter(s[1..], p), s[0], s[1..]);
      FilterCons(s[0], s[1..], p);
      assert s == [s[0]] + s[1..];
      idx := if p(s[0]) then [0] + shifted else shifted;
    }
  }

  /** An embedding into `t` shifts to one into `[x] + t`, which may also place `x` first. */
  lemma {:induction false} ShiftEmbeds<T>(sub: seq<nat>, r: seq<T>, x: T, t: seq<T>) returns (shifted: seq<nat>)
    requires Embeds(sub, r, t)
    ensures Embeds(shifted, r, [x] + t) && Embeds([0] + shifted, [x] + r, [x] + t)
  {
    shifted := seq(|sub|, k requires 0 <= k < |sub| => sub[k] + 1);
    assert forall k :: 0 <= k < |sub| ==> ([x] + t)[shifted[k]] == t[sub[k]];
  }

  /** `Filter` keeps an order-preserving subsequence of its input. */
  lemma FilterSubsequence<T>(s: seq<T>, p: T -> bool)
    ensures IsSubsequence(Filter(s, p), s)
  {
    var idx := FilterEmbeds(s, p);
  }

  /** Every element satisfying `p` is kept. */
  lemma {:induction false} FilterKeeps<T>(s: seq<T>, p: T -> bool, x: T)
    requires x in s && p(x)
    ensures x in Filter(s, p)
  {
    if s[0] != x {
      FilterKeeps(s[1..], p, x);
    }
  }

  /** Every element `Filter` keeps comes from the input. */
  lemma {:induction false} FilterSubset<T>(s: seq<T>, p: T -> bool, x: T)
    requires x in Filter(s, p)
    ensures x in s && p(x)
  {
    if s[0] != x || !p(s[0]) {
      FilterSubset(s[1..], p, x);
    }
  }

  /** Filtering one more element of a prefix. */
  lemma FilterSnoc<T>(s: seq<T>, i: nat, p: T -> bool)
    requires i < |s|
    ensures Filter(s[..i + 1], p) == Filter(s[..i], p) + (if p(s[i]) then [s[i]] else [])
  {
    assert s[..i + 1] == s[..i] + [s[i]];
    FilterAppend(s[..i], [s[i]], p);
    assert Filter([s[i]], p) == (if p(s[i]) then [s[i]] else []) + Filter([s[i]][1..], p);
  }

  /** Nothing passes the test: nothing is kept. */
  lemma {:induction false} FilterNone<T>(s: seq<T>, p: T -> bool)
    requires forall x :: x in s ==> !p(x)
    ensures Filter(s, p) == []
  {
    if s != [] {
      assert forall x :: x in s[1..] ==> x in s;
      FilterNone(s[1..], p);
    }
  }

  /** Insert `x` before the first element it may precede. */
  function InsertBy<T>(x: T, s: seq<T>, le: (T, T) -> bool): (r: seq<T>)
    ensures multiset(r) == multiset(s) + multiset{x}
    ensures |r| == |s| + 1
  {
    if s == [] || le(x, s[0]) then [x] + s
    else
      assert s == [s[0]] + s[1..];
      [s[0]] + InsertBy(x, s[1..], le)
  }

  /** Stable insertion sort. */
  function SortBy<T>(s: seq<T>, le: (T, T) -> bool): (r: seq<T>)
    ensures multiset(r) == multiset(s)
    ensures |r| == |s|
  {
    if s == [] then []
    else
      assert s == [s[0]] + s[1..];
      InsertBy(s[0], SortBy(s[1..], le), le)
  }

  lemma {:induction false} InsertBySorted<T(!new)>(x: T, s: seq<T>, le: (T, T) -> bool)
    requires TotalPreorder(le) && SortedBy(s, le)
    ensures SortedBy(InsertBy(x, s, le), le)
  {
    if s != [] && !le(x, s[0]) {
      InsertBySorted(x, s[1..], le);
      var r := InsertBy(x, s[1..], le);
      assert le(s[0], x);
      forall k | 0 <= k < |r| ensures le(s[0], r[k]) {
        assert r[k] in multiset(s[1..]) + multiset{x};
        if r[k] != x {
          assert r[k] in s[1..];
        }
      }
    }
  }

  /** The result of `SortBy` is ordered. */
  lemma {:induction false} SortBySorted<T(!new)>(s: seq<T>, le: (T, T) -> bool)
    requires TotalPreorder(le)
    ensures SortedBy(SortBy(s, le), le)
  {
    if s != [] {
      SortBySorted(s[1..], le);
      InsertBySorted(s[0], SortBy(s[1..], le), le);
    }
  }

  /** `Filter` on a list with a known first element. */
  lemma FilterCons<T>(x: T, s: seq<T>, p: T -> bool)
    ensures Filter([x] + s, p) == (if p(x) then [x] else []) + Filter(s, p)
  {
    assert ([x] + s)[1..] == s;
  }

  lemma {:induction false} InsertByFilter<T>(x: T, s: seq<T>, le: (T, T) -> bool, p: T -> bool)
    requires forall b :: b in s && p(x) && p(b) ==> le(x, b)
    ensures Filter(InsertBy(x, s, le), p) == (if p(x) then [x] else []) + Filter(s, p)
  {
    if s == [] || le(x, s[0]) {
      FilterCons(x, s, p);
    } else {
      var y, rest := s[0], s[1..];
      assert s == [y] + rest;
      var r := InsertBy(x, rest, le);
      assert InsertBy(x, s, le) == [y] + r;
      InsertByFilter(x, rest, le, p);
      FilterCons(y, r, p);
      FilterCons(y, rest, p);
      assert !p(y) || !p(x);
    }
  }

  /**
   * Stability: among elements that `le` cannot tell apart (a class `p` whose
   * members may each precede the other), the sort keeps the input order.
   */
  lemma {:induction false} SortByStable<T>(s: seq<T>, le: (T, T) -> bool, p: T -> bool)
    requires forall a, b :: a in s && b in s && p(a) && p(b) ==> le(a, b)
    ensures Filter(SortBy(s, le), p) == Filter(s, p)
  {
    if s != [] {
      var x, rest := s[0], s[1..];
      assert forall a :: a in rest ==> a in s;
      SortByStable(rest, le, p);
      var t := SortBy(rest, le);
      forall b | b in t && p(x) && p(b) ensures le(x, b) {
        assert b in multiset(rest);
        assert b in s;
      }
      InsertByFilter(x, t, le, p);
      assert Filter(s, p) == (if p(x) then [x] else []) + Filter(rest, p);
    }
  }

  /** For a total order there is only one ordered permutation. */
  lemma {:induction false} SortedUnique<T(!new)>(a: seq<T>, b: seq<T>, le: (T, T) -> bool)
    requires TotalOrder(le)
    requires SortedBy(a, le) && SortedBy(b, le) && multiset(a) == multiset(b)
    ensures a == b
  {
    if a != [] {
      SameHead(a, b, le);
      TailMultiset(a, b);
      assert a == [a[0]] + a[1..] && b == [b[0]] + b[1..];
      SortedUnique(a[1..], b[1..], le);
    }
  }

  /** Two arrangements of the same elements with the same head agree after it. */
  lemma {:induction false} TailMultiset<T>(a: seq<T>, b: seq<T>)
    requires a != [] && b != [] && a[0] == b[0] && multiset(a) == multiset(b)
    ensures multiset(a[1..]) == multiset(b[1..])
  {
    assert a == [a[0]] + a[1..] && b == [b[0]] + b[1..];
    assert multiset(a[1..]) == multiset(a) - multiset{a[0]};
    assert multiset(b[1..]) == multiset(b) - multiset{b[0]};
  }

  /** Two ordered arrangements of the same non-empty multiset start with the same element. */
  lemma {:induction false} SameHead<T(!new)>(a: seq<T>, b: seq<T>, le: (T, T) -> bool)
    requires TotalOrder(le) && a != []
    requires SortedBy(a, le) && SortedBy(b, le) && multiset(a) == multiset(b)
    ensures b != [] && a[0] == b[0]
  {
    assert a[0] in multiset(b);
    var j :| 0 <= j < |b| && b[j] == a[0];
    assert b[0] in multiset(a);
    var i :| 0 <= i < |a| && a[i] == b[0];
    assert le(a[0], b[0]) by {
      assert i == 0 || le(a[0], a[i]);
    }
    assert le(b[0], a[0]) by {
      assert j == 0 || le(b[0], b[j]);
    }
  }

  /** Sorting by a total order does not depend on the input's order. */
  lemma SortByPermutationInvariant<T(!new)>(a: seq<T>, b: seq<T>, le: (T, T) -> bool)
    requires TotalOrder(le) && multiset(a) == multiset(b)
    ensures SortBy(a, le) == SortBy(b, le)
  {
    SortBySorted(a, le);
    SortBySorted(b, le);
    SortedUnique(SortBy(a, le), SortBy(b, le), le);
  }

  /** `[f(x) for x in s]`. */
  function Map<S, T>(s: seq<S>, f: S -> T): (r: seq<T>)
    ensures |r| == |s| && forall i :: 0 <= i < |s| ==> r[i] == f(s[i])
  {
    seq(|s|, i requires 0 <= i < |s| => f(s[i]))
  }

  /** Mapping two arrangements of the same elements gives two arrangements of the same images. */
  lemma {:induction false} MapPermutation<S, T>(a: seq<S>, b: seq<S>, f: S -> T)
    requires multiset(a) == multiset(b)
    ensures multiset(Map(a, f)) == multiset(Map(b, f))
    decreases |a|
  {
    if a == [] {
      assert |b| == |multiset(b)| == 0;
    } else {
      var k := RemoveLast(a, b);
      var rest := b[..k] + b[k + 1..];
      MapPermutation(a[..|a| - 1], rest, f);
      MapRemove(a, |a| - 1, f);
      MapRemove(b, k, f);
      assert a[..|a| - 1] + a[|a|..] == a[..|a| - 1];
    }
  }

  /** The last element of `a` sits somewhere in a rearrangement `b`; without it the two still agree. */
  lemma {:induction false} RemoveLast<S>(a: seq<S>, b: seq<S>) returns (k: nat)
    requires a != [] && multiset(a) == multiset(b)
    ensures k < |b| && b[k] == a[|a| - 1]
    ensures multiset(a[..|a| - 1]) == multiset(b[..k] + b[k + 1..])
  {
    var x := a[|a| - 1];
    assert a == a[..|a| - 1] + [x];
    assert x in multiset(b);
    k :| 0 <= k < |b| && b[k] == x;
    RemoveAt(b, k);
  }

  /** Mapping a sequence with the element at `k` taken out loses that element's image. */
  lemma {:induction false} MapRemove<S, T>(b: seq<S>, k: nat, f: S -> T)
    requires k < |b|
    ensures multiset(Map(b, f)) == multiset(Map(b[..k] + b[k + 1..], f)) + multiset{f(b[k])}
  {
    var b1, x, b2 := b[..k], b[k], b[k + 1..];
    assert b == b1 + [x] + b2;
    MapAppend(b1 + [x], b2, f);
    MapAppend(b1, [x], f);
    MapAppend(b1, b2, f);
    assert Map([x], f) == [f(x)];
  }

  /** Taking out the element at `k`. */
  lemma RemoveAt<T>(b: seq<T>, k: nat)
    requires k < |b|
    ensures b == b[..k] + [b[k]] + b[k + 1..]
    ensures multiset(b[..k] + b[k + 1..]) == multiset(b) - multiset{b[k]}
  {
    assert b == b[..k] + [b[k]] + b[k + 1..];
    assert multiset(b) == multiset(b[..k]) + multiset{b[k]} + multiset(b[k + 1..]);
  }

  lemma MapAppend<S, T>(a: seq<S>, b: seq<S>, f: S -> T)
    ensures Map(a + b, f) == Map(a, f) + Map(b, f)
  {
  }

  /** Every element passes the test: everything is kept. */
  lemma {:induction false} FilterAll<T>(s: seq<T>, p: T -> bool)
    requires forall x :: x in s ==> p(x)
    ensures Filter(s, p) == s
  {
    if s != [] {
      assert forall x :: x in s[1..] ==> x in s;
      FilterAll(s[1..], p);
    }
  }

  /** Every element `Filter` keeps passes the test. */
  lemma FilterPasses<T>(s: seq<T>, p: T -> bool)
    ensures forall x :: x in Filter(s, p) ==> p(x)
  {
    var r := Filter(s, p);
    forall x | x in r ensures p(x) {
      var i :| 0 <= i < |r| && r[i] == x;
    }
  }

  /**
   * Two tests that no element passes both of split what a third one, their
   * union, keeps.
   */
  lemma {:induction false} FilterUnion<T>(s: seq<T>, p: T -> bool, q: T -> bool, r: T -> bool)
    requires forall x :: r(x) == (p(x) || q(x)) && !(p(x) && q(x))
    ensures multiset(Filter(s, r)) == multiset(Filter(s, p)) + multiset(Filter(s, q))
  {
    if s != [] {
      FilterUnion(s[1..], p, q, r);
      FilterUnionStep(s[0], s[1..], p, q, r);
      assert s == [s[0]] + s[1..];
    }
  }

  /** One more element in front goes to `r`'s side exactly when it goes to one of `p`'s and `q`'s. */
  lemma {:induction false} FilterUnionStep<T>(x: T, t: seq<T>, p: T -> bool, q: T -> bool, r: T -> bool)
    requires r(x) == (p(x) || q(x)) && !(p(x) && q(x))
    requires multiset(Filter(t, r)) == multiset(Filter(t, p)) + multiset(Filter(t, q))
    ensures multiset(Filter([x] + t, r)) == multiset(Filter([x] + t, p)) + multiset(Filter([x] + t, q))
  {
    FilterCons(x, t, p);
    FilterCons(x, t, q);
    FilterCons(x, t, r);
    if p(x) {
      assert multiset(Filter([x] + t, r)) == multiset{x} + multiset(Filter(t, r));
      assert multiset(Filter([x] + t, p)) == multiset{x} + multiset(Filter(t, p));
    } else if q(x) {
      assert multiset(Filter([x] + t, r)) == multiset{x} + multiset(Filter(t, r));
      assert multiset(Filter([x] + t, q)) == multiset{x} + multiset(Filter(t, q));
    }
  }

  /** No element occurs twice. */
  predicate Distinct<T(==)>(s: seq<T>) {
    forall i, j :: 0 <= i < j < |s| ==> s[i] != s[j]
  }

  /** A sequence without repeats has no element twice in its multiset. */
  lemma {:induction false} DistinctCounts<T>(s: seq<T>)
    requires Distinct(s)
    ensures forall x :: multiset(s)[x] <= 1
  {
    if s != [] {
      var init, y := s[..|s| - 1], s[|s| - 1];
      assert s == init + [y];
      DistinctCounts(init);
      assert y !in init by {
        assert forall i :: 0 <= i < |init| ==> init[i] == s[i];
      }
    }
  }

  /** A sequence with no element twice in its multiset has no repeats. */
  lemma CountsDistinct<T>(s: seq<T>)
    requires forall x :: multiset(s)[x] <= 1
    ensures Distinct(s)
  {
    forall i, j | 0 <= i < j < |s| ensures s[i] != s[j] {
      assert s == s[..j] + [s[j]] + s[j + 1..];
      assert multiset(s) == multiset(s[..j]) + multiset{s[j]} + multiset(s[j + 1..]);
      assert s[i] == s[..j][i];
      assert multiset(s[..j])[s[i]] >= 1;
      assert multiset(s)[s[j]] >= multiset(s[..j])[s[j]] + 1;
    }
  }
}
