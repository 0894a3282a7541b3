/**
 * Generic facts about the list operations the pipeline is built from:
 * filtering (`ArrayList.add` under a condition), mapping, subsequences,
 * and turning a `HashSet` into a list in an unspecified order.
 */
module Seqs {

  /** The elements of `s` that satisfy `p`, in their original order. */
  function Filter<T>(s: seq<T>, p: T -> bool): (r: seq<T>)
    ensures |r| <= |s|
    ensures forall x :: x in r ==> x in s && p(x)
    ensures forall x :: x in s && p(x) ==> x in r
    decreases |s|
  {
    if s == [] then []
    else Filter(s[..|s| - 1], p) + (if p(s[|s| - 1]) then [s[|s| - 1]] else [])
  }

  lemma {:induction false} FilterAppend<T>(a: seq<T>, b: seq<T>, p: T -> bool)
    ensures Filter(a + b, p) == Filter(a, p) + Filter(b, p)
    decreases |b|
  {
    if b == [] {
      assert a + b == a;
    } else {
      var b', x := b[..|b| - 1], b[|b| - 1];
      assert a + b == (a + b') + [x] && b == b' + [x];
      FilterAppend(a, b', p);
      FilterSnoc(a + b', x, p);
      FilterSnoc(b', x, p);
    }
  }

  /** Filtering a list with one more element at the end. */
  lemma FilterSnoc<T>(s: seq<T>, x: T, p: T -> bool)
    ensures Filter(s + [x], p) == Filter(s, p) + (if p(x) then [x] else [])
  {
    assert (s + [x])[..|s|] == s;
  }


  /** Filtering keeps every copy of a selected element and no copy of the others. */
  lemma {:induction false} FilterCount<T>(s: seq<T>, p: T -> bool, x: T)
    ensures multiset(Filter(s, p))[x] == if p(x) then multiset(s)[x] else 0
    decreases |s|
  {
    if s != [] {
      var init := s[..|s| - 1];
      assert s == init + [s[|s| - 1]];
      FilterCount(init, p, x);
    }
  }

  lemma FilterMultisetLe<T>(s: seq<T>, p: T -> bool)
    ensures multiset(Filter(s, p)) <= multiset(s)
  {
    forall x ensures multiset(Filter(s, p))[x] <= multiset(s)[x] {
      FilterCount(s, p, x);
    }
  }

  /** A list all of whose elements pass the filter is its own filtering. */
  lemma {:induction false} FilterAll<T>(s: seq<T>, p: T -> bool)
    requires forall x :: x in s ==> p(x)
    ensures Filter(s, p) == s
    decreases |s|
  {
    if s != [] {
      var init := s[..|s| - 1];
      assert s == init + [s[|s| - 1]];
      FilterAll(init, p);
    }
  }

  /** `a` can be obtained from `b` by deleting elements. */
  predicate IsSubsequence<T(==)>(a: seq<T>, b: seq<T>)
    decreases |b|
  {
    if a == [] then true
    else if b == [] then false
    else if a[|a| - 1] == b[|b| - 1] then IsSubsequence(a[..|a| - 1], b[..|b| - 1])
    else IsSubsequence(a, b[..|b| - 1])
  }

  lemma {:induction false} FilterIsSubsequence<T>(s: seq<T>, p: T -> bool)
    ensures IsSubsequence(Filter(s, p), s)
    decreases |s|
  {
    if s != [] {
      var init := s[..|s| - 1];
      FilterIsSubsequence(init, p);
      var r := Filter(s, p);
      if !p(s[|s| - 1]) {
        assert r == Filter(init, p);
        if r != [] {
          assert r[|r| - 1] in r;
          assert r[|r| - 1] != s[|s| - 1];
        }
      } else {
        assert r == Filter(init, p) + [s[|s| - 1]];
        assert r[..|r| - 1] == Filter(init, p);
      }
    }
  }

  /** A subsequence of `b` is a subsequence of `b` extended at the end. */
  lemma {:induction false} SubsequenceExtend<T>(a: seq<T>, b: seq<T>, y: T)
    requires IsSubsequence(a, b)
    ensures IsSubsequence(a, b + [y])
    decreases |b|, 1
  {
    assert (b + [y])[..|b|] == b;
    if a != [] && a[|a| - 1] == y {
      SubsequenceDropLast(a, b);
    }
  }

  /** Dropping the last element of a subsequence leaves a subsequence. */
  lemma {:induction false} SubsequenceDropLast<T>(a: seq<T>, b: seq<T>)
    requires a != [] && IsSubsequence(a, b)
    ensures IsSubsequence(a[..|a| - 1], b)
    decreases |b|, 0
  {
    var b' := b[..|b| - 1];
    assert b == b' + [b[|b| - 1]];
    if a[|a| - 1] == b[|b| - 1] {
      SubsequenceExtend(a[..|a| - 1], b', b[|b| - 1]);
    } else {
      SubsequenceDropLast(a, b');
      SubsequenceExtend(a[..|a| - 1], b', b[|b| - 1]);
    }
  }

  /** Keeping some elements, then mapping, gives a subsequence of the mapped list. */
  lemma {:induction false} MapFilterSubsequence<A, B>(xs: seq<A>, p: A -> bool, f: A -> B)
    ensures IsSubsequence(Map(Filter(xs, p), f), Map(xs, f))
    decreases |xs|
  {
    if xs != [] {
      var init, last := xs[..|xs| - 1], xs[|xs| - 1];
      MapFilterSubsequence(init, p, f);
      var a := Map(Filter(init, p), f);
      var b := Map(init, f);
      Unsnoc(xs);
      MapSnoc(init, last, f);
      FilterSnoc(init, last, p);
      if p(last) {
        MapSnoc(Filter(init, p), last, f);
        SubsequenceBoth(a, b, f(last));
      } else {
        assert Filter(init, p) + [] == Filter(init, p);
        SubsequenceExtend(a, b, f(last));
      }
    }
  }

  /** A list is its first `n` elements and the rest. */
  lemma TakeDrop<T>(s: seq<T>, n: nat)
    requires n <= |s|
    ensures s == s[..n] + s[n..]
  {
  }

  /** A non-empty list is the list without its last element, and that element. */
  lemma Unsnoc<A>(s: seq<A>)
    requires s != []
    ensures s == s[..|s| - 1] + [s[|s| - 1]]
  {
  }

  /** Mapping a list with one more element at the end. */
  lemma MapSnoc<A, B>(s: seq<A>, x: A, f: A -> B)
    ensures Map(s + [x], f) == Map(s, f) + [f(x)]
  {
    assert (s + [x])[..|s|] == s;
  }

  /** Appending the same element to both lists keeps a subsequence one. */
  lemma SubsequenceBoth<T>(a: seq<T>, b: seq<T>, y: T)
    requires IsSubsequence(a, b)
    ensures IsSubsequence(a + [y], b + [y])
  {
    assert (a + [y])[..|a|] == a;
    assert (b + [y])[..|b|] == b;
  }


  /** Every element of a subsequence is an element of the list. */
  lemma {:induction false} SubsequenceMembers<T>(a: seq<T>, b: seq<T>, x: T)
    requires IsSubsequence(a, b) && x in a
    ensures x in b
    decreases |b|
  {
    var b' := b[..|b| - 1];
    if a[|a| - 1] == b[|b| - 1] {
      if x != a[|a| - 1] {
        assert a == a[..|a| - 1] + [a[|a| - 1]];
        SubsequenceMembers(a[..|a| - 1], b', x);
      }
    } else {
      SubsequenceMembers(a, b', x);
    }
  }

  /** A prefix is the shorter prefix and one more element. */
  lemma TakeSnoc<T>(s: seq<T>, n: nat)
    requires 0 < n <= |s|
    ensures s[..n] == s[..n - 1] + [s[n - 1]]
  {
  }

  /** Filtering one more element of a prefix. */
  lemma FilterTakeSnoc<T>(s: seq<T>, i: nat, p: T -> bool)
    requires i < |s|
    ensures Filter(s[..i + 1], p) == Filter(s[..i], p) + (if p(s[i]) then [s[i]] else [])
  {
    assert s[..i + 1][..i] == s[..i];
  }

  /** No element occurs twice. */
  predicate Distinct<T(==)>(s: seq<T>) {
    forall i, j :: 0 <= i < j < |s| ==> s[i] != s[j]
  }

  /** A list without repetitions counts each of its elements once. */
  lemma {:induction false} DistinctMultiset<T>(xs: seq<T>)
    requires Distinct(xs)
    ensures multiset(xs) == multiset(set x | x in xs)
    decreases |xs|
  {
    if xs != [] {
      var init := xs[..|xs| - 1];
      var x := xs[|xs| - 1];
      assert xs == init + [x];
      DistinctMultiset(init);
      assert x !in init;
      assert (set y | y in xs) == (set y | y in init) + {x};
    }
  }

  /**
   * The copy `new ArrayList<>(set)`: every element of the set once,
   * in an order the caller may not rely on.
   */
  method ListOfSet<T>(s: set<T>) returns (xs: seq<T>)
    ensures Distinct(xs)
    ensures (set x | x in xs) == s
    ensures multiset(xs) == multiset(s)
  {
    xs := [];
    var rest := s;
    while rest != {}
      invariant Distinct(xs)
      invariant (set x | x in xs) + rest == s
      invariant forall x :: x in xs ==> x !in rest
      decreases rest
    {
      var x :| x in rest;
      xs := xs + [x];
      rest := rest - {x};
    }
    DistinctMultiset(xs);
  }

  /** `f` applied to every element, in order. */
  function Map<A, B>(xs: seq<A>, f: A -> B): (r: seq<B>)
    ensures |r| == |xs|
    ensures forall i :: 0 <= i < |xs| ==> r[i] == f(xs[i])
    decreases |xs|
  {
    if xs == [] then [] else Map(xs[..|xs| - 1], f) + [f(xs[|xs| - 1])]
  }

  lemma MapAppend<A, B>(a: seq<A>, b: seq<A>, f: A -> B)
    ensures Map(a + b, f) == Map(a, f) + Map(b, f)
  {
  }

  /** Two orderings of the same elements map to two orderings of the same images. */
  lemma {:induction false} MapPermutation<A, B>(xs: seq<A>, ys: seq<A>, f: A -> B)
    requires multiset(xs) == multiset(ys)
    ensures multiset(Map(xs, f)) == multiset(Map(ys, f))
    decreases |xs|
  {
    if xs == [] {
      assert |ys| == |multiset(ys)| == 0;
    } else {
      var x := xs[0];
      assert x in multiset(ys);
      var k :| 0 <= k < |ys| && ys[k] == x;
      var ys' := ys[..k] + ys[k + 1..];
      RemoveAt(ys, k, f);
      MapHead(xs, f);
      MapPermutation(xs[1..], ys', f);
    }
  }

  /** Taking out the element at `k`, before and after mapping. */
  lemma RemoveAt<A, B>(ys: seq<A>, k: nat, f: A -> B)
    requires k < |ys|
    ensures multiset(ys[..k] + ys[k + 1..]) == multiset(ys) - multiset{ys[k]}
    ensures multiset(Map(ys, f)) == multiset(Map(ys[..k] + ys[k + 1..], f)) + multiset{f(ys[k])}
  {
    var a, y, c := ys[..k], ys[k], ys[k + 1..];
    Around(ys, k);
    MultisetSplit(a, y, c);
    MapAround(a, y, c, f);
    MultisetSplit(Map(a, f), f(y), Map(c, f));
  }

  /** Mapping a list with one more element in front. */
  lemma MapCons<A, B>(x: A, s: seq<A>, f: A -> B)
    ensures Map([x] + s, f) == [f(x)] + Map(s, f)
    ensures multiset(s) == multiset([x] + s) - multiset{x}
  {
    MapAppend([x], s, f);
    assert multiset([x] + s) == multiset{x} + multiset(s);
  }

  /** Mapping a non-empty list maps its first element and then the rest. */
  lemma MapHead<A, B>(s: seq<A>, f: A -> B)
    requires s != []
    ensures Map(s, f) == [f(s[0])] + Map(s[1..], f)
    ensures multiset(s[1..]) == multiset(s) - multiset{s[0]}
  {
    Uncons(s);
    MapCons(s[0], s[1..], f);
  }

  /** A non-empty list is its first element and the rest. */
  lemma Uncons<A>(s: seq<A>)
    requires s != []
    ensures s == [s[0]] + s[1..]
  {
  }

  /** A list is what comes before position `k`, the element there, and what follows. */
  lemma Around<A>(ys: seq<A>, k: nat)
    requires k < |ys|
    ensures ys == ys[..k] + [ys[k]] + ys[k + 1..]
  {
  }

  /** Mapping around one element. */
  lemma MapAround<A, B>(a: seq<A>, y: A, c: seq<A>, f: A -> B)
    ensures Map(a + [y] + c, f) == Map(a, f) + [f(y)] + Map(c, f)
    ensures Map(a + c, f) == Map(a, f) + Map(c, f)
  {
    MapAppend(a + [y], c, f);
    MapAppend(a, [y], f);
    MapAppend(a, c, f);
  }


  /** The multiset of `a + [y] + c` is that of `a + c` and one more `y`. */
  lemma MultisetSplit<T>(a: seq<T>, y: T, c: seq<T>)
    ensures multiset(a + [y] + c) == multiset(a + c) + multiset{y}
    ensures multiset(a + c) == multiset(a + [y] + c) - multiset{y}
  {
    assert multiset(a + [y] + c) == multiset(a) + multiset{y} + multiset(c);
    assert multiset(a + c) == multiset(a) + multiset(c);
  }


  /** An image that only `a` produces among `xs` occurs as often as `a` does. */
  lemma {:induction false} MapCountUnique<A, B>(xs: seq<A>, f: A -> B, a: A)
    requires forall x :: x in xs && f(x) == f(a) ==> x == a
    ensures multiset(Map(xs, f))[f(a)] == multiset(xs)[a]
    decreases |xs|
  {
    if xs != [] {
      var init := xs[..|xs| - 1];
      assert xs == init + [xs[|xs| - 1]];
      MapCountUnique(init, f, a);
    }
  }

  /** Mapping by a function that fixes every element changes nothing. */
  lemma MapFixes<A>(xs: seq<A>, f: A -> A)
    requires forall x :: x in xs ==> f(x) == x
    ensures Map(xs, f) == xs
  {
    assert forall i :: 0 <= i < |xs| ==> xs[i] in xs;
  }

  /** Filtering a list without repetitions gives one without repetitions. */
  lemma {:induction false} FilterDistinct<T>(s: seq<T>, p: T -> bool)
    requires Distinct(s)
    ensures Distinct(Filter(s, p))
    decreases |s|
  {
    if s != [] {
      var init, last := s[..|s| - 1], s[|s| - 1];
      FilterDistinct(init, p);
      assert last !in init;
      assert last !in Filter(init, p);
    }
  }

  /** Two lists without repetitions with the same elements are permutations of each other. */
  lemma SameSetSameMultiset<T>(xs: seq<T>, ys: seq<T>)
    requires Distinct(xs) && Distinct(ys)
    requires forall x :: x in xs ==> x in ys
    requires forall y :: y in ys ==> y in xs
    ensures multiset(xs) == multiset(ys)
  {
    DistinctMultiset(xs);
    DistinctMultiset(ys);
    assert (set x | x in xs) == (set y | y in ys);
  }

  lemma FilterTwo<T>(a: T, b: T, p: T -> bool)
    ensures Filter([a, b], p) == (if p(a) then [a] else []) + (if p(b) then [b] else [])
  {
    assert [a, b][..1] == [a];
    assert [a][..0] == [];
  }

  /** A filter that keeps the first element and none of the others. */
  lemma {:induction false} FilterOnlyFirst<T>(s: seq<T>, p: T -> bool)
    requires |s| > 0 && p(s[0])
    requires forall k :: 1 <= k < |s| ==> !p(s[k])
    ensures Filter(s, p) == [s[0]]
    decreases |s|
  {
    if |s| == 1 {
      assert s[..0] == [];
    } else {
      FilterOnlyFirst(s[..|s| - 1], p);
    }
  }

  /** The position of the first element satisfying `p`, or `|s|` if none does. */
  function FirstIndex<T>(s: seq<T>, p: T -> bool): (i: nat)
    ensures i <= |s|
    ensures forall j :: 0 <= j < i ==> !p(s[j])
    ensures i < |s| ==> p(s[i])
    decreases |s|
  {
    if s == [] || p(s[0]) then 0
    else
      var i := 1 + FirstIndex(s[1..], p);
      assert forall j :: 1 <= j < i ==> s[j] == s[1..][j - 1];
      i
  }

  /** `List.remove(Object)`: the list without its first element satisfying `p`, or unchanged if none does. */
  function RemoveFirst<T>(s: seq<T>, p: T -> bool): (r: seq<T>)
    ensures (forall k :: 0 <= k < |s| ==> !p(s[k])) ==> r == s
    ensures (exists k :: 0 <= k < |s| && p(s[k])) ==>
              exists k :: 0 <= k < |s| && p(s[k]) && (forall j :: 0 <= j < k ==> !p(s[j])) &&
                          r == s[..k] + s[k + 1..]
  {
    var i := FirstIndex(s, p);
    if i < |s| then s[..i] + s[i + 1..] else s
  }

  /** Removing an element just added, when none before it matches, restores the list. */
  lemma AddThenRemove<T>(s: seq<T>, x: T, p: T -> bool)
    requires p(x)
    requires forall k :: 0 <= k < |s| ==> !p(s[k])
    ensures RemoveFirst(s + [x], p) == s
  {
    var t := s + [x];
    assert forall k :: 0 <= k < |s| ==> t[k] == s[k];
    assert p(t[|s|]);
    assert FirstIndex(t, p) == |s|;
    assert t[..|s|] == s;
  }
}
