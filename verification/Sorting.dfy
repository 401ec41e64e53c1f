/** Sorting by a strict order, and the byte-wise order of Go strings. */
module Sorting {
  import opened Bytes

  ghost predicate Transitive<T(!new)>(less: (T, T) -> bool) {
    forall a, b, c :: less(a, b) && less(b, c) ==> less(a, c)
  }

  ghost predicate Irreflexive<T(!new)>(less: (T, T) -> bool) {
    forall a :: !less(a, a)
  }

  /** Any two entries at different places are ordered one way or the other; so there are no repeats. */
  ghost predicate Comparable<T>(less: (T, T) -> bool, xs: seq<T>) {
    forall i, j :: 0 <= i < j < |xs| ==> less(xs[i], xs[j]) || less(xs[j], xs[i])
  }

  ghost predicate Sorted<T>(less: (T, T) -> bool, xs: seq<T>) {
    forall i, j :: 0 <= i < j < |xs| ==> less(xs[i], xs[j])
  }

  /** Insertion into a sorted sequence. */
  function Insert<T>(less: (T, T) -> bool, x: T, xs: seq<T>): (r: seq<T>)
    ensures |r| == |xs| + 1
    ensures multiset(r) == multiset(xs) + multiset{x}
  {
    if xs == [] then [x]
    else if less(x, xs[0]) then
      assert multiset([x] + xs) == multiset{x} + multiset(xs);
      [x] + xs
    else
      assert xs == [xs[0]] + xs[1..];
      [xs[0]] + Insert(less, x, xs[1..])
  }

  lemma InMultiset<T>(xs: seq<T>, x: T)
    ensures x in multiset(xs) <==> x in xs
  {
  }

  lemma {:induction false} InsertSorted<T(!new)>(less: (T, T) -> bool, x: T, xs: seq<T>)
    requires Transitive(less) && Sorted(less, xs)
    requires forall i :: 0 <= i < |xs| ==> less(x, xs[i]) || less(xs[i], x)
    ensures Sorted(less, Insert(less, x, xs))
  {
    if xs != [] && !less(x, xs[0]) {
      var tail := Insert(less, x, xs[1..]);
      InsertSorted(less, x, xs[1..]);
      forall j | 0 <= j < |tail|
        ensures less(xs[0], tail[j])
      {
        InMultiset(tail, tail[j]);
        InMultiset(xs[1..], tail[j]);
      }
    }
  }

  /** sort.Strings and sort.Slice: the same entries, in order. */
  method Sort<T(!new)>(less: (T, T) -> bool, xs: seq<T>) returns (ys: seq<T>)
    requires Transitive(less) && Comparable(less, xs)
    ensures multiset(ys) == multiset(xs)
    ensures Sorted(less, ys)
  {
    ys := [];
    for i := 0 to |xs|
      invariant multiset(ys) == multiset(xs[..i])
      invariant Sorted(less, ys)
    {
      forall k | 0 <= k < |ys|
        ensures less(xs[i], ys[k]) || less(ys[k], xs[i])
      {
        InMultiset(ys, ys[k]);
        InMultiset(xs[..i], ys[k]);
      }
      InsertSorted(less, xs[i], ys);
      ys := Insert(less, xs[i], ys);
      assert xs[..i + 1] == xs[..i] + [xs[i]];
    }
    assert xs[..|xs|] == xs;
  }

  /** Sorting leaves no choice: two sorted sequences with the same elements are the same. */
  lemma {:induction false} SortedUnique<T(!new)>(less: (T, T) -> bool, xs: seq<T>, ys: seq<T>)
    requires Transitive(less) && Irreflexive(less)
    requires Sorted(less, xs) && Sorted(less, ys)
    requires forall x :: x in xs <==> x in ys
    ensures xs == ys
  {
    if xs == [] {
      HasElement(ys);
    } else {
      assert xs[0] in ys && xs[0] in xs;
      assert ys[0] in xs;
      assert xs[0] == ys[0];
      TailsSame(less, xs, ys);
      SortedUnique(less, xs[1..], ys[1..]);
      assert xs == [xs[0]] + xs[1..] && ys == [ys[0]] + ys[1..];
    }
  }

  lemma HasElement<T>(xs: seq<T>)
    ensures xs == [] || exists x :: x in xs
  {
    if xs != [] {
      assert xs[0] in xs;
    }
  }

  lemma TailsSame<T(!new)>(less: (T, T) -> bool, xs: seq<T>, ys: seq<T>)
    requires Irreflexive(less)
    requires Sorted(less, xs) && Sorted(less, ys)
    requires forall x :: x in xs <==> x in ys
    requires xs != [] && ys != [] && xs[0] == ys[0]
    ensures forall x :: x in xs[1..] <==> x in ys[1..]
  {
    forall x
      ensures x in xs[1..] <==> x in ys[1..]
    {
      assert x in xs[1..] ==> x in xs && less(xs[0], x);
      assert x in ys[1..] ==> x in ys && less(ys[0], x);
    }
  }

  // ---- byte strings ----

  predicate StringLess(a: seq<byte>, b: seq<byte>) {
    if b == [] then false
    else if a == [] then true
    else if a[0] != b[0] then a[0] < b[0]
    else StringLess(a[1..], b[1..])
  }

  lemma {:induction false} StringLessOrder(a: seq<byte>, b: seq<byte>)
    ensures !StringLess(a, a)
    ensures a == b || StringLess(a, b) || StringLess(b, a)
  {
    if a != [] {
      StringLessOrder(a[1..], if b == [] then [] else b[1..]);
      if b != [] && a[0] == b[0] && a[1..] == b[1..] {
        assert a == [a[0]] + a[1..] && b == [b[0]] + b[1..];
      }
    }
  }

  lemma {:induction false} StringLessTransitive(a: seq<byte>, b: seq<byte>, c: seq<byte>)
    requires StringLess(a, b) && StringLess(b, c)
    ensures StringLess(a, c)
  {
    if a != [] && a[0] == b[0] == c[0] {
      StringLessTransitive(a[1..], b[1..], c[1..]);
    }
  }

  lemma StringLessIsOrder()
    ensures Transitive(StringLess) && Irreflexive(StringLess)
  {
    forall a, b, c | StringLess(a, b) && StringLess(b, c)
      ensures StringLess(a, c)
    {
      StringLessTransitive(a, b, c);
    }
    forall a: seq<byte>
      ensures !StringLess(a, a)
    {
      StringLessOrder(a, a);
    }
  }
}
