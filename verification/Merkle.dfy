/** CalcMerkleRoot (core/types/block.go): the in-place, shrinking-slice computation against the
    recursive tree whose right edge is completed by duplication. Nodes are any type T and `hash`
    is the hash of two concatenated nodes. */
module Merkle {

  function Pow2(h: nat): (p: nat)
    ensures p >= 1
  {
    if h == 0 then 1 else 2 * Pow2(h - 1)
  }

  /** The perfect tree of height h whose first leaf is s[lo]: where s ends before the right subtree
      begins, that subtree is a copy of the left one. */
  function Tree<T>(hash: (T, T) -> T, h: nat, s: seq<T>, lo: nat): T
    requires lo < |s|
    decreases h
  {
    if h == 0 then s[lo]
    else
      var left := Tree(hash, h - 1, s, lo);
      var mid := lo + Pow2(h - 1);
      hash(left, if mid < |s| then Tree(hash, h - 1, s, mid) else left)
  }

  /** The height of the smallest perfect tree with at least n leaves. */
  function Height(n: nat): nat {
    if n <= 1 then 0 else 1 + Height((n + 1) / 2)
  }

  lemma {:induction false} HeightIsLeast(n: nat)
    requires n >= 1
    ensures n <= Pow2(Height(n))
    ensures Height(n) >= 1 ==> Pow2(Height(n) - 1) < n
  {
    if n > 1 {
      HeightIsLeast((n + 1) / 2);
    }
  }

  function Root<T>(hash: (T, T) -> T, zero: T, s: seq<T>): T {
    if |s| == 0 then zero else Tree(hash, Height(|s|), s, 0)
  }

  // ---- one level at a time ----

  /** Adjacent nodes hashed in pairs, the last one with itself when it has no partner. */
  function NextLevel<T>(hash: (T, T) -> T, s: seq<T>): (r: seq<T>)
    ensures |r| == (|s| + 1) / 2
  {
    if s == [] then []
    else if |s| == 1 then [hash(s[0], s[0])]
    else [hash(s[0], s[1])] + NextLevel(hash, s[2..])
  }

  lemma {:induction false} NextLevelAt<T>(hash: (T, T) -> T, s: seq<T>, i: nat)
    requires 2 * i < |s|
    ensures NextLevel(hash, s)[i] == hash(s[2 * i], if 2 * i + 1 < |s| then s[2 * i + 1] else s[2 * i])
  {
    if i > 0 {
      NextLevelAt(hash, s[2..], i - 1);
    }
  }

  /** Hashing one level of leaves and building one level less gives the same tree. */
  lemma {:induction false} TreeByLevel<T>(hash: (T, T) -> T, h: nat, s: seq<T>, lo: nat)
    requires h >= 1 && 2 * lo < |s|
    ensures Tree(hash, h, s, 2 * lo) == Tree(hash, h - 1, NextLevel(hash, s), lo)
    decreases h
  {
    if h == 1 {
      NextLevelAt(hash, s, lo);
      assert Pow2(0) == 1;
    } else {
      var quarter := Pow2(h - 2);
      assert Pow2(h - 1) == 2 * quarter;
      TreeByLevel(hash, h - 1, s, lo);
      if 2 * (lo + quarter) < |s| {
        TreeByLevel(hash, h - 1, s, lo + quarter);
      }
    }
  }

  lemma RootByLevel<T>(hash: (T, T) -> T, zero: T, s: seq<T>)
    requires |s| > 1
    ensures Root(hash, zero, s) == Root(hash, zero, NextLevel(hash, s))
  {
    assert Height(|s|) == 1 + Height(|NextLevel(hash, s)|);
    TreeByLevel(hash, Height(|s|), s, 0);
  }

  /** CalcMerkleRoot. The caller's slice is read only; the copy is overwritten from the left. */
  method CalcMerkleRoot<T>(hash: (T, T) -> T, zero: T, leaves: array<T>) returns (root: T)
    ensures root == Root(hash, zero, leaves[..])
  {
    if leaves.Length == 0 { return zero; }
    if leaves.Length == 1 { return leaves[0]; }
    var n := leaves.Length;
    var work := Clone(leaves);
    assert work[..n] == leaves[..];
    while n > 1
      invariant 1 <= n < work.Length
      invariant fresh(work)
      invariant Root(hash, zero, work[..n]) == Root(hash, zero, leaves[..])
    {
      ghost var level := work[..n];
      RootByLevel(hash, zero, level);
      if n % 2 != 0 {
        work[n] := work[n - 1];
        n := n + 1;
      }
      HashPairs(hash, work, n / 2, level);
      n := n / 2;
    }
    assert work[..1] == [work[0]];
    root := work[0];
  }

  /** slices.Clone, with the spare place that append may use. */
  method Clone<T>(leaves: array<T>) returns (work: array<T>)
    requires leaves.Length > 0
    ensures fresh(work) && work.Length == leaves.Length + 1
    ensures work[..leaves.Length] == leaves[..]
  {
    var first := leaves[0];
    work := new T[leaves.Length + 1](_ => first);
    for i := 0 to leaves.Length
      invariant work[..i] == leaves[..i]
    {
      work[i] := leaves[i];
    }
  }

  /** The inner loop: parent i replaces entry i, which no later parent needs. */
  method HashPairs<T>(hash: (T, T) -> T, work: array<T>, pairs: nat, ghost level: seq<T>)
    requires 2 * pairs <= work.Length
    requires |level| == 2 * pairs || |level| == 2 * pairs - 1
    requires work[..|level|] == level
    requires |level| == 2 * pairs - 1 ==> work[2 * pairs - 1] == level[|level| - 1]
    modifies work
    ensures work[..pairs] == NextLevel(hash, level)
  {
    ghost var padded := work[..2 * pairs];
    assert forall i :: 0 <= i < |level| ==> padded[i] == work[..|level|][i];
    for i := 0 to pairs
      invariant forall k :: 0 <= k < i ==> work[k] == NextLevel(hash, level)[k]
      invariant forall k :: i <= k < 2 * pairs ==> work[k] == padded[k]
    {
      NextLevelAt(hash, level, i);
      work[i] := hash(work[2 * i], work[2 * i + 1]);
    }
  }

  // ---- what the root fixes ----

  /** The pairs hashed while building the tree. */
  ghost function Hashed<T>(hash: (T, T) -> T, h: nat, s: seq<T>, lo: nat): set<(T, T)>
    requires lo < |s|
    decreases h
  {
    if h == 0 then {}
    else
      var left := Tree(hash, h - 1, s, lo);
      var mid := lo + Pow2(h - 1);
      if mid < |s| then
        Hashed(hash, h - 1, s, lo) + Hashed(hash, h - 1, s, mid) + {(left, Tree(hash, h - 1, s, mid))}
      else
        Hashed(hash, h - 1, s, lo) + {(left, left)}
  }

  /** Two different pairs, one from each side, with the same hash. */
  ghost predicate Collision<T(!new)>(hash: (T, T) -> T, ps: set<(T, T)>, qs: set<(T, T)>) {
    exists p, q :: p in ps && q in qs && p != q && hash(p.0, p.1) == hash(q.0, q.1)
  }

  lemma {:induction false} TreeFixesLeaves<T(!new)>(
      hash: (T, T) -> T, h: nat, xs: seq<T>, ys: seq<T>, lo: nat, ps: set<(T, T)>, qs: set<(T, T)>)
    requires |xs| == |ys| && lo < |xs|
    requires Tree(hash, h, xs, lo) == Tree(hash, h, ys, lo)
    requires Hashed(hash, h, xs, lo) <= ps && Hashed(hash, h, ys, lo) <= qs
    requires !Collision(hash, ps, qs)
    ensures forall i :: lo <= i < lo + Pow2(h) && i < |xs| ==> xs[i] == ys[i]
    decreases h
  {
    if h > 0 {
      var mid := lo + Pow2(h - 1);
      if mid < |xs| {
        TreeFixesLeaves(hash, h - 1, xs, ys, mid, ps, qs);
      }
      TreeFixesLeaves(hash, h - 1, xs, ys, lo, ps, qs);
    }
  }

  ghost function RootHashed<T>(hash: (T, T) -> T, s: seq<T>): set<(T, T)> {
    if |s| == 0 then {} else Hashed(hash, Height(|s|), s, 0)
  }

  /** Two leaf lists of one length with one root are equal, unless the two computations of that root
      hashed two different pairs to one value. */
  lemma RootFixesLeaves<T(!new)>(hash: (T, T) -> T, zero: T, xs: seq<T>, ys: seq<T>)
    requires |xs| == |ys| && Root(hash, zero, xs) == Root(hash, zero, ys)
    ensures xs == ys || Collision(hash, RootHashed(hash, xs), RootHashed(hash, ys))
  {
    var ps, qs := RootHashed(hash, xs), RootHashed(hash, ys);
    if |xs| > 0 && !Collision(hash, ps, qs) {
      HeightIsLeast(|xs|);
      TreeFixesLeaves(hash, Height(|xs|), xs, ys, 0, ps, qs);
    }
  }

  /** The length matters: an odd list of three or more leaves has the root of the list that repeats
      its last leaf, whatever the hash. */
  lemma RootIgnoresRepeat<T>(hash: (T, T) -> T, zero: T, s: seq<T>)
    requires |s| >= 3 && |s| % 2 == 1
    ensures Root(hash, zero, s + [s[|s| - 1]]) == Root(hash, zero, s)
  {
    RootByLevel(hash, zero, s);
    RootByLevel(hash, zero, s + [s[|s| - 1]]);
    NextLevelRepeat(hash, s);
  }

  lemma {:induction false} NextLevelRepeat<T>(hash: (T, T) -> T, s: seq<T>)
    requires |s| % 2 == 1
    ensures NextLevel(hash, s + [s[|s| - 1]]) == NextLevel(hash, s)
  {
    if |s| > 1 {
      NextLevelRepeat(hash, s[2..]);
      assert (s + [s[|s| - 1]])[2..] == s[2..] + [s[2..][|s| - 3]];
    }
  }
}
