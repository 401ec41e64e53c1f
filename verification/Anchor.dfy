/** The block that anchors a restored snapshot (node/statesync.go, verifyAnchorBlock), and what its
    checks pin down. `sha` is the hash function. */
module Anchor {
  import opened Bytes
  import opened Keys
  import opened Transactions
  import opened Blocks
  import opened Commits
  import Merkle

  type Sha = seq<byte> -> Hash

  function ZeroHash(): Hash { seq(HASH_LEN, _ => 0) }

  function Join(a: Hash, b: Hash): seq<byte> { a + b }

  function PairHash(sha: Sha): (Hash, Hash) -> Hash { (a: Hash, b: Hash) => sha(Join(a, b)) }

  function TxHash(sha: Sha, t: Tx): Hash { sha(TxBytes(t)) }

  function TxHashes(sha: Sha, txns: seq<Tx>): (r: seq<Hash>)
    ensures |r| == |txns|
    ensures forall i :: 0 <= i < |txns| ==> r[i] == TxHash(sha, txns[i])
  {
    seq<Hash>(|txns|, i requires 0 <= i < |txns| => TxHash(sha, txns[i]))
  }

  function BlockRoot(sha: Sha, b: Block): Hash {
    Merkle.Root(PairHash(sha), ZeroHash(), TxHashes(sha, b.txns))
  }

  function BlockHash(c: Crypto, sha: Sha, b: Block): Hash
    requires Encodable(c, b.header)
  {
    sha(HeaderBytes(c, b.header))
  }

  /** The transactions of a block match its header. */
  predicate TxnsMatch(sha: Sha, b: Block) {
    b.header.numTxns == |b.txns| % TWO_32 && b.header.merkleRoot == BlockRoot(sha, b)
  }

  predicate VerifyAnchor(
      c: Crypto, sha: Sha, height: int64, appHash: Hash, hash: Hash, b: Block, ci: Option<CommitInfo>)
    requires Encodable(c, b.header)
  {
    && b.header.height == height
    && BlockHash(c, sha, b) == hash
    && TxnsMatch(sha, b)
    && ci.Some?
    && ci.value.appHash == appHash
  }

  ghost function TreePairs(sha: Sha, b: Block): set<(Hash, Hash)> {
    Merkle.RootHashed(PairHash(sha), TxHashes(sha, b.txns))
  }

  /** x is one of the strings hashed while checking a block. */
  ghost predicate Hashed(c: Crypto, sha: Sha, b: Block, x: seq<byte>)
    requires Encodable(c, b.header)
  {
    || x == HeaderBytes(c, b.header)
    || (exists i :: 0 <= i < |b.txns| && x == TxBytes(b.txns[i]))
    || (exists p :: p in TreePairs(sha, b) && x == Join(p.0, p.1))
  }

  /** Two different strings, one hashed for each block, with the same hash. */
  ghost predicate Collision(c: Crypto, sha: Sha, b1: Block, b2: Block)
    requires Encodable(c, b1.header) && Encodable(c, b2.header)
  {
    exists x, y :: Hashed(c, sha, b1, x) && Hashed(c, sha, b2, y) && x != y && sha(x) == sha(y)
  }

  lemma HeaderInjective(c: Crypto, h1: Header, h2: Header)
    requires HeaderOk(c, h1) && HeaderOk(c, h2)
    requires HeaderBytes(c, h1) == HeaderBytes(c, h2)
    ensures ToMillis(h1) == ToMillis(h2)
  {
    HeaderRoundTrip(c, h1, []);
    HeaderRoundTrip(c, h2, []);
  }

  lemma TxInjective(t1: Tx, t2: Tx)
    requires TxBytes(t1) == TxBytes(t2) && |TxBytes(t1)| < TWO_63
    ensures t1 == t2
  {
    ParseTxBytes(t1);
    ParseTxBytes(t2);
  }

  lemma ConcatHashes(a: Hash, b: Hash, c: Hash, d: Hash)
    requires Join(a, b) == Join(c, d)
    ensures a == c && b == d
  {
    assert (a + b)[..HASH_LEN] == a && (c + d)[..HASH_LEN] == c;
    assert (a + b)[HASH_LEN..] == b && (c + d)[HASH_LEN..] == d;
  }

  /** Without a collision among the strings there is none among the pairs of the trees. */
  lemma NoPairCollision(c: Crypto, sha: Sha, b1: Block, b2: Block)
    requires Encodable(c, b1.header) && Encodable(c, b2.header) && !Collision(c, sha, b1, b2)
    ensures !Merkle.Collision(PairHash(sha), TreePairs(sha, b1), TreePairs(sha, b2))
  {
    forall p, q |
      p in TreePairs(sha, b1) && q in TreePairs(sha, b2) && PairHash(sha)(p.0, p.1) == PairHash(sha)(q.0, q.1)
      ensures p == q
    {
      ConcatHashes(p.0, p.1, q.0, q.1);
    }
  }

  lemma HashesFixTxns(c: Crypto, sha: Sha, b1: Block, b2: Block)
    requires Encodable(c, b1.header) && Encodable(c, b2.header) && !Collision(c, sha, b1, b2)
    requires TxHashes(sha, b1.txns) == TxHashes(sha, b2.txns)
    requires forall i :: 0 <= i < |b1.txns| ==> |TxBytes(b1.txns[i])| < TWO_63
    ensures b1.txns == b2.txns
  {
    var h1, h2 := TxHashes(sha, b1.txns), TxHashes(sha, b2.txns);
    forall i | 0 <= i < |b1.txns|
      ensures b1.txns[i] == b2.txns[i]
    {
      assert h1[i] == h2[i];
      TxInjective(b1.txns[i], b2.txns[i]);
    }
  }

  /** A block whose lengths and count fit their encodings, as every decoded block's do. */
  ghost predicate Sized(c: Crypto, b: Block) {
    HeaderOk(c, b.header) && |b.txns| < TWO_32 && forall i :: 0 <= i < |b.txns| ==> |TxBytes(b.txns[i])| < TWO_63
  }

  lemma SameHeaders(c: Crypto, sha: Sha, b1: Block, b2: Block)
    requires HeaderOk(c, b1.header) && HeaderOk(c, b2.header) && !Collision(c, sha, b1, b2)
    requires BlockHash(c, sha, b1) == BlockHash(c, sha, b2)
    ensures ToMillis(b1.header) == ToMillis(b2.header)
  {
    HeaderInjective(c, b1.header, b2.header);
  }

  lemma SameTxns(c: Crypto, sha: Sha, b1: Block, b2: Block)
    requires Encodable(c, b1.header) && Encodable(c, b2.header) && !Collision(c, sha, b1, b2)
    requires |b1.txns| == |b2.txns| && BlockRoot(sha, b1) == BlockRoot(sha, b2)
    requires forall i :: 0 <= i < |b1.txns| ==> |TxBytes(b1.txns[i])| < TWO_63
    ensures b1.txns == b2.txns
  {
    NoPairCollision(c, sha, b1, b2);
    Merkle.RootFixesLeaves(PairHash(sha), ZeroHash(), TxHashes(sha, b1.txns), TxHashes(sha, b2.txns));
    HashesFixTxns(c, sha, b1, b2);
  }

  lemma SameCountAndRoot(h1: Header, h2: Header, n1: nat, n2: nat)
    requires ToMillis(h1) == ToMillis(h2)
    requires h1.numTxns == n1 % TWO_32 && h2.numTxns == n2 % TWO_32 && n1 < TWO_32 && n2 < TWO_32
    ensures n1 == n2 && h1.merkleRoot == h2.merkleRoot
  {
    assert ToMillis(h1).numTxns == ToMillis(h2).numTxns;
    assert ToMillis(h1).merkleRoot == ToMillis(h2).merkleRoot;
  }

  /** The anchor checks fix the block: two blocks that pass for one response hash have the same header
      and the same transactions, unless checking them met a hash collision. */
  lemma AnchorFixesBlock(
      c: Crypto, sha: Sha, height: int64, appHash: Hash, hash: Hash,
      b1: Block, ci1: Option<CommitInfo>, b2: Block, ci2: Option<CommitInfo>)
    requires Sized(c, b1) && Sized(c, b2)
    requires VerifyAnchor(c, sha, height, appHash, hash, b1, ci1)
    requires VerifyAnchor(c, sha, height, appHash, hash, b2, ci2)
    ensures (ToMillis(b1.header) == ToMillis(b2.header) && b1.txns == b2.txns)
         || Collision(c, sha, b1, b2)
  {
    if !Collision(c, sha, b1, b2) {
      SameHeaders(c, sha, b1, b2);
      SameCountAndRoot(b1.header, b2.header, |b1.txns|, |b2.txns|);
      SameTxns(c, sha, b1, b2);
    }
  }
}
