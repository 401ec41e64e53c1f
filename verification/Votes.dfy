/** Votes on a block: what a validator signs and how the leader's reading of it is checked
    (core/types/commit.go, SignVote and VoteInfo.Verify). Signing and verification are parameters. */
module Votes {
  import opened Bytes
  import opened Keys
  import opened Commits

  /** A signature scheme over private keys of type K; signing may fail. */
  datatype Scheme<!K> = Scheme(
    pub: K -> PubKey,
    sign: (K, seq<byte>) -> Option<seq<byte>>,
    verify: (PubKey, seq<byte>, seq<byte>) -> bool)

  /** What a signature made with this key is worth: it verifies under the key's public part. */
  ghost predicate SignsWell<K>(c: Crypto, sc: Scheme<K>, k: K) {
    && KeyOk(c, sc.pub(k))
    && forall msg :: sc.sign(k, msg).Some? ==> sc.verify(sc.pub(k), msg, sc.sign(k, msg).value)
  }

  /** The signed content: the block and a NACK, or the block, an ACK and the app hash. */
  datatype Claim = Nack(blk: Hash) | Ack(blk: Hash, app: Hash) | BlockOnly(blk: Hash)

  function Message(m: Claim): seq<byte> {
    match m
    case Nack(blk) => blk + [0]
    case Ack(blk, app) => blk + [1] + app
    case BlockOnly(blk) => blk
  }

  /** The message determines the block, whether it was an ACK, and the app hash. */
  lemma MessageInjective(m1: Claim, m2: Claim)
    requires Message(m1) == Message(m2)
    ensures m1 == m2
  {
    var s1, s2 := Message(m1), Message(m2);
    assert s1[..HASH_LEN] == m1.blk && s2[..HASH_LEN] == m2.blk;
    if m1.Ack? {
      assert s1[HASH_LEN + 1..] == m1.app && s2[HASH_LEN + 1..] == m2.app;
    }
  }

  function SignVote<K>(sc: Scheme<K>, blk: Hash, ack: bool, app: Option<Hash>, key: Option<K>): Option<Signature> {
    if key.None? || (ack && app.None?) then None
    else
      var msg := Message(if ack then Ack(blk, app.value) else Nack(blk));
      var sig := sc.sign(key.value, msg);
      if sig.None? then None
      else Some(Signature(sc.pub(key.value).kind, Some(sc.pub(key.value).raw), sig))
  }

  /** What Verify takes the vote to claim; a forked vote must carry its app hash. A status other than
      the three defined ones adds nothing to the block. */
  function Claimed(v: Vote, blk: Hash, app: Hash): Option<Claim> {
    if v.status == ACK_FORKED then
      if v.appHash.None? then None else Some(Ack(blk, v.appHash.value))
    else if v.status == ACK_AGREE then Some(Ack(blk, app))
    else if v.status == ACK_REJECT then Some(Nack(blk))
    else Some(BlockOnly(blk))
  }

  predicate Verify<K>(c: Crypto, sc: Scheme<K>, v: Vote, blk: Hash, app: Hash) {
    var key := if v.sig.kind in c.reg.types then c.parse(v.sig.kind, OrEmpty(v.sig.pubKey)) else None;
    var claim := Claimed(v, blk, app);
    key.Some? && claim.Some? && sc.verify(key.value, Message(claim.value), OrEmpty(v.sig.data))
  }

  /** How the leader reads a vote: a NACK is a rejection, an ACK agrees or has forked by its app hash. */
  function LeaderReads(ack: bool, voted: Option<Hash>, own: Hash, sig: Signature): Vote
    requires ack ==> voted.Some?
  {
    if !ack then Vote(ACK_REJECT, None, sig)
    else if voted.value == own then Vote(ACK_AGREE, None, sig)
    else Vote(ACK_FORKED, voted, sig)
  }

  /** Any vote SignVote makes passes Verify as the leader reads it, also after it went over the wire. */
  lemma SignedVoteVerifies<K>(
      c: Crypto, sc: Scheme<K>, blk: Hash, ack: bool, voted: Option<Hash>, key: K, own: Hash, rest: seq<byte>)
    requires SignsWell(c, sc, key)
    requires SignVote(sc, blk, ack, voted, Some(key)).Some?
    ensures var v := LeaderReads(ack, voted, own, SignVote(sc, blk, ack, voted, Some(key)).value);
      && Verify(c, sc, v, blk, own)
      && (|OrEmpty(v.sig.pubKey)| < TWO_63 && |OrEmpty(v.sig.data)| < TWO_63 ==>
          && VoteBytes(c, v).Some?
          && ReadVote(c, VoteBytes(c, v).value + rest) == Ok(v, rest)
          && Verify(c, sc, ReadVote(c, VoteBytes(c, v).value + rest).value, blk, own))
  {
    var v := LeaderReads(ack, voted, own, SignVote(sc, blk, ack, voted, Some(key)).value);
    assert Verify(c, sc, v, blk, own);
    if |OrEmpty(v.sig.pubKey)| < TWO_63 && |OrEmpty(v.sig.data)| < TWO_63 {
      VoteRoundTrip(c, v, rest);
    }
  }

  /** One signature that verifies over two different messages. */
  ghost predicate DoubleUse<K>(c: Crypto, sc: Scheme<K>, sig: Signature, m1: Claim, m2: Claim) {
    && m1 != m2
    && sig.kind in c.reg.types
    && var key := c.parse(sig.kind, OrEmpty(sig.pubKey));
       && key.Some?
       && sc.verify(key.value, Message(m1), OrEmpty(sig.data))
       && sc.verify(key.value, Message(m2), OrEmpty(sig.data))
       && Message(m1) != Message(m2)
  }

  /** However a signature is presented, every reading of it that verifies claims the same thing, unless
      the signature itself is valid for two messages. */
  lemma OneReading<K>(c: Crypto, sc: Scheme<K>, v1: Vote, v2: Vote, blk1: Hash, blk2: Hash, app1: Hash, app2: Hash)
    requires v1.sig == v2.sig
    requires Verify(c, sc, v1, blk1, app1) && Verify(c, sc, v2, blk2, app2)
    ensures var m1, m2 := Claimed(v1, blk1, app1).value, Claimed(v2, blk2, app2).value;
      m1 == m2 || DoubleUse(c, sc, v1.sig, m1, m2)
  {
    var m1, m2 := Claimed(v1, blk1, app1).value, Claimed(v2, blk2, app2).value;
    if Message(m1) == Message(m2) {
      MessageInjective(m1, m2);
    }
  }

  /** An agree vote fits one app hash. */
  lemma AgreeFitsOne<K>(c: Crypto, sc: Scheme<K>, v: Vote, blk: Hash, app1: Hash, app2: Hash)
    requires v.status == ACK_AGREE
    requires Verify(c, sc, v, blk, app1) && Verify(c, sc, v, blk, app2)
    ensures app1 == app2 || DoubleUse(c, sc, v.sig, Ack(blk, app1), Ack(blk, app2))
  {
    OneReading(c, sc, v, v, blk, blk, app1, app2);
  }
}
