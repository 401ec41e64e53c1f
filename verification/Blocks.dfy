/** Blocks: the header and block codec and the partial reader of core/types/block.go. */
module Blocks {
  import opened Bytes
  import opened Varints
  import opened Wire
  import opened Keys
  import opened Transactions
  import opened Many
  import opened Frames

  const MILLI := 1_000_000

  /** `stamp` is in nanoseconds; only its whole milliseconds are encoded. */
  datatype Header = Header(
    version: uint16,
    height: int64,
    numTxns: uint32,
    prevHash: Hash,
    prevAppHash: Hash,
    valSetHash: Hash,
    paramsHash: Hash,
    stamp: int,
    merkleRoot: Hash,
    newLeader: Option<PubKey>)

  datatype Block = Block(header: Header, txns: seq<Tx>, sig: seq<byte>)

  // ---- header ----

  ghost predicate HeaderOk(c: Crypto, h: Header) {
    && -TWO_63 <= h.stamp / MILLI < TWO_63
    && (h.newLeader.Some? ==> KeyOk(c, h.newLeader.value) && |h.newLeader.value.raw| < TWO_63 - 4)
  }

  function ToMillis(h: Header): Header { h.(stamp := h.stamp / MILLI * MILLI) }

  /** uint64(t.UnixMilli()) */
  function StampBits(stamp: int): uint64 { (stamp / MILLI) % TWO_64 }

  function Numbers(h: Header): seq<byte> {
    LE(h.version, 2) + LE(Bits64(h.height), 8) + LE(h.numTxns, 4)
  }

  function Hashes(h: Header): seq<byte> {
    h.prevHash + h.prevAppHash + h.valSetHash + h.paramsHash
  }

  predicate Encodable(c: Crypto, h: Header) { h.newLeader.Some? ==> h.newLeader.value.kind in c.reg.types }

  function LeaderPart(c: Crypto, h: Header): seq<byte>
    requires Encodable(c, h)
  {
    if h.newLeader.None? then [0] else [1] + CompactBytes(Some(WireKey(c, h.newLeader.value)))
  }

  function HeaderBytes(c: Crypto, h: Header): seq<byte>
    requires Encodable(c, h)
  {
    Numbers(h) + Hashes(h) + (LE(StampBits(h.stamp), 8) + h.merkleRoot) + LeaderPart(c, h)
  }

  function ReadNumbers(s: seq<byte>): (r: Parsed<(uint16, int64, uint32)>)
    ensures r.Ok? ==> |r.rest| < |s|
  {
    var (version, s1) :- Read16(s);
    var (height, s2) :- Read64(s1);
    var (numTxns, s3) :- Read32(s2);
    Ok((version, Signed64(height), numTxns), s3)
  }

  function ReadHash(s: seq<byte>): (r: Parsed<Hash>)
    ensures r.Ok? ==> |r.rest| < |s|
  {
    var (h, rest) :- Take(s, HASH_LEN);
    Ok(h, rest)
  }

  function ReadHashes(s: seq<byte>): (r: Parsed<(Hash, Hash, Hash, Hash)>)
    ensures r.Ok? ==> |r.rest| < |s|
  {
    var (prev, s1) :- ReadHash(s);
    var (app, s2) :- ReadHash(s1);
    var (vals, s3) :- ReadHash(s2);
    var (params, s4) :- ReadHash(s3);
    Ok((prev, app, vals, params), s4)
  }

  function ReadStampAndRoot(s: seq<byte>): (r: Parsed<(int, Hash)>)
    ensures r.Ok? ==> |r.rest| < |s|
  {
    var (stamp, s1) :- Read64(s);
    var (root, s2) :- ReadHash(s1);
    Ok((Signed64(stamp) * MILLI, root), s2)
  }

  /** Any non-zero flag byte announces a leader. */
  function ReadLeader(c: Crypto, s: seq<byte>): (r: Parsed<Option<PubKey>>)
    ensures r.Ok? ==> |r.rest| < |s|
  {
    var (flag, s1) :- Take(s, 1);
    if flag[0] == 0 then Ok(None, s1) else
    var (raw, s2) :- ReadCompactBytes(s1, true);
    var key := ReadWireKey(c, OrEmpty(raw));
    if key.None? then Fail else Ok(key, s2)
  }

  /** DecodeBlockHeader */
  function ReadHeader(c: Crypto, s: seq<byte>): (r: Parsed<Header>)
    ensures r.Ok? ==> |r.rest| < |s|
  {
    var (n, s1) :- ReadNumbers(s);
    var (h, s2) :- ReadHashes(s1);
    var (t, s3) :- ReadStampAndRoot(s2);
    var (leader, s4) :- ReadLeader(c, s3);
    Ok(Header(n.0, n.1, n.2, h.0, h.1, h.2, h.3, t.0, t.1, leader), s4)
  }

  lemma NumbersRoundTrip(h: Header, rest: seq<byte>)
    ensures ReadNumbers(Numbers(h) + rest) == Ok((h.version, h.height, h.numTxns), rest)
  {
    var e1, e2, e3 := LE(h.version, 2), LE(Bits64(h.height), 8), LE(h.numTxns, 4);
    assert Numbers(h) + rest == e1 + (e2 + (e3 + rest));
    Read16LE(h.version, e2 + (e3 + rest));
    Read64LE(Bits64(h.height), e3 + rest);
    Read32LE(h.numTxns, rest);
  }

  lemma HashesRoundTrip(h: Header, rest: seq<byte>)
    ensures ReadHashes(Hashes(h) + rest) == Ok((h.prevHash, h.prevAppHash, h.valSetHash, h.paramsHash), rest)
  {
    Regroup4(h.prevHash, h.prevAppHash, h.valSetHash, h.paramsHash, rest);
    TakeAppend(h.prevHash, h.prevAppHash + (h.valSetHash + (h.paramsHash + rest)));
    TakeAppend(h.prevAppHash, h.valSetHash + (h.paramsHash + rest));
    TakeAppend(h.valSetHash, h.paramsHash + rest);
    TakeAppend(h.paramsHash, rest);
  }

  lemma StampAndRootRoundTrip(h: Header, rest: seq<byte>)
    requires -TWO_63 <= h.stamp / MILLI < TWO_63
    ensures ReadStampAndRoot(LE(StampBits(h.stamp), 8) + h.merkleRoot + rest) ==
      Ok((ToMillis(h).stamp, h.merkleRoot), rest)
  {
    Regroup2(LE(StampBits(h.stamp), 8), h.merkleRoot, rest);
    Read64LE(StampBits(h.stamp), h.merkleRoot + rest);
    TakeAppend(h.merkleRoot, rest);
  }

  lemma LeaderRoundTrip(c: Crypto, h: Header, rest: seq<byte>)
    requires HeaderOk(c, h)
    ensures ReadLeader(c, LeaderPart(c, h) + rest) == Ok(h.newLeader, rest)
  {
    if h.newLeader.None? {
      TakeAppend([0], rest);
    } else {
      var key := WireKey(c, h.newLeader.value);
      Regroup2([1], CompactBytes(Some(key)), rest);
      TakeAppend([1], CompactBytes(Some(key)) + rest);
      CompactBytesRoundTrip(Some(key), true, rest);
      WireKeyRoundTrip(c, h.newLeader.value);
    }
  }

  lemma HeaderRoundTrip(c: Crypto, h: Header, rest: seq<byte>)
    requires HeaderOk(c, h)
    ensures ReadHeader(c, HeaderBytes(c, h) + rest) == Ok(ToMillis(h), rest)
  {
    var e1, e2, e3, e4 := Numbers(h), Hashes(h), LE(StampBits(h.stamp), 8) + h.merkleRoot, LeaderPart(c, h);
    Regroup4(e1, e2, e3, e4, rest);
    NumbersRoundTrip(h, e2 + (e3 + (e4 + rest)));
    HashesRoundTrip(h, e3 + (e4 + rest));
    StampAndRootRoundTrip(h, e4 + rest);
    LeaderRoundTrip(c, h, rest);
  }

  // ---- transactions in a block ----

  function RawTxns(txns: seq<Tx>): (raws: seq<seq<byte>>)
    ensures |raws| == |txns|
    ensures forall i :: 0 <= i < |txns| ==> raws[i] == TxBytes(txns[i])
  {
    seq(|txns|, i requires 0 <= i < |txns| => TxBytes(txns[i]))
  }

  /** Transaction.UnmarshalBinary into a fresh transaction; bytes after it are ignored. */
  function ParseTx(raw: seq<byte>): Option<Tx> {
    var r := ReadTx(raw);
    if r.Fail? then None else Some(r.value)
  }

  lemma ParseTxBytes(t: Tx)
    requires |TxBytes(t)| < TWO_63
    ensures ParseTx(TxBytes(t)) == Some(t)
  {
    TxRoundTrip(t, []);
    assert TxBytes(t) + [] == TxBytes(t);
  }

  lemma TxnsRoundTrip(txns: seq<Tx>)
    requires forall i :: 0 <= i < |txns| ==> |TxBytes(txns[i])| < TWO_63
    ensures ReadAll(ParseTx, RawTxns(txns)) == Some(txns)
  {
    forall i | 0 <= i < |txns|
      ensures ParseTx(RawTxns(txns)[i]) == Some(txns[i])
    {
      ParseTxBytes(txns[i]);
    }
    ReadAllGives(ParseTx, RawTxns(txns), txns);
  }

  // ---- blocks ----

  function BlockBytes(c: Crypto, b: Block): seq<byte>
    requires Encodable(c, b.header)
  {
    HeaderBytes(c, b.header) + Frame(b.sig) + Concat(FrameAll(RawTxns(b.txns)))
  }

  /** The signature: any length, zero included, up to what remains. */
  function ReadBlockSig(s: seq<byte>): (r: Parsed<seq<byte>>)
    ensures r.Ok? ==> |r.rest| < |s|
  {
    var (n, rest) :- ReadUvarint(s);
    Take(rest, n)
  }

  /** What DecodeBlock has read once the transactions begin. */
  function ReadPreamble(c: Crypto, raw: seq<byte>): Parsed<(Header, seq<byte>)> {
    var (h, s1) :- ReadHeader(c, raw);
    var (sig, s2) :- ReadBlockSig(s1);
    Ok((h, sig), s2)
  }

  /** DecodeBlock. Bytes after the last transaction are ignored. */
  function ReadBlock(c: Crypto, raw: seq<byte>): Option<Block> {
    var p := ReadPreamble(c, raw);
    if p.Fail? || |p.rest| < p.value.0.numTxns * SMALLEST_TX_SIZE then None else
    var txns := ReadFramed(ParseTx, p.rest, p.value.0.numTxns);
    if txns.None? then None else Some(Block(p.value.0, txns.value, p.value.1))
  }

  /** Every block a node can build and hold in memory, with its count matching its transactions. */
  ghost predicate BlockOk(c: Crypto, b: Block) {
    && HeaderOk(c, b.header)
    && b.header.numTxns == |b.txns|
    && |BlockBytes(c, b)| < TWO_63
  }

  lemma PreambleRoundTrip(c: Crypto, h: Header, sig: seq<byte>, rest: seq<byte>)
    requires HeaderOk(c, h) && |sig| < TWO_63
    ensures ReadPreamble(c, HeaderBytes(c, h) + Frame(sig) + rest) == Ok((ToMillis(h), sig), rest)
  {
    Regroup2(HeaderBytes(c, h), Frame(sig), rest);
    HeaderRoundTrip(c, h, Frame(sig) + rest);
    Regroup2(Uvarint(|sig|), sig, rest);
    UvarintRoundTrip(|sig|, sig + rest);
    TakeAppend(sig, rest);
  }

  lemma FramedTxnsRoundTrip(txns: seq<Tx>)
    requires |Concat(FrameAll(RawTxns(txns)))| < TWO_63
    ensures |Concat(FrameAll(RawTxns(txns)))| >= |txns| * SMALLEST_TX_SIZE
    ensures ReadFramed(ParseTx, Concat(FrameAll(RawTxns(txns))), |txns|) == Some(txns)
  {
    var raws := RawTxns(txns);
    FramesFit(raws, SMALLEST_TX_SIZE);
    FramesRoundTrip(raws, []);
    assert Concat(FrameAll(raws)) + [] == Concat(FrameAll(raws));
    TxnsRoundTrip(txns);
  }

  lemma ReadBlockParts(c: Crypto, raw: seq<byte>, h: Header, sig: seq<byte>, txns: seq<Tx>, rest: seq<byte>)
    requires ReadPreamble(c, raw) == Ok((h, sig), rest)
    requires |rest| >= h.numTxns * SMALLEST_TX_SIZE
    requires ReadFramed(ParseTx, rest, h.numTxns) == Some(txns)
    ensures ReadBlock(c, raw) == Some(Block(h, txns, sig))
  {
  }

  /** A block decodes to itself, with its time cut to milliseconds; no length or count bound of the
      decoder gets in the way. */
  lemma BlockRoundTrip(c: Crypto, b: Block)
    requires BlockOk(c, b)
    ensures ReadBlock(c, BlockBytes(c, b)) == Some(b.(header := ToMillis(b.header)))
  {
    var txns := Concat(FrameAll(RawTxns(b.txns)));
    PreambleRoundTrip(c, b.header, b.sig, txns);
    FramedTxnsRoundTrip(b.txns);
    ReadBlockParts(c, BlockBytes(c, b), ToMillis(b.header), b.sig, b.txns, txns);
  }

  /** EncodeBlock: appends to one buffer. */
  method EncodeBlock(c: Crypto, b: Block) returns (buf: seq<byte>)
    requires Encodable(c, b.header)
    ensures buf == BlockBytes(c, b)
  {
    buf := HeaderBytes(c, b.header);
    buf := AppendFrame(buf, b.sig);
    buf := AppendTxns(buf, b.txns);
  }

  /** The transaction loop of EncodeBlock. */
  method AppendTxns(front: seq<byte>, txns: seq<Tx>) returns (buf: seq<byte>)
    ensures buf == front + Concat(FrameAll(RawTxns(txns)))
  {
    buf := front;
    ghost var frames := FrameAll(RawTxns(txns));
    for i := 0 to |txns|
      invariant buf == front + Concat(frames[..i])
    {
      buf := AppendFrame(buf, TxBytes(txns[i]));
      ConcatGrows(front, frames, i);
    }
    assert frames[..|txns|] == frames;
  }

  method DecodeBlock(c: Crypto, rawBlk: seq<byte>) returns (r: Option<Block>)
    ensures r == ReadBlock(c, rawBlk)
  {
    var h := ReadHeader(c, rawBlk);
    if h.Fail? { return None; }
    var n := ReadUvarint(h.rest);
    if n.Fail? { return None; }
    if n.value > |n.rest| { return None; }
    var sig, rd := n.rest[..n.value], n.rest[n.value..];
    assert ReadPreamble(c, rawBlk) == Ok((h.value, sig), rd);
    if |rd| < h.value.numTxns * SMALLEST_TX_SIZE { return None; }
    var txns := DecodeFramed(ParseTx, rd, h.value.numTxns);
    r := if txns.None? then None else Some(Block(h.value, txns.value, sig));
  }

  // ---- one transaction without decoding the others ----

  function FindRawTx(c: Crypto, rawBlk: seq<byte>, idx: uint32): Lookup {
    var h := ReadHeader(c, rawBlk);
    if h.Fail? then Bad else
    var n := ReadUvarint(h.rest);
    if n.Fail? || n.value > |rawBlk| then Bad else
    FindFrame(Skip(n.rest, n.value), 0, h.value.numTxns, idx, |rawBlk|)
  }

  method GetRawBlockTx(c: Crypto, rawBlk: seq<byte>, idx: uint32) returns (r: Lookup)
    ensures r == FindRawTx(c, rawBlk, idx)
  {
    var h := ReadHeader(c, rawBlk);
    if h.Fail? { return Bad; }
    var n := ReadUvarint(h.rest);
    if n.Fail? { return Bad; }
    if n.value > |rawBlk| { return Bad; }
    r := LookForFrame(Skip(n.rest, n.value), h.value.numTxns, idx, |rawBlk|);
  }

  /** The two readers agree on where the transactions begin. */
  lemma FindRawTxStart(c: Crypto, rawBlk: seq<byte>, idx: uint32)
    requires ReadPreamble(c, rawBlk).Ok?
    ensures var p := ReadPreamble(c, rawBlk);
      && |p.rest| <= |rawBlk|
      && FindRawTx(c, rawBlk, idx) == FindFrame(p.rest, 0, p.value.0.numTxns, idx, |rawBlk|)
  {
  }

  /** On every byte string that decodes, the partial reader finds transaction idx exactly when there
      is one, and the bytes it returns decode to it. */
  lemma RawTxAgrees(c: Crypto, rawBlk: seq<byte>, idx: uint32)
    requires ReadBlock(c, rawBlk).Some?
    ensures var b := ReadBlock(c, rawBlk).value;
            var r := FindRawTx(c, rawBlk, idx);
      && (r.NotFound? <==> idx >= |b.txns|)
      && (idx < |b.txns| ==> r.Found? && ParseTx(r.raw) == Some(b.txns[idx]))
  {
    var p := ReadPreamble(c, rawBlk);
    var n := p.value.0.numTxns;
    FindRawTxStart(c, rawBlk, idx);
    FindFrameAgrees(p.rest, n, idx, |rawBlk|);
  }
}
