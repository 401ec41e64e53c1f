/** Transactions: the binary codec of core/types/transaction.go and core/crypto/auth/signer.go,
    and the size functions that predict its length. Nil and empty byte slices encode alike here,
    so both are the empty sequence. */
module Transactions {
  import opened Bytes
  import opened Varints
  import opened Wire
  import DecimalStrings

  datatype AuthSig = AuthSig(data: seq<byte>, kind: seq<byte>)

  datatype Body = Body(
    description: seq<byte>,
    payload: seq<byte>,
    payloadType: seq<byte>,
    fee: Option<int>,
    nonce: uint64,
    chainID: seq<byte>)

  datatype Tx = Tx(
    sig: Option<AuthSig>,
    body: Option<Body>,
    serialization: seq<byte>,
    sender: seq<byte>)

  const TX_VERSION: uint16 := 0
  const SMALLEST_TX_SIZE := 6

  // ---- auth.Signature ----

  function SigBytes(g: AuthSig): (r: seq<byte>)
    ensures |r| >= 2
  {
    CompactString(g.data) + CompactString(g.kind)
  }

  /** One length-prefixed field of auth.Signature.ReadFrom, which always sees a sized reader. */
  function ReadSigField(s: seq<byte>): Parsed<seq<byte>> {
    var (n, rest) :- ReadUvarint(s);
    if n == 0 then Ok([], rest) else SafeRead(rest, n, true)
  }

  /** Signature.UnmarshalBinary: nothing may be left over. */
  function ReadSig(s: seq<byte>): Option<AuthSig> {
    var d := ReadSigField(s);
    if d.Fail? then None else
    var k := ReadSigField(d.rest);
    if k.Fail? || k.rest != [] then None else Some(AuthSig(d.value, k.value))
  }

  lemma SigFieldRoundTrip(d: seq<byte>, rest: seq<byte>)
    requires |d| < TWO_64
    ensures ReadSigField(CompactString(d) + rest) == Ok(d, rest)
  {
    UvarintRoundTrip(|d|, d + rest);
    assert CompactString(d) + rest == Uvarint(|d|) + (d + rest);
    TakeAppend(d, rest);
    if |d| == 0 {
      assert d + rest == rest;
    }
  }

  lemma SigRoundTrip(g: AuthSig)
    requires |SigBytes(g)| < TWO_63
    ensures ReadSig(SigBytes(g)) == Some(g)
  {
    SigFieldRoundTrip(g.data, CompactString(g.kind));
    SigFieldRoundTrip(g.kind, []);
    assert CompactString(g.kind) + [] == CompactString(g.kind);
  }

  // ---- TransactionBody ----

  function BodyBytes(b: Body): (r: seq<byte>)
    ensures |r| >= 13
  {
    CompactString(b.description)
    + CompactBytes(Some(b.payload))
    + CompactString(b.payloadType)
    + BigInt(b.fee)
    + LE(b.nonce, 8)
    + CompactString(b.chainID)
  }

  function ReadBodyFrom(s: seq<byte>): Parsed<Body> {
    var (description, s1) :- ReadCompactString(s);
    var (payload, s2) :- ReadCompactBytes(s1, false);
    var (payloadType, s3) :- ReadCompactString(s2);
    var (fee, s4) :- ReadBigInt(s3);
    var (nonce, s5) :- Read64(s4);
    var (chainID, s6) :- ReadCompactString(s5);
    Ok(Body(description, OrEmpty(payload), payloadType, fee, nonce, chainID), s6)
  }

  /** The strict TransactionBody.UnmarshalBinary used inside a transaction. */
  function ReadBody(s: seq<byte>): Option<Body> {
    var r := ReadBodyFrom(s);
    if r.Fail? || r.rest != [] then None else Some(r.value)
  }

  lemma BodyFieldLengths(b: Body)
    ensures |b.description| < |BodyBytes(b)| && |b.payload| < |BodyBytes(b)| && |b.payloadType| < |BodyBytes(b)|
    ensures |b.chainID| < |BodyBytes(b)|
    ensures b.fee.Some? ==> |DecimalStrings.IntString(b.fee.value)| < |BodyBytes(b)|
  {
  }

  lemma ReadBodyFields(s: seq<byte>, s1: seq<byte>, s2: seq<byte>, s3: seq<byte>, s4: seq<byte>, s5: seq<byte>, b: Body)
    requires ReadCompactString(s) == Ok(b.description, s1)
    requires ReadCompactBytes(s1, false) == Ok(Some(b.payload), s2)
    requires ReadCompactString(s2) == Ok(b.payloadType, s3)
    requires ReadBigInt(s3) == Ok(b.fee, s4)
    requires Read64(s4) == Ok(b.nonce, s5)
    requires ReadCompactString(s5) == Ok(b.chainID, [])
    ensures ReadBody(s) == Some(b)
  {
  }

  lemma BodyRoundTrip(b: Body)
    requires |BodyBytes(b)| < TWO_63
    ensures ReadBody(BodyBytes(b)) == Some(b)
  {
    BodyFieldLengths(b);
    var e1, e2, e3 := CompactString(b.description), CompactBytes(Some(b.payload)), CompactString(b.payloadType);
    var e4, e5, e6 := BigInt(b.fee), LE(b.nonce, 8), CompactString(b.chainID);
    Regroup6(e1, e2, e3, e4, e5, e6, []);
    assert BodyBytes(b) + [] == BodyBytes(b);
    CompactStringRoundTrip(b.description, e2 + (e3 + (e4 + (e5 + (e6 + [])))));
    CompactBytesRoundTrip(Some(b.payload), false, e3 + (e4 + (e5 + (e6 + []))));
    CompactStringRoundTrip(b.payloadType, e4 + (e5 + (e6 + [])));
    BigIntRoundTrip(b.fee, e5 + (e6 + []));
    Read64LE(b.nonce, e6 + []);
    CompactStringRoundTrip(b.chainID, []);
    ReadBodyFields(BodyBytes(b), e2 + (e3 + (e4 + (e5 + (e6 + [])))), e3 + (e4 + (e5 + (e6 + []))),
                   e4 + (e5 + (e6 + [])), e5 + (e6 + []), e6 + [], b);
  }

  // ---- Transaction ----

  function SigPart(t: Tx): seq<byte> { if t.sig.Some? then SigBytes(t.sig.value) else [] }

  function BodyPart(t: Tx): seq<byte> { if t.body.Some? then BodyBytes(t.body.value) else [] }

  function TxBytes(t: Tx): (r: seq<byte>)
    ensures |r| >= SMALLEST_TX_SIZE
  {
    LE(TX_VERSION, 2)
    + CompactBytes(Some(SigPart(t)))
    + CompactBytes(Some(BodyPart(t)))
    + CompactString(t.serialization)
    + CompactBytes(Some(t.sender))
  }

  /** An empty signature field leaves the signature nil. */
  function ReadSigPart(s: seq<byte>): Parsed<Option<AuthSig>> {
    var (raw, rest) :- ReadCompactBytes(s, false);
    if OrEmpty(raw) == [] then Ok(None, rest)
    else
      var sig := ReadSig(OrEmpty(raw));
      if sig.None? then Fail else Ok(sig, rest)
  }

  function ReadBodyPart(s: seq<byte>): Parsed<Option<Body>> {
    var (raw, rest) :- ReadCompactBytes(s, false);
    if OrEmpty(raw) == [] then Ok(None, rest)
    else
      var body := ReadBody(OrEmpty(raw));
      if body.None? then Fail else Ok(body, rest)
  }

  /** deserialize, as the non-strict UnmarshalBinary of a fresh Transaction runs it: bytes after the
      sender are ignored. */
  function ReadTx(s: seq<byte>): Parsed<Tx> {
    var (ver, s1) :- Read16(s);
    if ver != TX_VERSION then Fail else
    var (sig, s2) :- ReadSigPart(s1);
    var (body, s3) :- ReadBodyPart(s2);
    var (serialization, s4) :- ReadCompactString(s3);
    var (sender, s5) :- ReadCompactBytes(s4, false);
    Ok(Tx(sig, body, serialization, OrEmpty(sender)), s5)
  }

  lemma TxFieldLengths(t: Tx)
    ensures |SigPart(t)| < |TxBytes(t)| && |BodyPart(t)| < |TxBytes(t)|
    ensures |t.serialization| < |TxBytes(t)| && |t.sender| < |TxBytes(t)|
  {
  }

  lemma SigPartRoundTrip(t: Tx, rest: seq<byte>)
    requires |SigPart(t)| < TWO_63
    ensures ReadSigPart(CompactBytes(Some(SigPart(t))) + rest) == Ok(t.sig, rest)
  {
    CompactBytesRoundTrip(Some(SigPart(t)), false, rest);
    if t.sig.Some? { SigRoundTrip(t.sig.value); }
  }

  lemma BodyPartRoundTrip(t: Tx, rest: seq<byte>)
    requires |BodyPart(t)| < TWO_63
    ensures ReadBodyPart(CompactBytes(Some(BodyPart(t))) + rest) == Ok(t.body, rest)
  {
    CompactBytesRoundTrip(Some(BodyPart(t)), false, rest);
    if t.body.Some? { BodyRoundTrip(t.body.value); }
  }

  lemma ReadTxFields(s: seq<byte>, s1: seq<byte>, s2: seq<byte>, s3: seq<byte>, s4: seq<byte>, rest: seq<byte>, t: Tx)
    requires Read16(s) == Ok(TX_VERSION, s1)
    requires ReadSigPart(s1) == Ok(t.sig, s2)
    requires ReadBodyPart(s2) == Ok(t.body, s3)
    requires ReadCompactString(s3) == Ok(t.serialization, s4)
    requires ReadCompactBytes(s4, false) == Ok(Some(t.sender), rest)
    ensures ReadTx(s) == Ok(t, rest)
  {
  }

  lemma TxRoundTrip(t: Tx, rest: seq<byte>)
    requires |TxBytes(t)| < TWO_63
    ensures ReadTx(TxBytes(t) + rest) == Ok(t, rest)
  {
    TxFieldLengths(t);
    var e1, e2, e3 := LE(TX_VERSION, 2), CompactBytes(Some(SigPart(t))), CompactBytes(Some(BodyPart(t)));
    var e4, e5 := CompactString(t.serialization), CompactBytes(Some(t.sender));
    Regroup2(e1 + e2 + e3 + e4, e5, rest);
    Regroup4(e1, e2, e3, e4, e5 + rest);
    Read16LE(TX_VERSION, e2 + (e3 + (e4 + (e5 + rest))));
    SigPartRoundTrip(t, e3 + (e4 + (e5 + rest)));
    BodyPartRoundTrip(t, e4 + (e5 + rest));
    CompactStringRoundTrip(t.serialization, e5 + rest);
    CompactBytesRoundTrip(Some(t.sender), false, rest);
    ReadTxFields(TxBytes(t) + rest, e2 + (e3 + (e4 + (e5 + rest))), e3 + (e4 + (e5 + rest)),
                 e4 + (e5 + rest), e5 + rest, rest, t);
  }

  /** No transaction is shorter than the minimum the block decoder assumes, and the empty one attains it. */
  lemma SmallestTx(t: Tx)
    ensures |TxBytes(Tx(None, None, [], []))| == SMALLEST_TX_SIZE <= |TxBytes(t)|
  {
    assert ZigZag(0) == 0;
  }

  // ---- predicted sizes ----

  function TotalLen(l: nat): nat { l + |Uvarint(l)| }

  method TotalLength(l: uint64) returns (n: nat)
    ensures n == TotalLen(l)
  {
    var u := UvarintLen(l);
    n := l + u;
  }

  function SigSize(g: AuthSig): nat { TotalLen(|g.data|) + TotalLen(|g.kind|) }

  function BodySize(b: Body): nat {
    TotalLen(|b.description|) + TotalLen(|b.payload|) + TotalLen(|b.payloadType|)
    + |BigInt(b.fee)| + 8 + TotalLen(|b.chainID|)
  }

  /** Transaction.SerializeSize. */
  function TxSize(t: Tx): nat {
    2
    + TotalLen(if t.sig.Some? then SigSize(t.sig.value) else 0)
    + TotalLen(if t.body.Some? then BodySize(t.body.value) else 0)
    + TotalLen(|t.serialization|)
    + TotalLen(|t.sender|)
  }

  /** Some k >= 1 has 2^(7k-1) <= l < 2^(7k): the lengths whose signed prefix is one byte longer
      than the unsigned one. */
  ghost predicate InBand(l: nat) {
    exists k :: k >= 1 && Band(l, k)
  }

  ghost predicate Band(l: nat, k: nat) {
    Pow128(k) <= 2 * l < 2 * Pow128(k)
  }

  /** l is in a band when the unsigned prefix of l has no room to double it. */
  lemma InBandAt(l: nat)
    ensures InBand(l) <==> 2 * l >= Pow128(|Uvarint(l)|)
  {
    var k := |Uvarint(l)|;
    UvarintLenBands(l, k);
    if 2 * l >= Pow128(k) {
      assert Band(l, k);
    } else if InBand(l) {
      var j :| j >= 1 && Band(l, j);
      UvarintLenBands(l, j);
      Pow128Monotone(k, j);
    }
  }

  lemma DoubledLen(l: nat)
    ensures |Uvarint(2 * l)| == |Uvarint(l)| + if 2 * l >= Pow128(|Uvarint(l)|) then 1 else 0
  {
    var k := |Uvarint(l)|;
    UvarintLenBands(l, k);
    UvarintLenBands(2 * l, k);
    UvarintLenBands(2 * l, k + 1);
    assert Pow128(k + 1) == 128 * Pow128(k);
    UvarintGrows(l);
  }

  /** The signed prefix of l is the unsigned prefix of 2l. */
  lemma PrefixGap(l: nat)
    ensures |Varint(l)| == |Uvarint(l)| + if InBand(l) then 1 else 0
  {
    assert Varint(l) == Uvarint(2 * l);
    InBandAt(l);
    DoubledLen(l);
  }

  lemma UvarintGrows(l: nat)
    ensures |Uvarint(l)| <= |Uvarint(2 * l)|
  {
    UvarintLenBands(2 * l, |Uvarint(2 * l)|);
    UvarintLenBands(l, |Uvarint(2 * l)|);
  }

  lemma {:induction false} Pow128Monotone(i: nat, j: nat)
    requires i <= j
    ensures Pow128(i) <= Pow128(j)
  {
    if i < j {
      Pow128Monotone(i, j - 1);
    }
  }

  /** A length one short of the real one costs at most one more prefix byte. */
  lemma PrefixGapShort(l: nat)
    requires l >= 1
    ensures |Uvarint(l - 1)| <= |Varint(l)| <= |Uvarint(l - 1)| + 1
  {
    PrefixGap(l);
    var k := |Uvarint(l - 1)|;
    UvarintLenBands(l - 1, k);
    UvarintLenBands(2 * l, k + 1);
    assert Pow128(k + 1) == 128 * Pow128(k);
    UvarintLenBands(l - 1, |Uvarint(l)|);
    UvarintLenBands(l, |Uvarint(l)|);
  }

  lemma SigSizeExact(g: AuthSig)
    ensures SigSize(g) == |SigBytes(g)|
  {
  }

  lemma BodySizeGap(b: Body)
    ensures |BodyBytes(b)| == BodySize(b) + if InBand(|b.payload|) then 1 else 0
  {
    PrefixGap(|b.payload|);
  }

  /** Every length whose prefix is written as a signed varint, outside the bands. */
  ghost predicate SizeIsExact(t: Tx) {
    && !InBand(|SigPart(t)|)
    && !InBand(|BodyPart(t)|)
    && (t.body.Some? ==> !InBand(|t.body.value.payload|))
    && !InBand(|t.sender|)
  }

  /** SerializeSize never exceeds the encoded length, falls short by at most 4 bytes, and is exact
      if and only if the four signed-prefix lengths all avoid the bands. */
  lemma TxSizeGap(t: Tx)
    ensures TxSize(t) <= |TxBytes(t)| <= TxSize(t) + 4
    ensures TxSize(t) == |TxBytes(t)| <==> SizeIsExact(t)
  {
    PrefixGap(|SigPart(t)|);
    PrefixGap(|BodyPart(t)|);
    PrefixGap(|t.sender|);
    if t.sig.Some? { SigSizeExact(t.sig.value); }
    if t.body.Some? {
      BodySizeGap(t.body.value);
      PrefixGapShort(|BodyPart(t)|);
    }
  }

  /** Plain equality, which the method's comment intends, fails on a 64-byte sender. */
  lemma TxSizeNotExact()
    ensures exists t :: TxSize(t) != |TxBytes(t)|
  {
    var t := Tx(None, None, [], seq(64, _ => 0));
    assert Band(64, 1) by { assert Pow128(1) == 128; }
    TxSizeGap(t);
    assert TxSize(t) != |TxBytes(t)|;
  }
}
