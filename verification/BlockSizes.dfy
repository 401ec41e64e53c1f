/** Block.Size: what the size functions predict for a whole block, against its real encoding. */
module BlockSizes {
  import opened Bytes
  import opened Varints
  import opened Keys
  import opened Transactions
  import opened Many
  import opened Frames
  import opened Blocks

  function Sum<T>(f: T -> nat, xs: seq<T>): nat {
    if xs == [] then 0 else Sum(f, xs[..|xs| - 1]) + f(xs[|xs| - 1])
  }

  lemma SumNext<T>(f: T -> nat, xs: seq<T>, i: nat)
    requires i < |xs|
    ensures Sum(f, xs[..i + 1]) == Sum(f, xs[..i]) + f(xs[i])
  {
    assert xs[..i + 1][..i] == xs[..i];
  }

  /** A transaction's predicted size with the prefix of that predicted size. */
  function FrameSize(t: Tx): nat { TotalLen(TxSize(t)) }

  method Size(c: Crypto, b: Block) returns (block: nat, txns: nat)
    requires Encodable(c, b.header)
    ensures block == |HeaderBytes(c, b.header)| + |Frame(b.sig)| + Sum(FrameSize, b.txns)
    ensures txns == Sum(TxSize, b.txns)
  {
    block, txns := |HeaderBytes(c, b.header)| + |Uvarint(|b.sig|)| + |b.sig|, 0;
    var frames;
    frames, txns := TxnSizes(b.txns);
    block := block + frames;
  }

  /** The loop of Size. */
  method TxnSizes(txns: seq<Tx>) returns (frames: nat, sizes: nat)
    ensures frames == Sum(FrameSize, txns) && sizes == Sum(TxSize, txns)
  {
    frames, sizes := 0, 0;
    for i := 0 to |txns|
      invariant frames == Sum(FrameSize, txns[..i]) && sizes == Sum(TxSize, txns[..i])
    {
      var txSz := TxSize(txns[i]);
      frames := frames + |Uvarint(txSz)| + txSz;
      sizes := sizes + txSz;
      SumNext(FrameSize, txns, i);
      SumNext(TxSize, txns, i);
    }
    assert txns[..|txns|] == txns;
  }

  lemma FrameSizeGap(t: Tx)
    ensures FrameSize(t) <= |Frame(TxBytes(t))| <= FrameSize(t) + 5
    ensures FrameSize(t) == |Frame(TxBytes(t))| <==> SizeIsExact(t)
  {
    TxSizeGap(t);
    UvarintStep(TxSize(t), |TxBytes(t)|);
  }

  /** Four more bytes lengthen the prefix by at most one. */
  lemma UvarintStep(small: nat, big: nat)
    requires small <= big <= small + 4
    ensures |Uvarint(small)| <= |Uvarint(big)| <= |Uvarint(small)| + 1
  {
    var k := |Uvarint(small)|;
    UvarintLenBands(small, k);
    UvarintLenBands(big, k + 1);
    UvarintLenBands(big, |Uvarint(big)|);
    UvarintLenBands(small, |Uvarint(big)|);
    assert Pow128(k + 1) == 128 * Pow128(k);
  }

  /** The prediction f for one item against its real encoding. */
  ghost predicate Predicts<T>(f: T -> nat, exact: T -> bool, x: T, part: seq<byte>) {
    f(x) <= |part| <= f(x) + 5 && (f(x) == |part| <==> exact(x))
  }

  lemma {:induction false} SumPredicts<T>(f: T -> nat, exact: T -> bool, xs: seq<T>, parts: seq<seq<byte>>)
    requires |xs| == |parts|
    requires forall i :: 0 <= i < |xs| ==> Predicts(f, exact, xs[i], parts[i])
    ensures Sum(f, xs) <= |Concat(parts)| <= Sum(f, xs) + 5 * |xs|
    ensures Sum(f, xs) == |Concat(parts)| <==> forall i :: 0 <= i < |xs| ==> exact(xs[i])
  {
    if xs != [] {
      var last := |xs| - 1;
      SumPredicts(f, exact, xs[..last], parts[..last]);
      assert Predicts(f, exact, xs[last], parts[last]);
      assert parts == parts[..last] + [parts[last]];
      ConcatAppend(parts[..last], parts[last]);
      assert forall i :: 0 <= i < last ==> xs[..last][i] == xs[i];
    }
  }

  lemma TxnsSizeGap(txns: seq<Tx>)
    ensures var actual := |Concat(FrameAll(RawTxns(txns)))|;
      && Sum(FrameSize, txns) <= actual <= Sum(FrameSize, txns) + 5 * |txns|
      && (Sum(FrameSize, txns) == actual <==> forall i :: 0 <= i < |txns| ==> SizeIsExact(txns[i]))
  {
    var frames := FrameAll(RawTxns(txns));
    forall i | 0 <= i < |txns|
      ensures Predicts(FrameSize, SizeIsExact, txns[i], frames[i])
    {
      FrameSizeGap(txns[i]);
    }
    SumPredicts(FrameSize, SizeIsExact, txns, frames);
  }

  /** Size never overstates the encoding, understates it by at most 5 bytes per transaction, and is
      right exactly when every transaction's own size is. */
  lemma BlockSizeGap(c: Crypto, b: Block)
    requires Encodable(c, b.header)
    ensures var size := |HeaderBytes(c, b.header)| + |Frame(b.sig)| + Sum(FrameSize, b.txns);
      && size <= |BlockBytes(c, b)| <= size + 5 * |b.txns|
      && (size == |BlockBytes(c, b)| <==> forall i :: 0 <= i < |b.txns| ==> SizeIsExact(b.txns[i]))
  {
    TxnsSizeGap(b.txns);
  }
}
