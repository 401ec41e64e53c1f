/** Base-128 varints, zig-zag for signed values (Protocol Buffers encoding guide,
    "Base 128 Varints" and "Signed Integers"), as Go's encoding/binary reads and writes them. */
module Varints {
  import opened Bytes

  /** 2 to the power 7k. */
  function Pow128(k: nat): (p: nat)
    ensures p > 0
  {
    if k == 0 then 1 else 128 * Pow128(k - 1)
  }

  function Uvarint(x: nat): (r: seq<byte>)
    ensures |r| >= 1
  {
    if x < 128 then [x] else [x % 128 + 128] + Uvarint(x / 128)
  }

  /** The reader of byte number i of a varint. Byte 9 may only be 0 or 1, and there is no byte 10.
      Padded (non-minimal) encodings are accepted. */
  function ReadUvarintFrom(s: seq<byte>, i: nat): (r: Parsed<nat>)
    requires i <= 10
    ensures r.Ok? ==> |r.rest| < |s| && r.rest == s[|s| - |r.rest|..]
    decreases |s|
  {
    if i == 10 || s == [] then Fail
    else if s[0] < 128 then
      if i == 9 && s[0] > 1 then Fail else Ok(s[0], s[1..])
    else
      var (hi, rest) :- ReadUvarintFrom(s[1..], i + 1);
      Ok(s[0] - 128 + 128 * hi, rest)
  }

  lemma {:induction false} ReadUvarintBound(s: seq<byte>, i: nat)
    requires i <= 10
    requires ReadUvarintFrom(s, i).Ok?
    ensures i <= 9 && ReadUvarintFrom(s, i).value < 2 * Pow128(9 - i)
    decreases |s|
  {
    if s[0] >= 128 {
      ReadUvarintBound(s[1..], i + 1);
    } else if i < 9 {
      assert 2 * Pow128(9 - i) >= 2 * 128;
    }
  }

  function ReadUvarint(s: seq<byte>): (r: Parsed<uint64>)
    ensures r.Ok? ==> |r.rest| < |s| && r.rest == s[|s| - |r.rest|..]
  {
    var (x, rest) :- ReadUvarintFrom(s, 0);
    ReadUvarintBound(s, 0);
    Ok(x, rest)
  }

  lemma {:induction false} UvarintFrom(x: nat, i: nat, rest: seq<byte>)
    requires i <= 9 && x < 2 * Pow128(9 - i)
    ensures ReadUvarintFrom(Uvarint(x) + rest, i) == Ok(x, rest)
    decreases x
  {
    if x < 128 {
      assert (Uvarint(x) + rest)[1..] == rest;
    } else {
      assert i < 9;
      UvarintFrom(x / 128, i + 1, rest);
      assert (Uvarint(x) + rest)[1..] == Uvarint(x / 128) + rest;
    }
  }

  lemma UvarintRoundTrip(x: uint64, rest: seq<byte>)
    ensures ReadUvarint(Uvarint(x) + rest) == Ok(x, rest)
  {
    UvarintFrom(x, 0, rest);
  }

  /** Zig-zag: 0, -1, 1, -2, 2, ... become 0, 1, 2, 3, 4, ... */
  function ZigZag(x: int): nat { if x < 0 then -2 * x - 1 else 2 * x }

  function UnZigZag(u: uint64): int64 { if u % 2 == 0 then u / 2 else -(u / 2) - 1 }

  function Varint(x: int): (r: seq<byte>)
    ensures |r| >= 1
  {
    Uvarint(ZigZag(x))
  }

  function ReadVarint(s: seq<byte>): (r: Parsed<int64>)
    ensures r.Ok? ==> |r.rest| < |s|
  {
    var (u, rest) :- ReadUvarint(s);
    Ok(UnZigZag(u), rest)
  }

  lemma VarintRoundTrip(x: int64, rest: seq<byte>)
    ensures ReadVarint(Varint(x) + rest) == Ok(x, rest)
  {
    UvarintRoundTrip(ZigZag(x), rest);
    assert UnZigZag(ZigZag(x)) == x;
  }

  /** A varint of k bytes holds exactly the numbers below 2^(7k) that need k bytes. */
  lemma {:induction false} UvarintLenBands(x: nat, k: nat)
    requires k >= 1
    ensures |Uvarint(x)| <= k <==> x < Pow128(k)
    decreases k
  {
    if k == 1 {
      assert Pow128(1) == 128;
    } else if x >= 128 {
      UvarintLenBands(x / 128, k - 1);
      assert Pow128(k) == 128 * Pow128(k - 1);
    } else {
      assert Pow128(k) == 128 * Pow128(k - 1);
    }
  }

  /** uvarintLen: the length of the encoding, without producing it. */
  method UvarintLen(x: uint64) returns (l: nat)
    ensures l == |Uvarint(x)|
    ensures 1 <= l <= 10
  {
    var y: nat, n: nat := x, 0;
    while y >= 128
      invariant n + |Uvarint(y)| == |Uvarint(x)|
    {
      y := y / 128;
      n := n + 1;
    }
    l := n + 1;
    UvarintLenBands(x, 10);
    assert Pow128(10) == 128 * Pow128(9);
  }

  /** varintLen: doubles with 64-bit wrap-around and complements, then counts as unsigned. */
  method VarintLen(x: int64) returns (l: nat)
    ensures l == |Varint(x)|
  {
    var ux := (2 * Bits64(x)) % TWO_64;
    if x < 0 {
      ux := TWO_64 - 1 - ux;
    }
    assert ux == ZigZag(x);
    l := UvarintLen(ux);
  }
}
