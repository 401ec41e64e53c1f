/** Bytes, fixed-width integers and the result types shared by every codec.
    A reader is the sequence of bytes not yet consumed: each parser takes it and
    returns the parsed value with what is left, or `Fail`. */
module Bytes {

  type byte = b: int | 0 <= b < 256

  const HASH_LEN := 32
  type Hash = h: seq<byte> | |h| == HASH_LEN witness seq(HASH_LEN, _ => 0)

  datatype Option<+T> = None | Some(value: T)

  /** A byte slice with nil read as empty. */
  function OrEmpty(d: Option<seq<byte>>): seq<byte> { if d.Some? then d.value else [] }

  datatype Parsed<+T> = Fail | Ok(value: T, rest: seq<byte>) {
    predicate IsFailure() { Fail? }

    function PropagateFailure<U>(): Parsed<U>
      requires Fail?
    {
      Fail
    }

    function Extract(): (T, seq<byte>)
      requires Ok?
    {
      (value, rest)
    }
  }

  const TWO_16: int := 0x1_0000
  const TWO_31: int := 0x8000_0000
  const TWO_32: int := 0x1_0000_0000
  const TWO_63: int := 0x8000_0000_0000_0000
  const TWO_64: int := 0x1_0000_0000_0000_0000

  type uint16 = x: int | 0 <= x < TWO_16
  type uint32 = x: int | 0 <= x < TWO_32
  type uint64 = x: int | 0 <= x < TWO_64
  type int32 = x: int | -TWO_31 <= x < TWO_31
  type int64 = x: int | -TWO_63 <= x < TWO_63

  /** 256 to the power w. */
  function Pow256(w: nat): (p: nat)
    ensures p > 0
  {
    if w == 0 then 1 else 256 * Pow256(w - 1)
  }

  lemma Pow256Values()
    ensures Pow256(1) == 256
    ensures Pow256(2) == TWO_16
    ensures Pow256(4) == TWO_32
    ensures Pow256(8) == TWO_64
  {
    assert Pow256(3) == 256 * TWO_16;
    assert Pow256(5) == 256 * TWO_32;
    assert Pow256(6) == TWO_16 * TWO_32;
    assert Pow256(7) == 256 * TWO_16 * TWO_32;
  }

  /** Little-endian, `w` bytes. Higher digits are dropped, as a Go integer conversion does. */
  function LE(n: nat, w: nat): (r: seq<byte>)
    ensures |r| == w
    decreases w, n
  {
    if w == 0 then [] else [n % 256] + LE(n / 256, w - 1)
  }

  function FromLE(s: seq<byte>): nat {
    if s == [] then 0 else s[0] + 256 * FromLE(s[1..])
  }

  /** Big-endian, `w` bytes. */
  function BE(n: nat, w: nat): (r: seq<byte>)
    ensures |r| == w
    decreases w, n
  {
    if w == 0 then [] else BE(n / 256, w - 1) + [n % 256]
  }

  function FromBE(s: seq<byte>): nat {
    if s == [] then 0 else 256 * FromBE(s[..|s| - 1]) + s[|s| - 1]
  }

  lemma {:induction false} LERoundTrip(n: nat, w: nat)
    requires n < Pow256(w)
    ensures FromLE(LE(n, w)) == n
    decreases w
  {
    if w > 0 {
      LERoundTrip(n / 256, w - 1);
      assert LE(n, w)[1..] == LE(n / 256, w - 1);
    }
  }

  lemma DropDigit(n: nat, p: nat)
    requires p > 0
    ensures n % (256 * p) % 256 == n % 256 && n % (256 * p) / 256 == n / 256 % p
  {
    var q, r := n / 256 / p, n / 256 % p;
    assert n == 256 * (q * p + r) + n % 256;
    assert n == q * (256 * p) + (256 * r + n % 256);
    assert 256 * r + n % 256 < 256 * p;
    DivModUnique(n, 256 * p, q, 256 * r + n % 256);
  }

  lemma DivModUnique(n: nat, d: nat, q: nat, r: nat)
    requires n == q * d + r && r < d
    ensures n / d == q && n % d == r
  {
    MulStep(n / d, q, d);
    MulStep(q, n / d, d);
    assert n / d * d + n % d == n;
  }

  lemma {:induction false} MulStep(a: nat, b: nat, d: nat)
    ensures a < b ==> a * d + d <= b * d
  {
    if a + 1 < b { MulStep(a, b - 1, d); }
  }

  /** Only the lower digits are written. */
  lemma {:induction false} LEWraps(n: nat, w: nat)
    ensures LE(n, w) == LE(n % Pow256(w), w)
    decreases w
  {
    if w > 0 {
      DropDigit(n, Pow256(w - 1));
      LEWraps(n / 256, w - 1);
      assert Pow256(w) == 256 * Pow256(w - 1);
    }
  }

  lemma {:induction false} BERoundTrip(n: nat, w: nat)
    requires n < Pow256(w)
    ensures FromBE(BE(n, w)) == n
    decreases w
  {
    if w > 0 {
      BERoundTrip(n / 256, w - 1);
      assert BE(n, w)[..w - 1] == BE(n / 256, w - 1);
    }
  }

  lemma {:induction false} FromLEBound(s: seq<byte>)
    ensures FromLE(s) < Pow256(|s|)
  {
    if s != [] {
      FromLEBound(s[1..]);
    }
  }

  lemma {:induction false} FromBEBound(s: seq<byte>)
    ensures FromBE(s) < Pow256(|s|)
  {
    if s != [] {
      FromBEBound(s[..|s| - 1]);
    }
  }

  /** The two's-complement bit pattern of a signed 64-bit value, and back. */
  function Bits64(x: int64): uint64 { if x < 0 then x + TWO_64 else x }

  function Signed64(u: uint64): int64 { if u < TWO_63 then u else u - TWO_64 }

  function Bits32(x: int32): uint32 { if x < 0 then x + TWO_32 else x }

  function Signed32(u: uint32): int32 { if u < TWO_31 then u else u - TWO_32 }

  /** Reads exactly n bytes, as io.ReadFull does. */
  function Take(s: seq<byte>, n: nat): (r: Parsed<seq<byte>>)
    ensures r.Ok? <==> n <= |s|
    ensures r.Ok? ==> |r.value| == n && s == r.value + r.rest
  {
    if n <= |s| then Ok(s[..n], s[n..]) else Fail
  }

  lemma TakeAppend(a: seq<byte>, rest: seq<byte>)
    ensures Take(a + rest, |a|) == Ok(a, rest)
  {
    assert (a + rest)[..|a|] == a;
    assert (a + rest)[|a|..] == rest;
  }

  function Read16(s: seq<byte>): Parsed<uint16> {
    var (b, r) :- Take(s, 2);
    FromLEBound(b);
    Pow256Values();
    Ok(FromLE(b), r)
  }

  function Read32(s: seq<byte>): Parsed<uint32> {
    var (b, r) :- Take(s, 4);
    FromLEBound(b);
    Pow256Values();
    Ok(FromLE(b), r)
  }

  function Read64(s: seq<byte>): Parsed<uint64> {
    var (b, r) :- Take(s, 8);
    FromLEBound(b);
    Pow256Values();
    Ok(FromLE(b), r)
  }

  lemma Read16LE(n: uint16, rest: seq<byte>)
    ensures Read16(LE(n, 2) + rest) == Ok(n, rest)
  {
    TakeAppend(LE(n, 2), rest);
    Pow256Values();
    LERoundTrip(n, 2);
  }

  lemma Read32LE(n: uint32, rest: seq<byte>)
    ensures Read32(LE(n, 4) + rest) == Ok(n, rest)
  {
    TakeAppend(LE(n, 4), rest);
    Pow256Values();
    LERoundTrip(n, 4);
  }

  lemma Read64LE(n: uint64, rest: seq<byte>)
    ensures Read64(LE(n, 8) + rest) == Ok(n, rest)
  {
    TakeAppend(LE(n, 8), rest);
    Pow256Values();
    LERoundTrip(n, 8);
  }

  // Regrouping of concatenations, so that parsers meet their field at the front.

  lemma Regroup2<T>(a: seq<T>, b: seq<T>, rest: seq<T>)
    ensures a + b + rest == a + (b + rest)
  {
  }

  lemma Regroup4<T>(a: seq<T>, b: seq<T>, c: seq<T>, d: seq<T>, rest: seq<T>)
    ensures a + b + c + d + rest == a + (b + (c + (d + rest)))
  {
    Regroup2(a + b + c, d, rest);
    Regroup2(a + b, c, d + rest);
    Regroup2(a, b, c + (d + rest));
  }

  lemma Regroup6<T>(a: seq<T>, b: seq<T>, c: seq<T>, d: seq<T>, e: seq<T>, f: seq<T>, rest: seq<T>)
    ensures a + b + c + d + e + f + rest == a + (b + (c + (d + (e + (f + rest)))))
  {
    Regroup2(a + b + c + d + e, f, rest);
    Regroup2(a + b + c + d, e, f + rest);
    Regroup4(a, b, c, d, e + (f + rest));
  }
}
