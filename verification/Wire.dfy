/** The length-prefixed primitives of core/types/transaction.go. A Go slice that may be nil is
    an `Option`; a string is the sequence of its bytes. */
module Wire {
  import opened Bytes
  import opened Varints
  import opened DecimalStrings

  /** safeReadBytes. A sized reader (one that knows how much it still has) refuses a length beyond
      its data. A counting reader goes through io.CopyN with the length as an int64: from 2^63 up
      that is negative, nothing is copied and no error is reported. */
  function SafeRead(s: seq<byte>, length: uint64, sized: bool): (r: Parsed<seq<byte>>)
    ensures r.Ok? ==> |r.rest| <= |s|
  {
    if !sized && length >= TWO_63 then Ok([], s) else Take(s, length)
  }

  // ---- compact bytes: signed varint length, -1 for nil ----

  function CompactBytes(data: Option<seq<byte>>): (r: seq<byte>)
    ensures |r| >= 1
  {
    match data
    case None => Varint(-1)
    case Some(d) => Varint(|d|) + d
  }

  function ReadCompactBytes(s: seq<byte>, sized: bool): (r: Parsed<Option<seq<byte>>>)
    ensures r.Ok? ==> |r.rest| < |s|
  {
    var (n, rest) :- ReadVarint(s);
    if n == -1 then Ok(None, rest)
    else if n == 0 then Ok(Some([]), rest)
    else if n < 0 then Fail
    else
      var (d, rest2) :- SafeRead(rest, n, sized);
      Ok(Some(d), rest2)
  }

  lemma CompactBytesRoundTrip(data: Option<seq<byte>>, sized: bool, rest: seq<byte>)
    requires data.Some? ==> |data.value| < TWO_63
    ensures ReadCompactBytes(CompactBytes(data) + rest, sized) == Ok(data, rest)
  {
    match data
    case None => VarintRoundTrip(-1, rest);
    case Some(d) =>
      VarintRoundTrip(|d|, d + rest);
      assert CompactBytes(data) + rest == Varint(|d|) + (d + rest);
      TakeAppend(d, rest);
      if |d| == 0 {
        assert d + rest == rest;
      }
  }

  // ---- compact strings: unsigned varint length, always read through a counting reader ----

  function CompactString(d: seq<byte>): (r: seq<byte>)
    ensures |r| >= 1
  {
    Uvarint(|d|) + d
  }

  function ReadCompactString(s: seq<byte>): (r: Parsed<seq<byte>>)
    ensures r.Ok? ==> |r.rest| < |s|
  {
    var (n, rest) :- ReadUvarint(s);
    if n == 0 then Ok([], rest) else SafeRead(rest, n, false)
  }

  lemma CompactStringRoundTrip(d: seq<byte>, rest: seq<byte>)
    requires |d| < TWO_63
    ensures ReadCompactString(CompactString(d) + rest) == Ok(d, rest)
  {
    UvarintRoundTrip(|d|, d + rest);
    assert CompactString(d) + rest == Uvarint(|d|) + (d + rest);
    TakeAppend(d, rest);
    if |d| == 0 {
      assert d + rest == rest;
    }
  }

  // ---- WriteBytes: 32-bit length, all ones for nil ----

  const NIL_LEN: int := TWO_32 - 1

  function Bytes32(data: Option<seq<byte>>): (r: seq<byte>)
    ensures |r| >= 4
  {
    match data
    case None => LE(NIL_LEN, 4)
    case Some(d) => LE(|d|, 4) + d
  }

  function ReadBytes32(s: seq<byte>): (r: Parsed<Option<seq<byte>>>)
    ensures r.Ok? ==> |r.rest| < |s|
  {
    var (n, rest) :- Read32(s);
    if n == 0 then Ok(Some([]), rest)
    else if n == NIL_LEN then Ok(None, rest)
    else
      var (d, rest2) :- SafeRead(rest, n, true);
      Ok(Some(d), rest2)
  }

  lemma Bytes32RoundTrip(data: Option<seq<byte>>, rest: seq<byte>)
    requires data.Some? ==> |data.value| < NIL_LEN
    ensures ReadBytes32(Bytes32(data) + rest) == Ok(data, rest)
  {
    match data
    case None => Read32LE(NIL_LEN, rest);
    case Some(d) =>
      Read32LE(|d|, d + rest);
      assert Bytes32(data) + rest == LE(|d|, 4) + (d + rest);
      TakeAppend(d, rest);
      if |d| == 0 {
        assert d + rest == rest;
      }
  }

  /** Longer strings do not read back: their length is cut to 32 bits, and 2^32 - 1 stands for nil. */
  lemma Bytes32Cut(d: seq<byte>, rest: seq<byte>)
    requires |d| >= NIL_LEN
    ensures ReadBytes32(Bytes32(Some(d)) + rest) != Ok(Some(d), rest)
  {
    var n: uint32 := |d| % TWO_32;
    Pow256Values();
    LEWraps(|d|, 4);
    Read32LE(n, d + rest);
    assert Bytes32(Some(d)) + rest == LE(n, 4) + (d + rest);
    if n != 0 && n != NIL_LEN {
      assert n < |d|;
      var r := ReadBytes32(Bytes32(Some(d)) + rest);
      assert r.Ok? ==> |r.value.value| == n;
    }
  }

  /** The round trip holds exactly for nil and for strings of up to 2^32 - 2 bytes. */
  lemma Bytes32RoundTripIff(data: Option<seq<byte>>, rest: seq<byte>)
    ensures ReadBytes32(Bytes32(data) + rest) == Ok(data, rest) <==> (data.Some? ==> |data.value| < NIL_LEN)
  {
    if data.Some? && |data.value| >= NIL_LEN { Bytes32Cut(data.value, rest); } else { Bytes32RoundTrip(data, rest); }
  }

  // ---- big integers: a nil flag, then the decimal string ----

  function BigInt(b: Option<int>): (r: seq<byte>)
    ensures |r| >= 1
  {
    match b
    case None => [0]
    case Some(n) => [1] + CompactString(IntString(n))
  }

  function ReadBigInt(s: seq<byte>): (r: Parsed<Option<int>>)
    ensures r.Ok? ==> |r.rest| < |s|
  {
    var (flag, rest) :- Take(s, 1);
    if flag[0] == 0 then Ok(None, rest)
    else if flag[0] != 1 then Fail
    else
      var (digits, rest2) :- ReadCompactString(rest);
      var n := SetString(digits);
      if n.None? || IntString(n.value) != digits then Fail else Ok(n, rest2)
  }

  lemma BigIntRoundTrip(b: Option<int>, rest: seq<byte>)
    requires b.Some? ==> |IntString(b.value)| < TWO_63
    ensures ReadBigInt(BigInt(b) + rest) == Ok(b, rest)
  {
    match b
    case None => TakeAppend([0], rest);
    case Some(n) =>
      var str := CompactString(IntString(n));
      assert BigInt(b) + rest == [1] + (str + rest);
      TakeAppend([1], str + rest);
      CompactStringRoundTrip(IntString(n), rest);
      SetStringOfIntString(n);
  }

  /** Only the canonical decimal string is accepted, so what is read re-encodes to itself. */
  lemma BigIntCanonical(s: seq<byte>, padded: seq<byte>)
    requires |padded| < TWO_63
    requires s == [1] + CompactString(padded)
    ensures ReadBigInt(s).Ok? <==> exists n :: IntString(n) == padded
    ensures ReadBigInt(s).Ok? ==> BigInt(ReadBigInt(s).value) == s
  {
    assert s == [1] + (CompactString(padded) + []);
    TakeAppend([1], CompactString(padded) + []);
    CompactStringRoundTrip(padded, []);
    if exists n :: IntString(n) == padded {
      var n :| IntString(n) == padded;
      SetStringOfIntString(n);
    }
  }
}
