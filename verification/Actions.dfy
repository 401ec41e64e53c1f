/** Encoded values and action batches on the wire (core/types/payloads.go). */
module Actions {
  import opened Bytes
  import opened Wire
  import opened Many
  import opened DataTypes
  import opened Values

  const VERSION: uint16 := 0

  function ReadBlob(s: seq<byte>): Parsed<seq<byte>> {
    var (d, rest) :- ReadBytes32(s);
    Ok(OrEmpty(d), rest)
  }

  lemma BlobEncodes(d: seq<byte>)
    requires |d| < NIL_LEN
    ensures Encodes(ReadBlob, Bytes32(Some(d)), d)
  {
    forall rest
      ensures ReadBlob(Bytes32(Some(d)) + rest) == Ok(d, rest)
    {
      Bytes32RoundTrip(Some(d), rest);
    }
  }

  /** A version, then something. */
  function ReadVersion(s: seq<byte>): Parsed<()> {
    var (v, rest) :- Read16(s);
    if v != VERSION then Fail else Ok((), rest)
  }

  lemma VersionRoundTrip(rest: seq<byte>)
    ensures ReadVersion(LE(VERSION, 2) + rest) == Ok((), rest)
  {
    Read16LE(VERSION, rest);
  }

  /** A 16-bit count, then that many items. */
  function ReadCounted<T>(read: seq<byte> -> Parsed<T>, s: seq<byte>): Parsed<seq<T>> {
    var (n, rest) :- Read16(s);
    ReadN(read, rest, n)
  }

  function Counted(parts: seq<seq<byte>>): seq<byte> { LE(|parts|, 2) + Concat(parts) }

  lemma CountedRoundTrip<T>(read: seq<byte> -> Parsed<T>, parts: seq<seq<byte>>, values: seq<T>, rest: seq<byte>)
    requires |parts| == |values| < TWO_16
    requires forall i :: 0 <= i < |parts| ==> Encodes(read, parts[i], values[i])
    ensures ReadCounted(read, Counted(parts) + rest) == Ok(values, rest)
  {
    Regroup2(LE(|parts|, 2), Concat(parts), rest);
    Read16LE(|parts|, Concat(parts) + rest);
    ReadNRoundTrip(read, parts, values, rest);
  }

  /** The loop that appends counted items. */
  method AppendCounted(parts: seq<seq<byte>>, buf: seq<byte>) returns (r: seq<byte>)
    ensures r == buf + Counted(parts)
  {
    r := buf + LE(|parts|, 2);
    for i := 0 to |parts|
      invariant r == buf + LE(|parts|, 2) + Concat(parts[..i])
    {
      ConcatGrows(buf + LE(|parts|, 2), parts, i);
      r := r + parts[i];
    }
    assert parts[..|parts|] == parts;
    Regroup2(buf, LE(|parts|, 2), Concat(parts));
  }

  /** The loop that reads counted items. */
  method DecodeCounted<T>(read: seq<byte> -> Parsed<T>, s: seq<byte>) returns (r: Parsed<seq<T>>)
    ensures r == ReadCounted(read, s)
  {
    var n := Read16(s);
    if n.Fail? { return Fail; }
    var rd, items: seq<T> := n.rest, [];
    SoFarStart(read, n.rest, n.value);
    for i := 0 to n.value
      invariant |items| == i && SoFar(read, n.rest, n.value, items, rd)
    {
      SoFarStep(read, n.rest, n.value, items, rd);
      var item := read(rd);
      if item.Fail? { return Fail; }
      items, rd := items + [item.value], item.rest;
    }
    SoFarEnd(read, n.rest, n.value, items, rd);
    r := Ok(items, rd);
  }

  // ---- EncodedValue ----

  function Blobs(data: seq<seq<byte>>): (r: seq<seq<byte>>)
    ensures |r| == |data|
    ensures forall i :: 0 <= i < |data| ==> r[i] == Bytes32(Some(data[i]))
  {
    seq(|data|, i requires 0 <= i < |data| => Bytes32(Some(data[i])))
  }

  function EncodedBytes(e: EncodedValue): seq<byte> {
    LE(VERSION, 2) + Bytes32(Some(DataTypeBytes(e.kind))) + Counted(Blobs(e.data))
  }

  method MarshalValue(e: EncodedValue) returns (r: seq<byte>)
    ensures r == EncodedBytes(e)
  {
    var kind := DataTypes.MarshalBinary(e.kind);
    r := AppendCounted(Blobs(e.data), LE(VERSION, 2) + Bytes32(Some(kind[..])));
  }

  /** EncodedValue.UnmarshalBinary; bytes after the data are ignored. */
  function ReadEncoded(s: seq<byte>): Parsed<EncodedValue> {
    var (_, s1) :- ReadVersion(s);
    var (raw, s2) :- ReadBlob(s1);
    var kind := ReadDataType(raw);
    if kind.None? then Fail else
    var (data, s3) :- ReadCounted(ReadBlob, s2);
    Ok(EncodedValue(kind.value, data), s3)
  }

  method UnmarshalValue(s: seq<byte>) returns (r: Parsed<EncodedValue>)
    ensures r == ReadEncoded(s)
  {
    var v := ReadVersion(s);
    if v.Fail? { return Fail; }
    var raw := ReadBlob(v.rest);
    if raw.Fail? { return Fail; }
    var kind := ReadDataType(raw.value);
    if kind.None? { return Fail; }
    var data := DecodeCounted(ReadBlob, raw.rest);
    r := if data.Fail? then Fail else Ok(EncodedValue(kind.value, data.value), data.rest);
  }

  /** Counts within 16 bits and lengths within 32. */
  predicate Fits(e: EncodedValue) {
    && |e.data| < TWO_16
    && |e.kind.name| < NIL_LEN - 11
    && (forall i :: 0 <= i < |e.data| ==> |e.data[i]| < NIL_LEN)
    && |EncodedBytes(e)| < NIL_LEN
  }

  lemma BlobsRoundTrip(data: seq<seq<byte>>, rest: seq<byte>)
    requires |data| < TWO_16 && forall i :: 0 <= i < |data| ==> |data[i]| < NIL_LEN
    ensures ReadCounted(ReadBlob, Counted(Blobs(data)) + rest) == Ok(data, rest)
  {
    forall i | 0 <= i < |data|
      ensures Encodes(ReadBlob, Blobs(data)[i], data[i])
    {
      BlobEncodes(data[i]);
    }
    CountedRoundTrip(ReadBlob, Blobs(data), data, rest);
  }

  lemma EncodedRoundTrip(e: EncodedValue, rest: seq<byte>)
    requires Fits(e)
    ensures ReadEncoded(EncodedBytes(e) + rest) == Ok(e, rest)
  {
    var e1, e2, e3 := LE(VERSION, 2), Bytes32(Some(DataTypeBytes(e.kind))), Counted(Blobs(e.data));
    Regroup2(e1 + e2, e3, rest);
    Regroup2(e1, e2, e3 + rest);
    VersionRoundTrip(e2 + (e3 + rest));
    BlobEncodes(DataTypeBytes(e.kind));
    assert ReadBlob(e2 + (e3 + rest)) == Ok(DataTypeBytes(e.kind), e3 + rest);
    DataTypeRoundTrip(e.kind, []);
    assert DataTypeBytes(e.kind) + [] == DataTypeBytes(e.kind);
    BlobsRoundTrip(e.data, rest);
  }

  // ---- ActionExecution: a batch of calls ----

  datatype Action = Action(namespace: seq<byte>, name: seq<byte>, calls: seq<seq<EncodedValue>>)

  /** One argument, from its own length-prefixed bytes. */
  function ReadArg(s: seq<byte>): Parsed<EncodedValue> {
    var (raw, rest) :- ReadBlob(s);
    var (e, ignored) :- ReadEncoded(raw);
    Ok(e, rest)
  }

  function Args(call: seq<EncodedValue>): (r: seq<seq<byte>>)
    ensures |r| == |call|
    ensures forall i :: 0 <= i < |call| ==> r[i] == Bytes32(Some(EncodedBytes(call[i])))
  {
    seq(|call|, i requires 0 <= i < |call| => Bytes32(Some(EncodedBytes(call[i]))))
  }

  function ReadCall(s: seq<byte>): Parsed<seq<EncodedValue>> { ReadCounted(ReadArg, s) }

  function Calls(calls: seq<seq<EncodedValue>>): (r: seq<seq<byte>>)
    ensures |r| == |calls|
    ensures forall i :: 0 <= i < |calls| ==> r[i] == Counted(Args(calls[i]))
  {
    seq(|calls|, i requires 0 <= i < |calls| => Counted(Args(calls[i])))
  }

  function ActionBytes(a: Action): seq<byte> {
    LE(VERSION, 2) + Bytes32(Some(a.namespace)) + Bytes32(Some(a.name)) + Counted(Calls(a.calls))
  }

  /** ActionExecution.UnmarshalBinary; bytes after the last call are ignored. */
  function ReadAction(s: seq<byte>): Parsed<Action> {
    var (_, s1) :- ReadVersion(s);
    var (namespace, s2) :- ReadBlob(s1);
    var (name, s3) :- ReadBlob(s2);
    var (calls, s4) :- ReadCounted(ReadCall, s3);
    Ok(Action(namespace, name, calls), s4)
  }

  predicate CallFits(call: seq<EncodedValue>) {
    |call| < TWO_16 && forall i :: 0 <= i < |call| ==> Fits(call[i])
  }

  predicate ActionFits(a: Action) {
    && |a.namespace| < NIL_LEN && |a.name| < NIL_LEN
    && |a.calls| < TWO_16
    && forall i :: 0 <= i < |a.calls| ==> CallFits(a.calls[i])
  }

  lemma ArgEncodes(e: EncodedValue)
    requires Fits(e)
    ensures Encodes(ReadArg, Bytes32(Some(EncodedBytes(e))), e)
  {
    EncodedRoundTrip(e, []);
    assert EncodedBytes(e) + [] == EncodedBytes(e);
    BlobEncodes(EncodedBytes(e));
    forall rest
      ensures ReadArg(Bytes32(Some(EncodedBytes(e))) + rest) == Ok(e, rest)
    {
      assert ReadBlob(Bytes32(Some(EncodedBytes(e))) + rest) == Ok(EncodedBytes(e), rest);
    }
  }

  lemma CallEncodes(call: seq<EncodedValue>)
    requires CallFits(call)
    ensures Encodes(ReadCall, Counted(Args(call)), call)
  {
    forall i | 0 <= i < |call|
      ensures Encodes(ReadArg, Args(call)[i], call[i])
    {
      ArgEncodes(call[i]);
    }
    forall rest
      ensures ReadCall(Counted(Args(call)) + rest) == Ok(call, rest)
    {
      CountedRoundTrip(ReadArg, Args(call), call, rest);
    }
  }

  lemma CallsRoundTrip(calls: seq<seq<EncodedValue>>, rest: seq<byte>)
    requires |calls| < TWO_16 && forall i :: 0 <= i < |calls| ==> CallFits(calls[i])
    ensures ReadCounted(ReadCall, Counted(Calls(calls)) + rest) == Ok(calls, rest)
  {
    forall i | 0 <= i < |calls|
      ensures Encodes(ReadCall, Calls(calls)[i], calls[i])
    {
      CallEncodes(calls[i]);
    }
    CountedRoundTrip(ReadCall, Calls(calls), calls, rest);
  }

  lemma ActionRoundTrip(a: Action, rest: seq<byte>)
    requires ActionFits(a)
    ensures ReadAction(ActionBytes(a) + rest) == Ok(a, rest)
  {
    var e1, e2, e3, e4 := LE(VERSION, 2), Bytes32(Some(a.namespace)), Bytes32(Some(a.name)), Counted(Calls(a.calls));
    Regroup4(e1, e2, e3, e4, rest);
    VersionRoundTrip(e2 + (e3 + (e4 + rest)));
    BlobEncodes(a.namespace);
    BlobEncodes(a.name);
    assert ReadBlob(e2 + (e3 + (e4 + rest))) == Ok(a.namespace, e3 + (e4 + rest));
    assert ReadBlob(e3 + (e4 + rest)) == Ok(a.name, e4 + rest);
    CallsRoundTrip(a.calls, rest);
  }

  // ---- from values to values ----

  /** Each value of each call, encoded. */
  ghost predicate EncodesTo(vals: seq<seq<Value>>, calls: seq<seq<EncodedValue>>) {
    && |vals| == |calls|
    && forall i :: 0 <= i < |vals| ==> RowEncodesTo(vals[i], calls[i])
  }

  ghost predicate RowEncodesTo(row: seq<Value>, call: seq<EncodedValue>) {
    |row| == |call| && forall j :: 0 <= j < |row| ==> Encode(row[j]) == Some(call[j])
  }

  /** A batch of values put through EncodeValue, the wire and Decode comes out as it went in. */
  lemma BatchRoundTrip(
      namespace: seq<byte>, name: seq<byte>, vals: seq<seq<Value>>, calls: seq<seq<EncodedValue>>, i: nat, j: nat)
    requires EncodesTo(vals, calls) && ActionFits(Action(namespace, name, calls))
    requires i < |vals| && j < |vals[i]|
    ensures var r := ReadAction(ActionBytes(Action(namespace, name, calls)));
      && r.Ok? && r.value.namespace == namespace && r.value.name == name
      && |r.value.calls| == |vals| && |r.value.calls[i]| == |vals[i]|
      && Decode(r.value.calls[i][j]) == Some(vals[i][j])
  {
    var a := Action(namespace, name, calls);
    ActionRoundTrip(a, []);
    assert ActionBytes(a) + [] == ActionBytes(a);
    assert RowEncodesTo(vals[i], calls[i]);
    ValueRoundTrip(vals[i][j]);
  }
}
