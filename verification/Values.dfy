/** Action argument values: EncodeValue, Decode and the binary codecs around them
    (core/types/payloads.go). Numeric (decimal) values are not part of this model. */
module Values {
  import opened Bytes
  import opened DataTypes

  /** The detectable types of a scalar; `KNull` is the type of a null. */
  datatype Kind = KNull | KText | KInt | KBytea | KUUID | KBool

  function KindName(k: Kind): seq<byte> {
    match k
    case KNull => [110, 117, 108, 108]
    case KText => [116, 101, 120, 116]
    case KInt => [105, 110, 116, 56]
    case KBytea => [98, 121, 116, 101, 97]
    case KUUID => [117, 117, 105, 100]
    case KBool => [98, 111, 111, 108]
  }

  /** typeAlias, restricted to the modelled types. */
  function KindOf(name: seq<byte>): Option<Kind> {
    if name == KindName(KNull) then Some(KNull)
    else if name == KindName(KText) || name == [115, 116, 114, 105, 110, 103] then Some(KText)
    else if name == KindName(KInt) || name == [105, 110, 116] || name == [105, 110, 116, 101, 103, 101, 114]
         || name == [98, 105, 103, 105, 110, 116] then Some(KInt)
    else if name == KindName(KBytea) || name == [98, 108, 111, 98] then Some(KBytea)
    else if name == KindName(KUUID) then Some(KUUID)
    else if name == KindName(KBool) || name == [98, 111, 111, 108, 101, 97, 110] then Some(KBool)
    else None
  }

  lemma KindOfName(k: Kind)
    ensures KindOf(KindName(k)) == Some(k)
  {
    assert [98, 108, 111, 98][1] == 108 && KindName(KBool)[1] == 111;
    assert KindName(k)[0] in {110, 116, 105, 98, 117};
  }

  type UUID = u: seq<byte> | |u| == 16 witness seq(16, _ => 0)

  datatype Scalar = Null | Text(s: seq<byte>) | Int(i: int64) | Bytea(b: seq<byte>) | Uuid(u: UUID) | Bool(v: bool)

  /** A value handed to EncodeValue, or returned by Decode: a scalar or a slice of scalars. */
  datatype Value = One(x: Scalar) | Many(xs: seq<Scalar>)

  function ScalarKind(x: Scalar): Kind {
    match x
    case Null => KNull
    case Text(_) => KText
    case Int(_) => KInt
    case Bytea(_) => KBytea
    case Uuid(_) => KUUID
    case Bool(_) => KBool
  }

  // ---- one scalar ----

  function Payload(x: Scalar): seq<byte>
    requires !x.Null?
  {
    match x
    case Text(s) => s
    case Int(i) => BE(Bits64(i), 8)
    case Bytea(b) => b
    case Uuid(u) => u
    case Bool(v) => [Flag(v)]
  }

  /** encodeNull and encodeNotNull */
  function ScalarBytes(x: Scalar): (r: seq<byte>)
    ensures |r| >= 1
  {
    if x.Null? then [0] else [1] + Payload(x)
  }

  /** decodeNullable and decodeScalar: an error, or the scalar. */
  function ReadScalar(d: seq<byte>, k: Kind): Option<Scalar> {
    if d == [] || d[0] > 1 || (d[0] == 0 && |d| != 1) then None
    else if d[0] == 0 then Some(Null)
    else ReadPayload(d[1..], k)
  }

  function ReadPayload(p: seq<byte>, k: Kind): Option<Scalar> {
    match k
    case KNull => Some(Null)
    case KText => Some(Text(p))
    case KInt => if |p| != 8 then None else Some(Int(Signed64(U64(p))))
    case KBytea => Some(Bytea(p))
    case KUUID => if |p| != 16 then None else Some(Uuid(p))
    case KBool => if |p| != 1 then None else Some(Bool(p[0] == 1))
  }

  function U64(s: seq<byte>): uint64
    requires |s| == 8
  {
    FromBEBound(s);
    Pow256Values();
    FromBE(s)
  }

  /** A scalar reads back under its own kind, and a null under any. */
  lemma ScalarRoundTrip(x: Scalar, k: Kind)
    requires x.Null? || k == ScalarKind(x)
    ensures ReadScalar(ScalarBytes(x), k) == Some(x)
  {
    if !x.Null? {
      assert ScalarBytes(x)[1..] == Payload(x);
      if x.Int? {
        Pow256Values();
        BERoundTrip(Bits64(x.i), 8);
      }
    }
  }

  // ---- whole values ----

  datatype EncodedValue = EncodedValue(kind: DataType, data: seq<seq<byte>>)

  function TypeOf(k: Kind, isArray: bool): DataType { DataType(KindName(k), isArray, 0, 0) }

  /** Among the first n elements, those that are not null are of kind k. */
  ghost predicate OfKind(xs: seq<Scalar>, n: nat, k: Kind)
    requires n <= |xs|
  {
    forall i :: 0 <= i < n && !xs[i].Null? ==> ScalarKind(xs[i]) == k
  }

  function EncodeAll(xs: seq<Scalar>): (r: seq<seq<byte>>)
    ensures |r| == |xs|
    ensures forall i :: 0 <= i < |xs| ==> r[i] == ScalarBytes(xs[i])
  {
    seq(|xs|, i requires 0 <= i < |xs| => ScalarBytes(xs[i]))
  }

  /** The kind of the first of n elements that is not null. */
  function FirstKind(xs: seq<Scalar>, n: nat): Kind
    requires n <= |xs|
  {
    if n == 0 then KNull
    else if FirstKind(xs, n - 1) != KNull then FirstKind(xs, n - 1)
    else ScalarKind(xs[n - 1])
  }

  /** EncodeValue: an error for an empty slice or elements of different kinds. */
  ghost function Encode(v: Value): Option<EncodedValue> {
    match v
    case One(x) => Some(EncodedValue(TypeOf(ScalarKind(x), false), if x.Null? then [] else [ScalarBytes(x)]))
    case Many(xs) =>
      var k := FirstKind(xs, |xs|);
      if xs == [] || !OfKind(xs, |xs|, k) then None
      else Some(EncodedValue(TypeOf(k, true), EncodeAll(xs)))
  }

  lemma {:induction false} FirstKindNull(xs: seq<Scalar>, n: nat, k: nat)
    requires k < n <= |xs| && FirstKind(xs, n) == KNull
    ensures xs[k].Null?
  {
    if k < n - 1 {
      FirstKindNull(xs, n - 1, k);
    }
  }

  /** Once a kind is found it is the kind of the whole. */
  lemma {:induction false} FirstKindKept(xs: seq<Scalar>, i: nat, n: nat)
    requires i <= n <= |xs| && FirstKind(xs, i) != KNull
    ensures FirstKind(xs, n) == FirstKind(xs, i)
    decreases n
  {
    if i < n {
      FirstKindKept(xs, i, n - 1);
    }
  }

  /** The state of the slice loop before element i. */
  ghost predicate Settled(xs: seq<Scalar>, i: nat, first: Kind, encoded: seq<seq<byte>>) {
    && i <= |xs| && first == FirstKind(xs, i) && OfKind(xs, i, first)
    && |encoded| == i && forall j :: 0 <= j < i ==> encoded[j] == ScalarBytes(xs[j])
  }

  lemma SettledStep(xs: seq<Scalar>, i: nat, first: Kind, encoded: seq<seq<byte>>)
    requires Settled(xs, i, first, encoded) && i < |xs|
    requires var kind := ScalarKind(xs[i]); first == KNull || kind == KNull || first == kind
    ensures Settled(xs, i + 1, if first == KNull then ScalarKind(xs[i]) else first, encoded + [ScalarBytes(xs[i])])
  {
  }

  lemma MixedIsRefused(xs: seq<Scalar>, i: nat, first: Kind, encoded: seq<seq<byte>>)
    requires Settled(xs, i, first, encoded) && i < |xs|
    requires var kind := ScalarKind(xs[i]); first != KNull && kind != KNull && first != kind
    ensures Encode(Many(xs)) == None
  {
    FirstKindKept(xs, i, |xs|);
  }

  lemma SettledEnd(xs: seq<Scalar>, first: Kind, encoded: seq<seq<byte>>)
    requires Settled(xs, |xs|, first, encoded) && xs != []
    ensures Encode(Many(xs)) == Some(EncodedValue(TypeOf(first, true), encoded))
  {
    assert encoded == EncodeAll(xs);
  }

  /** The slice loop of EncodeValue, which settles the element type as it goes. */
  method EncodeArray(xs: seq<Scalar>) returns (r: Option<EncodedValue>)
    ensures r == Encode(Many(xs))
  {
    var encoded: seq<seq<byte>> := [];
    var first := KNull;
    for i := 0 to |xs|
      invariant Settled(xs, i, first, encoded)
    {
      var kind := ScalarKind(xs[i]);
      if first != KNull && kind != KNull && first != kind {
        MixedIsRefused(xs, i, first, encoded);
        return None;
      }
      SettledStep(xs, i, first, encoded);
      if first == KNull {
        first := kind;
      }
      encoded := encoded + [ScalarBytes(xs[i])];
    }
    if xs == [] { return None; }
    SettledEnd(xs, first, encoded);
    r := Some(EncodedValue(TypeOf(first, true), encoded));
  }

  /** Every element read as kind k; the first that cannot be is an error. */
  function DecodeAll(data: seq<seq<byte>>, k: Kind): (r: Option<seq<Scalar>>)
    ensures r.Some? ==>
      |r.value| == |data| && forall i :: 0 <= i < |data| ==> ReadScalar(data[i], k) == Some(r.value[i])
    ensures r.None? ==> exists i :: 0 <= i < |data| && ReadScalar(data[i], k).None?
  {
    if data == [] then Some([])
    else
      var last := |data| - 1;
      var front := DecodeAll(data[..last], k);
      if front.None? || ReadScalar(data[last], k).None? then None
      else Some(front.value + [ReadScalar(data[last], k).value])
  }

  /** EncodedValue.Decode, for the modelled types. */
  function Decode(e: EncodedValue): Option<Value> {
    var k := KindOf(e.kind.name);
    if k.None? then None
    else if k.value == KNull then
      if e.kind.isArray then Some(Many(seq(|e.data|, _ => Null)))
      else if e.data == [] || e.data == [[]] || e.data == [[0]] then Some(One(Null))
      else None
    else if e.kind.isArray then
      var xs := DecodeAll(e.data, k.value);
      if xs.None? then None else Some(Many(xs.value))
    else if |e.data| != 1 then None
    else
      var x := ReadScalar(e.data[0], k.value);
      if x.None? then None else Some(One(x.value))
  }

  lemma DecodeAllOfEncodeAll(xs: seq<Scalar>, k: Kind)
    requires OfKind(xs, |xs|, k)
    ensures DecodeAll(EncodeAll(xs), k) == Some(xs)
  {
    var data := EncodeAll(xs);
    forall i | 0 <= i < |xs|
      ensures ReadScalar(data[i], k) == Some(xs[i])
    {
      ScalarRoundTrip(xs[i], k);
    }
    var r := DecodeAll(data, k);
    assert r.Some?;
    assert forall i :: 0 <= i < |xs| ==> Some(r.value[i]) == ReadScalar(data[i], k);
    assert r.value == xs;
  }

  /** Whatever EncodeValue accepts, Decode gives back: scalars of every kind, null, and non-empty
      slices of one kind with nulls anywhere, also all nulls. */
  lemma ValueRoundTrip(v: Value)
    requires Encode(v).Some?
    ensures Decode(Encode(v).value) == Some(v)
  {
    match v
    case One(x) =>
      KindOfName(ScalarKind(x));
      ScalarRoundTrip(x, ScalarKind(x));
    case Many(xs) =>
      var k := FirstKind(xs, |xs|);
      KindOfName(k);
      if k == KNull {
        forall i | 0 <= i < |xs| ensures xs[i].Null? { FirstKindNull(xs, |xs|, i); }
        assert xs == seq(|xs|, _ => Null);
      } else {
        DecodeAllOfEncodeAll(xs, k);
      }
  }

  /** EncodeValue refuses a slice exactly when it is empty or mixes kinds. */
  lemma EncodeAccepts(xs: seq<Scalar>)
    ensures Encode(Many(xs)).Some? <==> xs != [] && exists k :: OfKind(xs, |xs|, k)
  {
    if exists k :: OfKind(xs, |xs|, k) {
      var k :| OfKind(xs, |xs|, k);
      FirstKindIsIt(xs, |xs|, k);
    }
  }

  lemma {:induction false} FirstKindIsIt(xs: seq<Scalar>, n: nat, k: Kind)
    requires n <= |xs| && OfKind(xs, n, k)
    ensures FirstKind(xs, n) == KNull || FirstKind(xs, n) == k
    ensures OfKind(xs, n, FirstKind(xs, n))
  {
    if n > 0 {
      FirstKindIsIt(xs, n - 1, k);
    }
  }
}
