/** The transactions of a serialized block as a run of length-prefixed frames, and the reader that
    looks for one frame without reading the others. */
module Frames {
  import opened Bytes
  import opened Varints
  import opened Many

  function Frame(raw: seq<byte>): (r: seq<byte>)
    ensures |r| == |Uvarint(|raw|)| + |raw|
  {
    Uvarint(|raw|) + raw
  }

  function FrameAll(raws: seq<seq<byte>>): (parts: seq<seq<byte>>)
    ensures |parts| == |raws|
    ensures forall i :: 0 <= i < |raws| ==> parts[i] == Frame(raws[i])
  {
    seq(|raws|, i requires 0 <= i < |raws| => Frame(raws[i]))
  }

  /** One frame: a length within the remaining data and not zero. */
  function ReadFrame(s: seq<byte>): (r: Parsed<seq<byte>>)
    ensures r.Ok? ==> 0 < |r.value| && |r.rest| < |s|
  {
    var (n, rest) :- ReadUvarint(s);
    if n == 0 then Fail else Take(rest, n)
  }

  lemma FrameRoundTrip(raw: seq<byte>)
    requires 0 < |raw| < TWO_64
    ensures Encodes(ReadFrame, Frame(raw), raw)
  {
    forall rest
      ensures ReadFrame(Frame(raw) + rest) == Ok(raw, rest)
    {
      Regroup2(Uvarint(|raw|), raw, rest);
      UvarintRoundTrip(|raw|, raw + rest);
      TakeAppend(raw, rest);
    }
  }

  lemma FramesRoundTrip(raws: seq<seq<byte>>, rest: seq<byte>)
    requires forall i :: 0 <= i < |raws| ==> 0 < |raws[i]| < TWO_64
    ensures ReadN(ReadFrame, Concat(FrameAll(raws)) + rest, |raws|) == Ok(raws, rest)
  {
    forall i | 0 <= i < |raws|
      ensures Encodes(ReadFrame, FrameAll(raws)[i], raws[i])
    {
      FrameRoundTrip(raws[i]);
    }
    ReadNRoundTrip(ReadFrame, FrameAll(raws), raws, rest);
  }

  /** Frames of at least m bytes each take more than m bytes each. */
  lemma FramesFit(raws: seq<seq<byte>>, m: nat)
    requires forall i :: 0 <= i < |raws| ==> |raws[i]| >= m
    ensures |Concat(FrameAll(raws))| >= (m + 1) * |raws|
    ensures forall i :: 0 <= i < |raws| ==> |raws[i]| < |Concat(FrameAll(raws))|
  {
    ConcatMinimum(FrameAll(raws), m + 1);
    forall i | 0 <= i < |raws|
      ensures |raws[i]| < |Concat(FrameAll(raws))|
    {
      assert |FrameAll(raws)[i]| <= |Concat(FrameAll(raws))|;
    }
  }

  method AppendFrame(buf: seq<byte>, raw: seq<byte>) returns (r: seq<byte>)
    ensures r == buf + Frame(raw)
  {
    r := buf + Uvarint(|raw|);
    r := r + raw;
    Regroup2(buf, Uvarint(|raw|), raw);
  }

  // ---- decoding every frame ----

  function ReadAll<T>(parse: seq<byte> -> Option<T>, raws: seq<seq<byte>>): (r: Option<seq<T>>)
    ensures r.Some? ==> |r.value| == |raws|
    ensures r.Some? ==> forall i :: 0 <= i < |raws| ==> parse(raws[i]) == Some(r.value[i])
    ensures r.None? ==> exists i :: 0 <= i < |raws| && parse(raws[i]).None?
  {
    if raws == [] then Some([])
    else
      var last := |raws| - 1;
      var front := ReadAll(parse, raws[..last]);
      if front.None? || parse(raws[last]).None? then None
      else Some(front.value + [parse(raws[last]).value])
  }

  lemma ReadAllGives<T>(parse: seq<byte> -> Option<T>, raws: seq<seq<byte>>, values: seq<T>)
    requires |raws| == |values|
    requires forall i :: 0 <= i < |raws| ==> parse(raws[i]) == Some(values[i])
    ensures ReadAll(parse, raws) == Some(values)
  {
    assert ReadAll(parse, raws).Some?;
    assert forall i :: 0 <= i < |raws| ==> Some(ReadAll(parse, raws).value[i]) == parse(raws[i]);
    assert ReadAll(parse, raws).value == values;
  }

  /** All n frames at the front of s, decoded. */
  function ReadFramed<T>(parse: seq<byte> -> Option<T>, s: seq<byte>, n: nat): Option<seq<T>> {
    var raws := ReadN(ReadFrame, s, n);
    if raws.Fail? then None else ReadAll(parse, raws.value)
  }

  /** The transaction loop of DecodeBlock: read a frame, decode it, go on. */
  method DecodeFramed<T>(parse: seq<byte> -> Option<T>, s: seq<byte>, n: nat) returns (r: Option<seq<T>>)
    ensures r == ReadFramed(parse, s, n)
  {
    var rd, values: seq<T> := s, [];
    ghost var raws: seq<seq<byte>> := [];
    SoFarStart(ReadFrame, s, n);
    for i := 0 to n
      invariant ReadAll(parse, raws) == Some(values) && |raws| == i
      invariant SoFar(ReadFrame, s, n, raws, rd)
    {
      SoFarStep(ReadFrame, s, n, raws, rd);
      var raw, rest := NextFrame(rd);
      if raw.None? { return None; }
      var value := parse(raw.value);
      if value.None? {
        BadFrame(parse, s, n, raws + [raw.value], rest);
        return None;
      }
      assert (raws + [raw.value])[..i] == raws;
      raws, values, rd := raws + [raw.value], values + [value.value], rest;
    }
    SoFarEnd(ReadFrame, s, n, raws, rd);
    r := Some(values);
  }

  method NextFrame(rd: seq<byte>) returns (raw: Option<seq<byte>>, rest: seq<byte>)
    ensures var f := ReadFrame(rd);
      if f.Fail? then raw.None? else raw == Some(f.value) && rest == f.rest
  {
    var len := ReadUvarint(rd);
    if len.Fail? || len.value > |len.rest| || len.value == 0 { return None, rd; }
    raw, rest := Some(len.rest[..len.value]), len.rest[len.value..];
  }

  lemma BadFrame<T>(parse: seq<byte> -> Option<T>, s: seq<byte>, n: nat, raws: seq<seq<byte>>, rd: seq<byte>)
    requires SoFar(ReadFrame, s, n, raws, rd)
    requires raws != [] && parse(raws[|raws| - 1]).None?
    ensures ReadFramed(parse, s, n).None?
  {
    var all := ReadN(ReadFrame, s, n);
    if all.Ok? {
      assert all.value[|raws| - 1] == raws[|raws| - 1];
    }
  }

  // ---- looking for one frame ----

  datatype Lookup = Found(raw: seq<byte>) | NotFound | Bad

  /** Seek forward; past the end there is nothing left to read. */
  function Skip(s: seq<byte>, n: nat): seq<byte> { if n <= |s| then s[n..] else [] }

  /** Frames i.. of n, of which idx is wanted; `limit` is the length of the whole input. */
  function FindFrame(s: seq<byte>, i: nat, n: nat, idx: nat, limit: nat): Lookup
    requires i <= n
    decreases n - i
  {
    if i == n then NotFound else
    var len := ReadUvarint(s);
    if len.Fail? || len.value > limit || len.value == 0 then Bad
    else if idx == i then
      var raw := Take(len.rest, len.value);
      if raw.Fail? then Bad else Found(raw.value)
    else FindFrame(Skip(len.rest, len.value), i + 1, n, idx, limit)
  }

  /** The loop of GetRawBlockTx. */
  method LookForFrame(s: seq<byte>, n: nat, idx: nat, limit: nat) returns (r: Lookup)
    ensures r == FindFrame(s, 0, n, idx, limit)
  {
    var rd := s;
    for i := 0 to n
      invariant FindFrame(s, 0, n, idx, limit) == FindFrame(rd, i, n, idx, limit)
    {
      var len := ReadUvarint(rd);
      if len.Fail? { return Bad; }
      if len.value > limit { return Bad; }
      if len.value == 0 { return Bad; }
      if idx == i {
        var raw := Take(len.rest, len.value);
        if raw.Fail? { return Bad; }
        return Found(raw.value);
      }
      rd := Skip(len.rest, len.value);
    }
    return NotFound;
  }

  /** On well-formed data the loose bounds of the partial reader accept what the full one accepts; said of any
      reader and finder. */
  ghost predicate FindsOrSkips(
      read: seq<byte> -> Parsed<seq<byte>>, find: (seq<byte>, nat) -> Lookup,
      t: seq<byte>, j: nat, n: nat, idx: nat, limit: nat)
  {
    |t| <= limit && j < n && read(t).Ok? ==>
      && |read(t).rest| <= limit
      && find(t, j) == if idx == j then Found(read(t).value) else find(read(t).rest, j + 1)
  }

  lemma {:induction false} FindAgrees(
      read: seq<byte> -> Parsed<seq<byte>>, find: (seq<byte>, nat) -> Lookup,
      s: seq<byte>, i: nat, n: nat, idx: nat, limit: nat)
    requires i <= n && |s| <= limit
    requires ReadN(read, s, n - i).Ok?
    requires forall t, j: nat :: FindsOrSkips(read, find, t, j, n, idx, limit)
    requires forall t :: find(t, n) == NotFound
    ensures find(s, i) == if i <= idx < n then Found(ReadN(read, s, n - i).value[idx - i]) else NotFound
    decreases n - i
  {
    if i < n {
      assert FindsOrSkips(read, find, s, i, n, idx, limit);
      if idx != i {
        FindAgrees(read, find, read(s).rest, i + 1, n, idx, limit);
      }
    }
  }

  function Finder(n: nat, idx: nat, limit: nat): (seq<byte>, nat) -> Lookup {
    (t, j: nat) => if j <= n then FindFrame(t, j, n, idx, limit) else Bad
  }

  lemma FinderAlways(n: nat, idx: nat, limit: nat)
    ensures forall t, j: nat :: FindsOrSkips(ReadFrame, Finder(n, idx, limit), t, j, n, idx, limit)
    ensures forall t :: Finder(n, idx, limit)(t, n) == NotFound
  {
    assert forall t, j: nat :: FindsOrSkips(ReadFrame, Finder(n, idx, limit), t, j, n, idx, limit);
  }

  lemma FindFrameAgrees(s: seq<byte>, n: nat, idx: nat, limit: nat)
    requires |s| <= limit
    requires ReadN(ReadFrame, s, n).Ok?
    ensures FindFrame(s, 0, n, idx, limit) ==
      if idx < n then Found(ReadN(ReadFrame, s, n).value[idx]) else NotFound
  {
    FinderAlways(n, idx, limit);
    FindAgrees(ReadFrame, Finder(n, idx, limit), s, 0, n, idx, limit);
    assert Finder(n, idx, limit)(s, 0) == FindFrame(s, 0, n, idx, limit);
  }
}
