/** Repetition: n items read one after the other, and the concatenation of n encodings. */
module Many {
  import opened Bytes

  function Concat(parts: seq<seq<byte>>): seq<byte> {
    if parts == [] then [] else parts[0] + Concat(parts[1..])
  }

  function Cons<T>(x: T, more: Parsed<seq<T>>): Parsed<seq<T>> {
    if more.Fail? then Fail else Ok([x] + more.value, more.rest)
  }

  function ReadN<T>(read: seq<byte> -> Parsed<T>, s: seq<byte>, n: nat): (r: Parsed<seq<T>>)
    ensures r.Ok? ==> |r.value| == n
    decreases n
  {
    if n == 0 then Ok([], s)
    else if read(s).Fail? then Fail
    else Cons(read(s).value, ReadN(read, read(s).rest, n - 1))
  }

  /** `part` is an encoding of `value` that `read` recognizes whatever follows it. */
  ghost predicate Encodes<T>(read: seq<byte> -> Parsed<T>, part: seq<byte>, value: T) {
    forall rest :: read(part + rest) == Ok(value, rest)
  }

  lemma {:induction false} ReadNRoundTrip<T>(
      read: seq<byte> -> Parsed<T>, parts: seq<seq<byte>>, values: seq<T>, rest: seq<byte>)
    requires |parts| == |values|
    requires forall i :: 0 <= i < |parts| ==> Encodes(read, parts[i], values[i])
    ensures ReadN(read, Concat(parts) + rest, |parts|) == Ok(values, rest)
  {
    if parts == [] {
      assert Concat(parts) + rest == rest;
    } else {
      assert Encodes(read, parts[0], values[0]);
      Regroup2(parts[0], Concat(parts[1..]), rest);
      assert read(parts[0] + (Concat(parts[1..]) + rest)) == Ok(values[0], Concat(parts[1..]) + rest);
      ReadNRoundTrip(read, parts[1..], values[1..], rest);
      assert [values[0]] + values[1..] == values;
    }
  }

  /** A last item that cannot be read at the end of the data spoils the whole run. */
  lemma {:induction false} ReadNLastFails<T>(read: seq<byte> -> Parsed<T>, parts: seq<seq<byte>>, values: seq<T>)
    requires |parts| == |values| + 1
    requires forall i :: 0 <= i < |values| ==> Encodes(read, parts[i], values[i])
    requires read(parts[|values|]).Fail?
    ensures ReadN(read, Concat(parts), |parts|).Fail?
  {
    if values == [] {
      assert Concat(parts) == parts[0] + Concat(parts[1..]) && parts[1..] == [];
      assert Concat(parts) == parts[0];
    } else {
      assert Encodes(read, parts[0], values[0]);
      assert read(parts[0] + Concat(parts[1..])) == Ok(values[0], Concat(parts[1..]));
      ReadNLastFails(read, parts[1..], values[1..]);
    }
  }

  lemma {:induction false} ConcatAppend(parts: seq<seq<byte>>, part: seq<byte>)
    ensures Concat(parts + [part]) == Concat(parts) + part
  {
    if parts == [] {
      assert parts + [part] == [part];
      assert Concat([part]) == part + Concat([part][1..]);
    } else {
      ConcatAppend(parts[1..], part);
      assert (parts + [part])[1..] == parts[1..] + [part];
      Regroup2(parts[0], Concat(parts[1..]), part);
    }
  }

  lemma ConcatGrows(front: seq<byte>, parts: seq<seq<byte>>, i: nat)
    requires i < |parts|
    ensures front + Concat(parts[..i]) + parts[i] == front + Concat(parts[..i + 1])
  {
    assert parts[..i + 1] == parts[..i] + [parts[i]];
    ConcatAppend(parts[..i], parts[i]);
    Regroup2(front, Concat(parts[..i]), parts[i]);
  }

  lemma {:induction false} ConcatMinimum(parts: seq<seq<byte>>, m: nat)
    requires forall i :: 0 <= i < |parts| ==> |parts[i]| >= m
    ensures |Concat(parts)| >= m * |parts|
    ensures forall i :: 0 <= i < |parts| ==> |parts[i]| <= |Concat(parts)|
  {
    if parts != [] {
      ConcatMinimum(parts[1..], m);
      assert m * |parts| == m * |parts[1..]| + m;
      assert forall i :: 1 <= i < |parts| ==> parts[i] == parts[1..][i - 1];
    }
  }

  /** State of a loop that reads n items from s: `got` are the first of them, rd is what is left. */
  ghost predicate SoFar<T>(read: seq<byte> -> Parsed<T>, s: seq<byte>, n: nat, got: seq<T>, rd: seq<byte>) {
    && |got| <= n
    && var more := ReadN(read, rd, n - |got|);
       ReadN(read, s, n) == if more.Fail? then Fail else Ok(got + more.value, more.rest)
  }

  lemma SoFarStart<T>(read: seq<byte> -> Parsed<T>, s: seq<byte>, n: nat)
    ensures SoFar(read, s, n, [], s)
  {
    var more := ReadN(read, s, n);
    if more.Ok? {
      assert [] + more.value == more.value;
    }
  }

  lemma SoFarStep<T>(read: seq<byte> -> Parsed<T>, s: seq<byte>, n: nat, got: seq<T>, rd: seq<byte>)
    requires SoFar(read, s, n, got, rd) && |got| < n
    ensures read(rd).Fail? ==> ReadN(read, s, n).Fail?
    ensures read(rd).Ok? ==> SoFar(read, s, n, got + [read(rd).value], read(rd).rest)
  {
    if read(rd).Ok? {
      var more := ReadN(read, read(rd).rest, n - |got| - 1);
      if more.Ok? {
        Regroup2(got, [read(rd).value], more.value);
      }
    }
  }

  lemma SoFarEnd<T>(read: seq<byte> -> Parsed<T>, s: seq<byte>, n: nat, got: seq<T>, rd: seq<byte>)
    requires SoFar(read, s, n, got, rd) && |got| == n
    ensures ReadN(read, s, n) == Ok(got, rd)
  {
    assert got + [] == got;
  }
}
