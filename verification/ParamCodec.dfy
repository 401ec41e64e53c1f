/** The binary form of parameter updates (core/types/params.go, MarshalBinary and UnmarshalBinary). */
module ParamCodec {
  import opened Bytes
  import opened Keys
  import opened Many
  import opened Sorting
  import opened Params

  // ---- sorted keys ----

  /** The parameters in the order of their names. */
  const ORDER: seq<Param> := [DisabledGasCosts, JoinExpiry, Leader, MaxBlockSize, MaxVotesPerTx, MigrationStatus]

  function Place(p: Param): (i: nat)
    ensures i < |ORDER| && ORDER[i] == p
  {
    match p
    case DisabledGasCosts => 0
    case JoinExpiry => 1
    case Leader => 2
    case MaxBlockSize => 3
    case MaxVotesPerTx => 4
    case MigrationStatus => 5
  }

  /** The names of the first n parameters that m updates. */
  function NamesUpTo(m: Updates, n: nat): seq<seq<byte>>
    requires n <= |ORDER|
    decreases n, m
  {
    if n == 0 then []
    else if Name(ORDER[n - 1]) in m then NamesUpTo(m, n - 1) + [Name(ORDER[n - 1])]
    else NamesUpTo(m, n - 1)
  }

  lemma {:induction false} NamesUpToHas(m: Updates, n: nat, k: seq<byte>)
    requires n <= |ORDER|
    ensures k in NamesUpTo(m, n) <==> k in m && exists j :: 0 <= j < n && Name(ORDER[j]) == k
    ensures |NamesUpTo(m, n)| <= n
  {
    if n > 0 {
      NamesUpToHas(m, n - 1, k);
    }
  }

  /** "max_b..." is before "max_v...". */
  lemma SizeBeforeVotes(a: seq<byte>, b: seq<byte>)
    requires a == Name(MaxBlockSize) && b == Name(MaxVotesPerTx)
    ensures StringLess(a, b)
  {
  }

  lemma AdjacentSorted(i: nat)
    requires i < |ORDER| - 1
    ensures StringLess(Name(ORDER[i]), Name(ORDER[i + 1]))
  {
    if i == 3 { SizeBeforeVotes(Name(MaxBlockSize), Name(MaxVotesPerTx)); }
  }

  lemma {:induction false} OrderIsSorted(i: nat, j: nat)
    requires i < j < |ORDER|
    ensures StringLess(Name(ORDER[i]), Name(ORDER[j]))
    decreases j
  {
    AdjacentSorted(j - 1);
    if i < j - 1 {
      OrderIsSorted(i, j - 1);
      StringLessTransitive(Name(ORDER[i]), Name(ORDER[j - 1]), Name(ORDER[j]));
    }
  }

  lemma {:induction false} NamesUpToSorted(m: Updates, n: nat)
    requires n <= |ORDER|
    ensures Sorted(StringLess, NamesUpTo(m, n))
  {
    if n > 0 {
      NamesUpToSorted(m, n - 1);
      var front := NamesUpTo(m, n - 1);
      forall i | 0 <= i < |front|
        ensures StringLess(front[i], Name(ORDER[n - 1]))
      {
        NamesUpToHas(m, n - 1, front[i]);
        var j :| 0 <= j < n - 1 && Name(ORDER[j]) == front[i];
        OrderIsSorted(j, n - 1);
      }
    }
  }

  function SortedNames(m: Updates): seq<seq<byte>> { NamesUpTo(m, |ORDER|) }

  lemma SortedNamesHas(m: Updates, k: seq<byte>)
    ensures k in SortedNames(m) <==> k in m && ParamOf(k).Some?
    ensures |SortedNames(m)| <= |ORDER|
  {
    NamesUpToHas(m, |ORDER|, k);
    if ParamOf(k).Some? {
      assert Name(ORDER[Place(ParamOf(k).value)]) == k;
    }
    if exists j :: 0 <= j < |ORDER| && Name(ORDER[j]) == k {
      var j :| 0 <= j < |ORDER| && Name(ORDER[j]) == k;
      ParamOfName(ORDER[j]);
    }
  }

  /** With only known names, the sorted keys are the known names in their fixed order. */
  lemma SortedNamesUnique(m: Updates, keys: seq<seq<byte>>)
    requires forall k :: k in m ==> ParamOf(k).Some?
    requires forall k :: k in keys <==> k in m
    requires Sorted(StringLess, keys)
    ensures keys == SortedNames(m)
  {
    StringLessIsOrder();
    NamesUpToSorted(m, |ORDER|);
    forall k
      ensures k in keys <==> k in SortedNames(m)
    {
      SortedNamesHas(m, k);
    }
    SortedUnique(StringLess, keys, SortedNames(m));
  }

  // ---- encoding ----

  function Bytes16(d: seq<byte>): seq<byte> { LE(|d|, 2) + d }

  /** WireEncodeKey panics on an unregistered key type. */
  predicate Registered(c: Crypto, v: Value) { v.WrappedKey? || v.BareKey? ==> v.key.kind in c.reg.types }

  function ValueBytes(c: Crypto, v: Value): seq<byte>
    requires Registered(c, v)
  {
    match v
    case WrappedKey(k) => Bytes16(WireKey(c, k))
    case BareKey(k) => Bytes16(WireKey(c, k))
    case Int64(i) => LE(Bits64(i), 8)
    case Duration(d) => LE(Bits64(d), 8)
    case Bool(b) => [if b then 1 else 0]
    case Status(s) => Bytes16(s)
    case OtherType => []
  }

  function EntryBytes(c: Crypto, name: seq<byte>, v: Value): seq<byte>
    requires Registered(c, v)
  {
    Bytes16(name) + ValueBytes(c, v)
  }

  predicate AllRegistered(c: Crypto, m: Updates) { forall k :: k in m ==> Registered(c, m[k]) }

  function Entries(c: Crypto, m: Updates, keys: seq<seq<byte>>): (r: seq<seq<byte>>)
    requires AllRegistered(c, m) && forall k :: k in keys ==> k in m
    ensures |r| == |keys|
    ensures forall i :: 0 <= i < |keys| ==> r[i] == EntryBytes(c, keys[i], m[keys[i]])
  {
    seq(|keys|, i requires 0 <= i < |keys| => EntryBytes(c, keys[i], m[keys[i]]))
  }

  const VERSION: uint16 := 0

  function UpdatesHeader(m: Updates): seq<byte> { LE(VERSION, 2) + LE(|m|, 2) }

  /** MarshalBinary: an unknown name or a value of the wrong type is an error. */
  function Marshal(c: Crypto, m: Updates): Option<seq<byte>>
    requires AllRegistered(c, m)
  {
    if !UpdatesOk(m) then None
    else
      SortedNamesAre(m);
      Some(UpdatesHeader(m) + Concat(Entries(c, m, SortedNames(m))))
  }

  method CollectKeys(m: Updates) returns (keys: seq<seq<byte>>)
    ensures forall k :: k in keys <==> k in m
    ensures forall i, j :: 0 <= i < j < |keys| ==> keys[i] != keys[j]
  {
    keys := [];
    var todo := m.Keys;
    while todo != {}
      invariant todo <= m.Keys
      invariant forall k :: k in keys <==> k in m && k !in todo
      invariant forall i, j :: 0 <= i < j < |keys| ==> keys[i] != keys[j]
    {
      var k :| k in todo;
      keys := keys + [k];
      todo := todo - {k};
    }
  }

  method SortKeys(m: Updates) returns (keys: seq<seq<byte>>)
    ensures forall k :: k in keys <==> k in m
    ensures Sorted(StringLess, keys)
  {
    var found := CollectKeys(m);
    StringLessIsOrder();
    forall i, j | 0 <= i < j < |found|
      ensures StringLess(found[i], found[j]) || StringLess(found[j], found[i])
    {
      StringLessOrder(found[i], found[j]);
    }
    keys := Sort(StringLess, found);
    forall k
      ensures k in keys <==> k in m
    {
      InMultiset(keys, k);
      InMultiset(found, k);
    }
  }

  /** MarshalBinary collects the keys in any order, sorts them and appends entry by entry. The bytes
      depend on the content of the map alone. */
  method MarshalBinary(c: Crypto, m: Updates) returns (r: Option<seq<byte>>)
    requires AllRegistered(c, m)
    ensures r == Marshal(c, m)
  {
    var keys := SortKeys(m);
    var buf := UpdatesHeader(m);
    ghost var entries := Entries(c, m, keys);
    for i := 0 to |keys|
      invariant forall j :: 0 <= j < i ==> EntryOk(keys[j], m[keys[j]])
      invariant buf == UpdatesHeader(m) + Concat(entries[..i])
    {
      if !EntryOk(keys[i], m[keys[i]]) { return None; }
      ConcatGrows(UpdatesHeader(m), entries, i);
      buf := buf + EntryBytes(c, keys[i], m[keys[i]]);
    }
    assert entries[..|keys|] == entries;
    SortedNamesUnique(m, keys);
    r := Some(buf);
  }

  // ---- decoding ----

  /** bytes.Reader.Read into a buffer of n bytes: an error at the end of the data, even for n = 0;
      near the end the buffer is filled in part and the rest of it stays zero. */
  function ReadSome(s: seq<byte>, n: nat): (r: Parsed<seq<byte>>)
    ensures r.Ok? ==> |r.rest| <= |s|
  {
    if s == [] then Fail
    else if n <= |s| then Ok(s[..n], s[n..])
    else Ok(s + seq(n - |s|, _ => 0), [])
  }

  function ReadBytes16(s: seq<byte>): Parsed<seq<byte>> {
    var (n, rest) :- Read16(s);
    ReadSome(rest, n)
  }

  function ReadValue(c: Crypto, p: Param, s: seq<byte>): Parsed<Value> {
    match p
    case Leader =>
      var (raw, rest) :- ReadBytes16(s);
      var key := ReadWireKey(c, raw);
      if key.None? then Fail else Ok(WrappedKey(key.value), rest)
    case JoinExpiry =>
      var (u, rest) :- Read64(s);
      Ok(Duration(Signed64(u)), rest)
    case MaxBlockSize =>
      var (u, rest) :- Read64(s);
      Ok(Int64(Signed64(u)), rest)
    case MaxVotesPerTx =>
      var (u, rest) :- Read64(s);
      Ok(Int64(Signed64(u)), rest)
    case DisabledGasCosts =>
      var (b, rest) :- Take(s, 1);
      Ok(Bool(b[0] == 1), rest)
    case MigrationStatus =>
      var (raw, rest) :- ReadBytes16(s);
      Ok(Status(raw), rest)
  }

  function ReadEntry(c: Crypto, s: seq<byte>): Parsed<(seq<byte>, Value)> {
    var (name, s1) :- ReadBytes16(s);
    var p := ParamOf(name);
    if p.None? then Fail else
    var (v, s2) :- ReadValue(c, p.value, s1);
    Ok((name, v), s2)
  }

  function EntryReader(c: Crypto): seq<byte> -> Parsed<(seq<byte>, Value)> { s => ReadEntry(c, s) }

  function ToMap(es: seq<(seq<byte>, Value)>): Updates {
    if es == [] then map[] else ToMap(es[..|es| - 1])[es[|es| - 1].0 := es[|es| - 1].1]
  }

  function ReadCount(s: seq<byte>): Parsed<uint16> {
    var (version, s1) :- Read16(s);
    if version != VERSION then Fail else Read16(s1)
  }

  function Unmarshal(c: Crypto, s: seq<byte>): Option<Updates> {
    var n := ReadCount(s);
    if n.Fail? then None else
    var es := ReadN(EntryReader(c), n.rest, n.value);
    if es.Fail? then None else Some(ToMap(es.value))
  }

  method UnmarshalBinary(c: Crypto, data: seq<byte>) returns (r: Option<Updates>)
    ensures r == Unmarshal(c, data)
  {
    var n := ReadCount(data);
    if n.Fail? { return None; }
    var rd, updates: Updates := n.rest, map[];
    ghost var es: seq<(seq<byte>, Value)> := [];
    ghost var reader := EntryReader(c);
    SoFarStart(reader, n.rest, n.value);
    for i := 0 to n.value
      invariant |es| == i && updates == ToMap(es)
      invariant SoFar(reader, n.rest, n.value, es, rd)
    {
      SoFarStep(reader, n.rest, n.value, es, rd);
      var e := ReadEntry(c, rd);
      assert e == reader(rd);
      if e.Fail? { return None; }
      assert (es + [e.value])[..i] == es;
      updates, rd := updates[e.value.0 := e.value.1], e.rest;
      es := es + [e.value];
    }
    SoFarEnd(reader, n.rest, n.value, es, rd);
    r := Some(updates);
  }

  // ---- round trip ----

  /** A key comes back wrapped; everything else as it was. */
  function Wrapped(v: Value): Value { if v.BareKey? then WrappedKey(v.key) else v }

  function WrappedAll(m: Updates): Updates { map k | k in m :: Wrapped(m[k]) }

  /** Keys usable by the node, and lengths within their 16-bit prefixes. */
  ghost predicate ValueFits(c: Crypto, v: Value) {
    && (v.WrappedKey? || v.BareKey? ==> KeyOk(c, v.key) && |v.key.raw| + 4 < TWO_16)
    && (v.Status? ==> |v.s| < TWO_16)
  }

  ghost predicate UpdatesFit(c: Crypto, m: Updates) {
    UpdatesOk(m) && forall k :: k in m ==> ValueFits(c, m[k])
  }

  lemma Bytes16RoundTrip(d: seq<byte>, rest: seq<byte>)
    requires |d| < TWO_16
    ensures ReadBytes16(Bytes16(d) + rest) == if d + rest == [] then Fail else Ok(d, rest)
  {
    Regroup2(LE(|d|, 2), d, rest);
    Read16LE(|d|, d + rest);
    assert (d + rest)[..|d|] == d && (d + rest)[|d|..] == rest;
  }

  lemma ValueRoundTrip(c: Crypto, p: Param, v: Value, rest: seq<byte>)
    requires TypeOk(p, v) && ValueFits(c, v)
    ensures ReadValue(c, p, ValueBytes(c, v) + rest) ==
      if v == Status([]) && rest == [] then Fail else Ok(Wrapped(v), rest)
  {
    match v
    case WrappedKey(k) => Bytes16RoundTrip(WireKey(c, k), rest); WireKeyRoundTrip(c, k);
    case BareKey(k) => Bytes16RoundTrip(WireKey(c, k), rest); WireKeyRoundTrip(c, k);
    case Int64(i) => Read64LE(Bits64(i), rest);
    case Duration(d) => Read64LE(Bits64(d), rest);
    case Bool(b) => TakeAppend([if b then 1 else 0], rest);
    case Status(s) => Bytes16RoundTrip(s, rest);
  }

  lemma EntryRoundTrip(c: Crypto, name: seq<byte>, v: Value, rest: seq<byte>)
    requires EntryOk(name, v) && ValueFits(c, v)
    ensures ReadEntry(c, EntryBytes(c, name, v) + rest) ==
      if v == Status([]) && rest == [] then Fail else Ok((name, Wrapped(v)), rest)
  {
    var p := ParamOf(name).value;
    assert 0 < |name| < TWO_16;
    Regroup2(Bytes16(name), ValueBytes(c, v), rest);
    Bytes16RoundTrip(name, ValueBytes(c, v) + rest);
    ValueRoundTrip(c, p, v, rest);
  }

  /** What the entries for these keys decode to. */
  function Decoded(m: Updates, keys: seq<seq<byte>>): (r: seq<(seq<byte>, Value)>)
    requires forall k :: k in keys ==> k in m
    ensures |r| == |keys|
    ensures forall i :: 0 <= i < |keys| ==> r[i] == (keys[i], Wrapped(m[keys[i]]))
  {
    seq(|keys|, i requires 0 <= i < |keys| => (keys[i], Wrapped(m[keys[i]])))
  }

  lemma {:induction false} ToMapOfDecoded(m: Updates, keys: seq<seq<byte>>)
    requires forall k :: k in keys ==> k in m
    ensures ToMap(Decoded(m, keys)) == WrappedAll(Part(m, set k | k in keys))
  {
    if keys != [] {
      var front := keys[..|keys| - 1];
      ToMapOfDecoded(m, front);
      var last := keys[|keys| - 1];
      assert Decoded(m, keys)[..|keys| - 1] == Decoded(m, front);
      assert (set k | k in keys) == (set k | k in front) + {last};
      PartAdds(m, (set k | k in front), last);
    }
  }

  lemma PartAdds(m: Updates, ks: set<seq<byte>>, k: seq<byte>)
    requires k in m
    ensures WrappedAll(Part(m, ks + {k})) == WrappedAll(Part(m, ks))[k := Wrapped(m[k])]
  {
  }

  lemma SortedNamesAre(m: Updates)
    requires UpdatesOk(m)
    ensures forall k :: k in SortedNames(m) <==> k in m
    ensures |SortedNames(m)| == |m| <= |ORDER|
  {
    forall k
      ensures k in SortedNames(m) <==> k in m
    {
      SortedNamesHas(m, k);
    }
    SortedNamesHas(m, []);
    forall i, j | 0 <= i < j < |SortedNames(m)|
      ensures SortedNames(m)[i] != SortedNames(m)[j]
    {
      SortedNamesDistinct(m, i, j);
    }
    DistinctCount(SortedNames(m), m.Keys);
  }

  lemma {:induction false} DistinctCount<T>(xs: seq<T>, s: set<T>)
    requires forall x :: x in xs <==> x in s
    requires forall i, j :: 0 <= i < j < |xs| ==> xs[i] != xs[j]
    ensures |xs| == |s|
  {
    if xs == [] {
      assert s == {};
    } else {
      var last := xs[|xs| - 1];
      DistinctCount(xs[..|xs| - 1], s - {last});
    }
  }

  predicate EmptyStatus(m: Updates) {
    Name(MigrationStatus) in m && m[Name(MigrationStatus)] == Status([])
  }

  lemma ReadCountRoundTrip(m: Updates, rest: seq<byte>)
    requires |m| < TWO_16
    ensures ReadCount(UpdatesHeader(m) + rest) == Ok(|m|, rest)
  {
    Regroup2(LE(VERSION, 2), LE(|m|, 2), rest);
    Read16LE(VERSION, LE(|m|, 2) + rest);
    Read16LE(|m|, rest);
  }

  lemma EntryEncodes(c: Crypto, name: seq<byte>, v: Value)
    requires EntryOk(name, v) && ValueFits(c, v) && v != Status([])
    ensures Encodes(EntryReader(c), EntryBytes(c, name, v), (name, Wrapped(v)))
  {
    forall rest
      ensures EntryReader(c)(EntryBytes(c, name, v) + rest) == Ok((name, Wrapped(v)), rest)
    {
      EntryRoundTrip(c, name, v, rest);
    }
  }

  lemma EntryEncodesAt(c: Crypto, m: Updates, keys: seq<seq<byte>>, i: nat)
    requires AllRegistered(c, m) && (forall k :: k in keys ==> k in m)
    requires i < |keys| && EntryOk(keys[i], m[keys[i]]) && ValueFits(c, m[keys[i]]) && m[keys[i]] != Status([])
    ensures Encodes(EntryReader(c), Entries(c, m, keys)[i], Decoded(m, keys)[i])
  {
    EntryEncodes(c, keys[i], m[keys[i]]);
  }

  lemma EntriesRead(c: Crypto, m: Updates, keys: seq<seq<byte>>)
    requires UpdatesFit(c, m) && (forall k :: k in keys ==> k in m && m[k] != Status([]))
    ensures ReadN(EntryReader(c), Concat(Entries(c, m, keys)), |keys|) == Ok(Decoded(m, keys), [])
  {
    var entries, values, reader := Entries(c, m, keys), Decoded(m, keys), EntryReader(c);
    forall i | 0 <= i < |keys|
      ensures Encodes(reader, entries[i], values[i])
    {
      EntryEncodesAt(c, m, keys, i);
    }
    ReadAllParts(reader, entries, values);
  }

  /** `ReadNRoundTrip` at the end of the data. */
  lemma ReadAllParts<T>(read: seq<byte> -> Parsed<T>, parts: seq<seq<byte>>, values: seq<T>)
    requires |parts| == |values|
    requires forall i :: 0 <= i < |parts| ==> Encodes(read, parts[i], values[i])
    ensures ReadN(read, Concat(parts), |parts|) == Ok(values, [])
  {
    ReadNRoundTrip(read, parts, values, []);
    assert Concat(parts) + [] == Concat(parts);
  }

  /** Before an empty status every entry reads back, and the status itself does not. */
  lemma EntriesFail(c: Crypto, m: Updates, keys: seq<seq<byte>>)
    requires UpdatesFit(c, m) && (forall k :: k in keys ==> k in m)
    requires |keys| > 0 && keys[|keys| - 1] == Name(MigrationStatus) && EmptyStatus(m)
    requires forall i :: 0 <= i < |keys| - 1 ==> keys[i] != Name(MigrationStatus)
    ensures ReadN(EntryReader(c), Concat(Entries(c, m, keys)), |keys|).Fail?
  {
    var last, reader := |keys| - 1, EntryReader(c);
    var entries, values := Entries(c, m, keys), Decoded(m, keys);
    forall i | 0 <= i < last
      ensures Encodes(reader, entries[i], values[i])
    {
      OnlyStatusIsStatus(m, keys[i]);
      EntryEncodesAt(c, m, keys, i);
    }
    assert reader(entries[last]).Fail? by {
      EntryRoundTrip(c, keys[last], m[keys[last]], []);
      assert entries[last] + [] == entries[last];
    }
    ReadNLastFails(reader, entries, values[..last]);
  }

  lemma OnlyStatusIsStatus(m: Updates, k: seq<byte>)
    requires UpdatesOk(m) && k in m && k != Name(MigrationStatus)
    ensures !m[k].Status?
  {
  }

  lemma SortedNamesDistinct(m: Updates, i: nat, j: nat)
    requires i < j < |SortedNames(m)|
    ensures SortedNames(m)[i] != SortedNames(m)[j]
  {
    NamesUpToSorted(m, |ORDER|);
    StringLessOrder(SortedNames(m)[i], SortedNames(m)[i]);
  }

  lemma UnmarshalMarshalled(c: Crypto, m: Updates)
    requires UpdatesFit(c, m) && AllRegistered(c, m)
    requires forall k :: k in SortedNames(m) ==> k in m
    ensures var keys := SortedNames(m);
            var es := ReadN(EntryReader(c), Concat(Entries(c, m, keys)), |keys|);
      && Marshal(c, m).Some?
      && Unmarshal(c, Marshal(c, m).value) == if es.Fail? then None else Some(ToMap(es.value))
  {
    SortedNamesAre(m);
    ReadCountRoundTrip(m, Concat(Entries(c, m, SortedNames(m))));
  }

  lemma StatusOnlyLast(m: Updates, i: nat)
    requires Name(MigrationStatus) in m && i < |SortedNames(m)| - 1
    ensures SortedNames(m)[i] != Name(MigrationStatus)
  {
    SortedNamesDistinct(m, i, |SortedNames(m)| - 1);
  }

  lemma EmptyStatusFails(c: Crypto, m: Updates)
    requires UpdatesFit(c, m) && AllRegistered(c, m) && EmptyStatus(m)
    requires forall k :: k in SortedNames(m) ==> k in m
    ensures var keys := SortedNames(m); ReadN(EntryReader(c), Concat(Entries(c, m, keys)), |keys|).Fail?
  {
    forall i | 0 <= i < |SortedNames(m)| - 1
      ensures SortedNames(m)[i] != Name(MigrationStatus)
    {
      StatusOnlyLast(m, i);
    }
    EntriesFail(c, m, SortedNames(m));
  }

  lemma DecodedIsWhole(m: Updates)
    requires UpdatesOk(m) && forall k :: k in SortedNames(m) ==> k in m
    ensures ToMap(Decoded(m, SortedNames(m))) == WrappedAll(m)
  {
    SortedNamesAre(m);
    ToMapOfDecoded(m, SortedNames(m));
    assert Part(m, set k | k in SortedNames(m)) == m;
  }

  /** Updates decode to themselves exactly when they do not carry an empty migration status: that
      entry is always the last, and a read at the end of the data fails. */
  lemma UpdatesRoundTrip(c: Crypto, m: Updates)
    requires UpdatesFit(c, m)
    ensures AllRegistered(c, m) && Marshal(c, m).Some?
    ensures Unmarshal(c, Marshal(c, m).value) == if EmptyStatus(m) then None else Some(WrappedAll(m))
  {
    SortedNamesAre(m);
    UnmarshalMarshalled(c, m);
    if EmptyStatus(m) {
      EmptyStatusFails(c, m);
    } else {
      NoOtherEmptyStatus(m);
      EntriesRead(c, m, SortedNames(m));
      DecodedIsWhole(m);
    }
  }

  /** The failing input: a lone migration status that is empty encodes, and does not decode. */
  lemma EmptyStatusInput(c: Crypto)
    ensures var m: Updates := map[Name(MigrationStatus) := Status([])];
      AllRegistered(c, m) && Marshal(c, m).Some? && Unmarshal(c, Marshal(c, m).value) == None
  {
    var m: Updates := map[Name(MigrationStatus) := Status([])];
    ParamOfName(MigrationStatus);
    UpdatesRoundTrip(c, m);
  }

  lemma NoOtherEmptyStatus(m: Updates)
    requires UpdatesOk(m) && !EmptyStatus(m)
    ensures forall k :: k in m ==> m[k] != Status([])
  {
    forall k | k in m
      ensures m[k] != Status([])
    {
      if k != Name(MigrationStatus) {
        OnlyStatusIsStatus(m, k);
      }
    }
  }
}
