/** Commit info: votes, parameter updates and validator updates (core/types/commit.go and the
    account and validator codecs of core/types/types.go). */
module Commits {
  import opened Bytes
  import opened Varints
  import opened Wire
  import opened Keys
  import opened Many
  import opened Params
  import opened ParamCodec

  // ---- votes ----

  datatype Signature = Signature(kind: KeyType, pubKey: Option<seq<byte>>, data: Option<seq<byte>>)

  const ACK_REJECT: int32 := 0
  const ACK_AGREE: int32 := 1
  const ACK_FORKED: int32 := 2

  datatype Vote = Vote(status: int32, appHash: Option<Hash>, sig: Signature)

  function SignatureBytes(c: Crypto, g: Signature): Option<seq<byte>> {
    var kind := KeyTypeBytes(c, g.kind);
    if kind.None? then None else Some(kind.value + CompactBytes(g.pubKey) + CompactBytes(g.data))
  }

  function ReadSignature(c: Crypto, s: seq<byte>): Parsed<Signature> {
    var (kind, s1) :- ReadKeyType(c, s);
    var (pubKey, s2) :- ReadCompactBytes(s1, false);
    var (data, s3) :- ReadCompactBytes(s2, false);
    Ok(Signature(kind, pubKey, data), s3)
  }

  function HashPart(v: Vote): seq<byte>
    requires v.status == ACK_FORKED ==> v.appHash.Some?
  {
    if v.status == ACK_FORKED then v.appHash.value else []
  }

  /** VoteInfo.MarshalBinary: the app hash is written for a forked vote only, and must then be there. */
  function VoteBytes(c: Crypto, v: Vote): Option<seq<byte>> {
    var sig := SignatureBytes(c, v.sig);
    if sig.None? || (v.status == ACK_FORKED && v.appHash.None?) then None
    else Some(sig.value + LE(Bits32(v.status), 4) + HashPart(v))
  }

  function ReadForkedHash(status: int32, s: seq<byte>): Parsed<Option<Hash>> {
    if status != ACK_FORKED then Ok(None, s)
    else
      var (h, rest) :- Take(s, HASH_LEN);
      Ok(Some(h), rest)
  }

  function ReadVote(c: Crypto, s: seq<byte>): Parsed<Vote> {
    var (sig, s1) :- ReadSignature(c, s);
    var (status, s2) :- Read32(s1);
    var (appHash, s3) :- ReadForkedHash(Signed32(status), s2);
    Ok(Vote(Signed32(status), appHash, sig), s3)
  }

  /** A vote as SignVote's caller builds it: registered key type, app hash exactly on a forked vote. */
  ghost predicate VoteOk(c: Crypto, v: Vote) { Inverse(c.reg) && VoteFits(c, v) }

  predicate VoteFits(c: Crypto, v: Vote) {
    && v.sig.kind in c.reg.types
    && (v.sig.pubKey.Some? ==> |v.sig.pubKey.value| < TWO_63)
    && (v.sig.data.Some? ==> |v.sig.data.value| < TWO_63)
    && (v.appHash.Some? <==> v.status == ACK_FORKED)
  }

  lemma SignatureRoundTrip(c: Crypto, v: Vote, rest: seq<byte>)
    requires VoteOk(c, v)
    ensures SignatureBytes(c, v.sig).Some?
    ensures ReadSignature(c, SignatureBytes(c, v.sig).value + rest) == Ok(v.sig, rest)
  {
    var e1, e2, e3 := KeyTypeBytes(c, v.sig.kind).value, CompactBytes(v.sig.pubKey), CompactBytes(v.sig.data);
    Regroup2(e1 + e2, e3, rest);
    Regroup2(e1, e2, e3 + rest);
    KeyTypeRoundTrip(c, v.sig.kind, e2 + (e3 + rest));
    CompactBytesRoundTrip(v.sig.pubKey, false, e3 + rest);
    CompactBytesRoundTrip(v.sig.data, false, rest);
  }

  lemma ReadVoteFields(c: Crypto, s: seq<byte>, s1: seq<byte>, s2: seq<byte>, rest: seq<byte>, v: Vote)
    requires ReadSignature(c, s) == Ok(v.sig, s1)
    requires Read32(s1) == Ok(Bits32(v.status), s2)
    requires ReadForkedHash(v.status, s2) == Ok(v.appHash, rest)
    ensures ReadVote(c, s) == Ok(v, rest)
  {
    assert Signed32(Bits32(v.status)) == v.status;
  }

  lemma VoteRoundTrip(c: Crypto, v: Vote, rest: seq<byte>)
    requires VoteOk(c, v)
    ensures VoteBytes(c, v).Some?
    ensures ReadVote(c, VoteBytes(c, v).value + rest) == Ok(v, rest)
  {
    var e2, e3 := LE(Bits32(v.status), 4), HashPart(v);
    SignatureRoundTrip(c, v, e2 + (e3 + rest));
    var e1 := SignatureBytes(c, v.sig).value;
    Regroup2(e1 + e2, e3, rest);
    Regroup2(e1, e2, e3 + rest);
    Read32LE(Bits32(v.status), e3 + rest);
    ReadVoteFields(c, e1 + e2 + e3 + rest, e2 + (e3 + rest), e3 + rest, rest, v);
  }

  // ---- validators ----

  datatype Validator = Validator(identifier: Option<seq<byte>>, kind: KeyType, power: int64)

  const CODEC_VERSION: uint16 := 0

  function AccountBytes(c: Crypto, v: Validator): Option<seq<byte>> {
    if v.kind !in c.reg.types then None
    else Some(LE(CODEC_VERSION, 2) + Bytes32(v.identifier) + LE(c.reg.types[v.kind].flag, 4))
  }

  /** AccountID.UnmarshalBinary; trailing bytes are ignored. */
  function ReadAccount(c: Crypto, s: seq<byte>): Parsed<(Option<seq<byte>>, KeyType)> {
    var (version, s1) :- Read16(s);
    if version != CODEC_VERSION then Fail else
    var (identifier, s2) :- ReadBytes32(s1);
    var (kind, s3) :- ReadKeyType(c, s2);
    Ok((identifier, kind), s3)
  }

  function ValidatorBytes(c: Crypto, v: Validator): Option<seq<byte>> {
    var account := AccountBytes(c, v);
    if account.None? then None
    else Some(LE(CODEC_VERSION, 2) + Bytes32(account) + LE(Bits64(v.power), 8))
  }

  function ReadValidator(c: Crypto, s: seq<byte>): Parsed<Validator> {
    var (version, s1) :- Read16(s);
    if version != CODEC_VERSION then Fail else
    var (raw, s2) :- ReadBytes32(s1);
    var (account, ignored) :- ReadAccount(c, if raw.Some? then raw.value else []);
    var (power, s3) :- Read64(s2);
    Ok(Validator(account.0, account.1, Signed64(power)), s3)
  }

  ghost predicate ValidatorOk(c: Crypto, v: Validator) { Inverse(c.reg) && ValidatorFits(c, v) }

  predicate ValidatorFits(c: Crypto, v: Validator) {
    && v.kind in c.reg.types
    && (v.identifier.Some? ==> |v.identifier.value| < NIL_LEN - 10)
  }

  lemma AccountRoundTrip(c: Crypto, v: Validator)
    requires Inverse(c.reg) && v.kind in c.reg.types
    requires v.identifier.Some? ==> |v.identifier.value| < NIL_LEN
    ensures AccountBytes(c, v).Some? && |AccountBytes(c, v).value| <= 10 + |OrEmpty(v.identifier)|
    ensures ReadAccount(c, AccountBytes(c, v).value) == Ok((v.identifier, v.kind), [])
  {
    var e1, e2, e3 := LE(CODEC_VERSION, 2), Bytes32(v.identifier), LE(c.reg.types[v.kind].flag, 4);
    assert e3 + [] == e3;
    Regroup2(e1, e2, e3);
    Read16LE(CODEC_VERSION, e2 + e3);
    Bytes32RoundTrip(v.identifier, e3);
    KeyTypeRoundTrip(c, v.kind, []);
  }

  lemma ValidatorRoundTrip(c: Crypto, v: Validator, rest: seq<byte>)
    requires ValidatorOk(c, v)
    ensures ValidatorBytes(c, v).Some?
    ensures ReadValidator(c, ValidatorBytes(c, v).value + rest) == Ok(v, rest)
  {
    AccountRoundTrip(c, v);
    var account := AccountBytes(c, v);
    var e1, e2, e3 := LE(CODEC_VERSION, 2), Bytes32(account), LE(Bits64(v.power), 8);
    Regroup2(e1 + e2, e3, rest);
    Regroup2(e1, e2, e3 + rest);
    Read16LE(CODEC_VERSION, e2 + (e3 + rest));
    Bytes32RoundTrip(account, e3 + rest);
    Read64LE(Bits64(v.power), rest);
  }

  // ---- a counted list of compact-bytes items ----

  /** The list readers of CommitInfo: each item is unmarshalled from its own bytes, whose tail is ignored. */
  function ReadItem<T>(parse: seq<byte> -> Parsed<T>, s: seq<byte>): Parsed<T> {
    var (raw, rest) :- ReadCompactBytes(s, true);
    var (item, ignored) :- parse(if raw.Some? then raw.value else []);
    Ok(item, rest)
  }

  function ItemReader<T>(parse: seq<byte> -> Parsed<T>): seq<byte> -> Parsed<T> { s => ReadItem(parse, s) }

  /** A count no larger than the bytes that remain, then that many items. */
  function ReadList<T>(parse: seq<byte> -> Parsed<T>, s: seq<byte>): Parsed<seq<T>> {
    var (n, rest) :- ReadUvarint(s);
    if n > |rest| then Fail else ReadN(ItemReader(parse), rest, n)
  }

  function Items(raws: seq<seq<byte>>): (r: seq<seq<byte>>)
    ensures |r| == |raws|
    ensures forall i :: 0 <= i < |raws| ==> r[i] == CompactBytes(Some(raws[i]))
  {
    seq(|raws|, i requires 0 <= i < |raws| => CompactBytes(Some(raws[i])))
  }

  function ListBytes(raws: seq<seq<byte>>): seq<byte> { Uvarint(|raws|) + Concat(Items(raws)) }

  lemma ItemEncodes<T>(parse: seq<byte> -> Parsed<T>, raw: seq<byte>, value: T)
    requires |raw| < TWO_63
    requires parse(raw).Ok? && parse(raw).value == value
    ensures Encodes(ItemReader(parse), CompactBytes(Some(raw)), value)
  {
    forall rest
      ensures ItemReader(parse)(CompactBytes(Some(raw)) + rest) == Ok(value, rest)
    {
      CompactBytesRoundTrip(Some(raw), true, rest);
    }
  }

  /** Every item takes at least one byte, so the count check never refuses a list that was written. */
  lemma ListRoundTrip<T>(parse: seq<byte> -> Parsed<T>, raws: seq<seq<byte>>, values: seq<T>, rest: seq<byte>)
    requires |raws| == |values| < TWO_64
    requires forall i :: 0 <= i < |raws| ==>
      |raws[i]| < TWO_63 && parse(raws[i]).Ok? && parse(raws[i]).value == values[i]
    ensures ReadList(parse, ListBytes(raws) + rest) == Ok(values, rest)
  {
    var items := Items(raws);
    forall i | 0 <= i < |raws|
      ensures Encodes(ItemReader(parse), items[i], values[i])
    {
      ItemEncodes(parse, raws[i], values[i]);
    }
    ConcatMinimum(items, 1);
    ReadNRoundTrip(ItemReader(parse), items, values, rest);
    Regroup2(Uvarint(|raws|), Concat(items), rest);
    UvarintRoundTrip(|raws|, Concat(items) + rest);
  }

  // ---- the whole ----

  datatype CommitInfo = CommitInfo(
    appHash: Hash, votes: seq<Vote>, paramUpdates: Updates, validatorUpdates: seq<Validator>)

  /** Marshals every item, or fails at the first that cannot be. */
  function MarshalAll<T>(marshal: T -> Option<seq<byte>>, xs: seq<T>): (r: Option<seq<seq<byte>>>)
    ensures r.Some? <==> forall i :: 0 <= i < |xs| ==> marshal(xs[i]).Some?
    ensures r.Some? ==> |r.value| == |xs| && forall i :: 0 <= i < |xs| ==> marshal(xs[i]) == Some(r.value[i])
  {
    if forall i :: 0 <= i < |xs| ==> marshal(xs[i]).Some? then
      Some(seq(|xs|, i requires 0 <= i < |xs| => marshal(xs[i]).value))
    else None
  }

  function Voter(c: Crypto): Vote -> Option<seq<byte>> { v => VoteBytes(c, v) }

  function ValidatorMarshaller(c: Crypto): Validator -> Option<seq<byte>> { v => ValidatorBytes(c, v) }

  /** CommitInfo.MarshalBinary */
  function CommitBytes(c: Crypto, ci: CommitInfo): Option<seq<byte>>
    requires AllRegistered(c, ci.paramUpdates)
  {
    var votes := MarshalAll(Voter(c), ci.votes);
    var params := Marshal(c, ci.paramUpdates);
    var vals := MarshalAll(ValidatorMarshaller(c), ci.validatorUpdates);
    if votes.None? || params.None? || vals.None? then None
    else Some(ci.appHash + ListBytes(votes.value) + CompactBytes(params) + ListBytes(vals.value))
  }

  function VoteReader(c: Crypto): seq<byte> -> Parsed<Vote> { s => ReadVote(c, s) }

  function ValidatorReader(c: Crypto): seq<byte> -> Parsed<Validator> { s => ReadValidator(c, s) }

  function ReadParams(c: Crypto, s: seq<byte>): Parsed<Updates> {
    var (raw, rest) :- ReadCompactBytes(s, true);
    var m := Unmarshal(c, if raw.Some? then raw.value else []);
    if m.None? then Fail else Ok(m.value, rest)
  }

  /** CommitInfo.UnmarshalBinary; trailing bytes are ignored. */
  function ReadCommit(c: Crypto, s: seq<byte>): Parsed<CommitInfo> {
    var (appHash, s1) :- Take(s, HASH_LEN);
    var (votes, s2) :- ReadList(VoteReader(c), s1);
    var (params, s3) :- ReadParams(c, s2);
    var (vals, s4) :- ReadList(ValidatorReader(c), s3);
    Ok(CommitInfo(appHash, votes, params, vals), s4)
  }

  /** Registered key types, app hash on forked votes only, values within their length prefixes. */
  ghost predicate CommitOk(c: Crypto, ci: CommitInfo) {
    && (forall i :: 0 <= i < |ci.votes| ==> VoteOk(c, ci.votes[i]))
    && UpdatesFit(c, ci.paramUpdates)
    && (forall i :: 0 <= i < |ci.validatorUpdates| ==> ValidatorOk(c, ci.validatorUpdates[i]))
  }

  lemma VotesRoundTrip(c: Crypto, votes: seq<Vote>, rest: seq<byte>)
    requires |votes| < TWO_63 && forall i :: 0 <= i < |votes| ==> VoteOk(c, votes[i])
    ensures MarshalAll(Voter(c), votes).Some?
    ensures var raws := MarshalAll(Voter(c), votes).value;
      (forall i :: 0 <= i < |raws| ==> |raws[i]| < TWO_63) ==>
        ReadList(VoteReader(c), ListBytes(raws) + rest) == Ok(votes, rest)
  {
    forall i | 0 <= i < |votes|
      ensures VoteBytes(c, votes[i]).Some?
      ensures VoteReader(c)(VoteBytes(c, votes[i]).value) == Ok(votes[i], [])
    {
      VoteRoundTrip(c, votes[i], []);
      var raw := VoteBytes(c, votes[i]).value;
      assert raw + [] == raw;
    }
    assert forall i :: 0 <= i < |votes| ==> Voter(c)(votes[i]).Some?;
    var raws := MarshalAll(Voter(c), votes).value;
    if forall i :: 0 <= i < |raws| ==> |raws[i]| < TWO_63 {
      assert forall i :: 0 <= i < |raws| ==> Some(raws[i]) == Voter(c)(votes[i]);
      ListRoundTrip(VoteReader(c), raws, votes, rest);
    }
  }

  lemma ValidatorsRoundTrip(c: Crypto, vals: seq<Validator>, rest: seq<byte>)
    requires |vals| < TWO_63 && forall i :: 0 <= i < |vals| ==> ValidatorOk(c, vals[i])
    ensures MarshalAll(ValidatorMarshaller(c), vals).Some?
    ensures var raws := MarshalAll(ValidatorMarshaller(c), vals).value;
      (forall i :: 0 <= i < |raws| ==> |raws[i]| < TWO_63) ==>
        ReadList(ValidatorReader(c), ListBytes(raws) + rest) == Ok(vals, rest)
  {
    forall i | 0 <= i < |vals|
      ensures ValidatorBytes(c, vals[i]).Some?
      ensures ValidatorReader(c)(ValidatorBytes(c, vals[i]).value) == Ok(vals[i], [])
    {
      ValidatorRoundTrip(c, vals[i], []);
      var raw := ValidatorBytes(c, vals[i]).value;
      assert raw + [] == raw;
    }
    assert forall i :: 0 <= i < |vals| ==> ValidatorMarshaller(c)(vals[i]).Some?;
    var raws := MarshalAll(ValidatorMarshaller(c), vals).value;
    if forall i :: 0 <= i < |raws| ==> |raws[i]| < TWO_63 {
      assert forall i :: 0 <= i < |raws| ==> Some(raws[i]) == ValidatorMarshaller(c)(vals[i]);
      ListRoundTrip(ValidatorReader(c), raws, vals, rest);
    }
  }

  lemma ListFits(raws: seq<seq<byte>>)
    ensures |raws| < |ListBytes(raws)|
    ensures forall i :: 0 <= i < |raws| ==> |raws[i]| < |ListBytes(raws)|
  {
    ConcatMinimum(Items(raws), 1);
    forall i | 0 <= i < |raws|
      ensures |raws[i]| < |ListBytes(raws)|
    {
      assert |Items(raws)[i]| <= |Concat(Items(raws))|;
    }
  }

  lemma ParamsRoundTrip(c: Crypto, m: Updates, rest: seq<byte>)
    requires UpdatesFit(c, m)
    ensures AllRegistered(c, m) && Marshal(c, m).Some?
    ensures |Marshal(c, m).value| < TWO_63 ==>
      ReadParams(c, CompactBytes(Marshal(c, m)) + rest) == if EmptyStatus(m) then Fail else Ok(WrappedAll(m), rest)
  {
    UpdatesRoundTrip(c, m);
    if |Marshal(c, m).value| < TWO_63 {
      CompactBytesRoundTrip(Marshal(c, m), true, rest);
    }
  }

  lemma ReadCommitFields(
      c: Crypto, s: seq<byte>, s1: seq<byte>, s2: seq<byte>, s3: seq<byte>, rest: seq<byte>,
      ci: CommitInfo, params: Parsed<Updates>)
    requires Take(s, HASH_LEN) == Ok(ci.appHash, s1)
    requires ReadList(VoteReader(c), s1) == Ok(ci.votes, s2)
    requires ReadParams(c, s2) == params
    requires params.Ok? ==> params.rest == s3 && ReadList(ValidatorReader(c), s3) == Ok(ci.validatorUpdates, rest)
    ensures ReadCommit(c, s) == if params.Fail? then Fail else Ok(ci.(paramUpdates := params.value), rest)
  {
  }

  /** A commit info of any size decodes to itself, its keys wrapped, exactly when its parameter
      updates carry no empty migration status. */
  lemma CommitRoundTrip(c: Crypto, ci: CommitInfo)
    requires CommitOk(c, ci) && |ci.votes| < TWO_63 && |ci.validatorUpdates| < TWO_63
    ensures AllRegistered(c, ci.paramUpdates) && CommitBytes(c, ci).Some?
    ensures |CommitBytes(c, ci).value| < TWO_63 ==>
      ReadCommit(c, CommitBytes(c, ci).value) ==
        if EmptyStatus(ci.paramUpdates) then Fail else Ok(ci.(paramUpdates := WrappedAll(ci.paramUpdates)), [])
  {
    if |CommitBytes(c, ci).value| < TWO_63 {
      CommitReadsBack(c, ci, MarshalAll(Voter(c), ci.votes).value, Marshal(c, ci.paramUpdates).value,
                      MarshalAll(ValidatorMarshaller(c), ci.validatorUpdates).value);
    }
  }

  /** The same conditions, but for the registry's own. */
  ghost predicate CommitFits(c: Crypto, ci: CommitInfo) {
    && (forall i :: 0 <= i < |ci.votes| ==> VoteFits(c, ci.votes[i]))
    && UpdatesOk(ci.paramUpdates)
    && (forall k :: k in ci.paramUpdates ==> UpdateFits(c, ci.paramUpdates[k]))
    && (forall i :: 0 <= i < |ci.validatorUpdates| ==> ValidatorFits(c, ci.validatorUpdates[i]))
    && |ci.votes| < TWO_63 && |ci.validatorUpdates| < TWO_63
  }

  predicate UpdateFits(c: Crypto, v: Params.Value) {
    && (v.WrappedKey? || v.BareKey? ==> KeyKnown(c, v.key) && |v.key.raw| + 4 < TWO_16)
    && (v.Status? ==> |v.s| < TWO_16)
  }

  /** Whatever key types were registered, in whatever order and with whatever refusals: commit info of registered
      key types decodes to itself exactly when it carries no empty migration status. */
  lemma CommitRoundTripAfter(defs: seq<KeyDef>, c: Crypto, ci: CommitInfo)
    requires c.reg == RegistryAfter(defs) && CommitFits(c, ci)
    ensures AllRegistered(c, ci.paramUpdates) && CommitBytes(c, ci).Some?
    ensures |CommitBytes(c, ci).value| < TWO_63 ==>
      ReadCommit(c, CommitBytes(c, ci).value) ==
        if EmptyStatus(ci.paramUpdates) then Fail else Ok(ci.(paramUpdates := WrappedAll(ci.paramUpdates)), [])
  {
    RegistryInvariant(defs, |defs|);
    assert CommitOk(c, ci);
    CommitRoundTrip(c, ci);
  }

  lemma CommitReadsBack(c: Crypto, ci: CommitInfo, votes: seq<seq<byte>>, params: seq<byte>, vals: seq<seq<byte>>)
    requires CommitOk(c, ci) && |ci.votes| < TWO_63 && |ci.validatorUpdates| < TWO_63
    requires AllRegistered(c, ci.paramUpdates)
    requires MarshalAll(Voter(c), ci.votes) == Some(votes)
    requires Marshal(c, ci.paramUpdates) == Some(params)
    requires MarshalAll(ValidatorMarshaller(c), ci.validatorUpdates) == Some(vals)
    requires |CommitBytes(c, ci).value| < TWO_63
    ensures ReadCommit(c, CommitBytes(c, ci).value) ==
      if EmptyStatus(ci.paramUpdates) then Fail else Ok(ci.(paramUpdates := WrappedAll(ci.paramUpdates)), [])
  {
    var e1, e2, e3, e4 := ci.appHash, ListBytes(votes), CompactBytes(Some(params)), ListBytes(vals);
    assert CommitBytes(c, ci).value == e1 + (e2 + (e3 + (e4 + []))) by {
      Regroup4(e1, e2, e3, e4, []);
      assert e1 + e2 + e3 + e4 + [] == e1 + e2 + e3 + e4;
    }
    ListFits(votes);
    ListFits(vals);
    TakeAppend(e1, e2 + (e3 + (e4 + [])));
    VotesRoundTrip(c, ci.votes, e3 + (e4 + []));
    ParamsRoundTrip(c, ci.paramUpdates, e4 + []);
    ValidatorsRoundTrip(c, ci.validatorUpdates, []);
    ReadCommitFields(c, CommitBytes(c, ci).value, e2 + (e3 + (e4 + [])), e3 + (e4 + []), e4 + [], [], ci,
                     if EmptyStatus(ci.paramUpdates) then Fail else Ok(WrappedAll(ci.paramUpdates), e4 + []));
  }

  // ---- the loops ----

  /** One marshal loop of CommitInfo.MarshalBinary: the count, then each item; stops at an error. */
  method AppendList<T>(marshal: T -> Option<seq<byte>>, xs: seq<T>, buf: seq<byte>) returns (r: Option<seq<byte>>)
    ensures var raws := MarshalAll(marshal, xs);
      r == if raws.None? then None else Some(buf + ListBytes(raws.value))
  {
    var out := buf + Uvarint(|xs|);
    var raws: seq<seq<byte>> := [];
    for i := 0 to |xs|
      invariant |raws| == i && forall j :: 0 <= j < i ==> marshal(xs[j]) == Some(raws[j])
      invariant out == buf + Uvarint(|xs|) + Concat(Items(raws))
    {
      var raw := marshal(xs[i]);
      if raw.None? { return None; }
      ItemsGrow(buf + Uvarint(|xs|), raws, raw.value);
      out := out + CompactBytes(raw);
      raws := raws + [raw.value];
    }
    assert raws == MarshalAll(marshal, xs).value;
    Regroup2(buf, Uvarint(|xs|), Concat(Items(raws)));
    r := Some(out);
  }

  lemma ItemsGrow(front: seq<byte>, raws: seq<seq<byte>>, raw: seq<byte>)
    ensures front + Concat(Items(raws)) + CompactBytes(Some(raw)) == front + Concat(Items(raws + [raw]))
  {
    var items := Items(raws + [raw]);
    assert items[..|raws|] == Items(raws);
    assert items == Items(raws) + [items[|raws|]];
    ConcatAppend(Items(raws), CompactBytes(Some(raw)));
    Regroup2(front, Concat(Items(raws)), CompactBytes(Some(raw)));
  }

  method MarshalCommit(c: Crypto, ci: CommitInfo) returns (r: Option<seq<byte>>)
    requires AllRegistered(c, ci.paramUpdates)
    ensures r == CommitBytes(c, ci)
  {
    var buf := AppendList(Voter(c), ci.votes, ci.appHash);
    if buf.None? { return None; }
    var params := MarshalBinary(c, ci.paramUpdates);
    if params.None? { return None; }
    r := AppendList(ValidatorMarshaller(c), ci.validatorUpdates, buf.value + CompactBytes(params));
  }

  /** One unmarshal loop of CommitInfo.UnmarshalBinary. */
  method DecodeList<T>(parse: seq<byte> -> Parsed<T>, s: seq<byte>) returns (r: Parsed<seq<T>>)
    ensures r == ReadList(parse, s)
  {
    var n := ReadUvarint(s);
    if n.Fail? { return Fail; }
    if n.value > |n.rest| { return Fail; }
    var rd, items: seq<T> := n.rest, [];
    ghost var reader := ItemReader(parse);
    SoFarStart(reader, n.rest, n.value);
    for i := 0 to n.value
      invariant |items| == i && SoFar(reader, n.rest, n.value, items, rd)
    {
      SoFarStep(reader, n.rest, n.value, items, rd);
      var raw := ReadCompactBytes(rd, true);
      if raw.Fail? { return Fail; }
      var item := parse(if raw.value.Some? then raw.value.value else []);
      if item.Fail? { return Fail; }
      items, rd := items + [item.value], raw.rest;
    }
    SoFarEnd(reader, n.rest, n.value, items, rd);
    r := Ok(items, rd);
  }

  method UnmarshalCommit(c: Crypto, data: seq<byte>) returns (r: Parsed<CommitInfo>)
    ensures r == ReadCommit(c, data)
  {
    var appHash := Take(data, HASH_LEN);
    if appHash.Fail? { return Fail; }
    var votes := DecodeList(VoteReader(c), appHash.rest);
    if votes.Fail? { return Fail; }
    var raw := ReadCompactBytes(votes.rest, true);
    if raw.Fail? { return Fail; }
    var params := UnmarshalBinary(c, if raw.value.Some? then raw.value.value else []);
    if params.None? { return Fail; }
    var vals := DecodeList(ValidatorReader(c), raw.rest);
    if vals.Fail? { return Fail; }
    r := Ok(CommitInfo(appHash.value, votes.value, params.value, vals.value), vals.rest);
  }
}
