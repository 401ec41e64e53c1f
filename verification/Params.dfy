/** Network parameters, and how updates of them are merged (core/types/params.go). */
module Params {
  import opened Bytes
  import opened Keys

  datatype Param = DisabledGasCosts | JoinExpiry | Leader | MaxBlockSize | MaxVotesPerTx | MigrationStatus

  /** The parameter names are the struct tags. */
  function Name(p: Param): seq<byte> {
    match p
    case DisabledGasCosts => [100, 105, 115, 97, 98, 108, 101, 100, 95, 103, 97, 115, 95, 99, 111, 115, 116, 115]
    case JoinExpiry => [106, 111, 105, 110, 95, 101, 120, 112, 105, 114, 121]
    case Leader => [108, 101, 97, 100, 101, 114]
    case MaxBlockSize => [109, 97, 120, 95, 98, 108, 111, 99, 107, 95, 115, 105, 122, 101]
    case MaxVotesPerTx => [109, 97, 120, 95, 118, 111, 116, 101, 115, 95, 112, 101, 114, 95, 116, 120]
    case MigrationStatus => [109, 105, 103, 114, 97, 116, 105, 111, 110, 95, 115, 116, 97, 116, 117, 115]
  }

  function ParamOf(name: seq<byte>): (r: Option<Param>)
    ensures r.Some? ==> Name(r.value) == name
  {
    if name == Name(DisabledGasCosts) then Some(DisabledGasCosts)
    else if name == Name(JoinExpiry) then Some(JoinExpiry)
    else if name == Name(Leader) then Some(Leader)
    else if name == Name(MaxBlockSize) then Some(MaxBlockSize)
    else if name == Name(MaxVotesPerTx) then Some(MaxVotesPerTx)
    else if name == Name(MigrationStatus) then Some(MigrationStatus)
    else None
  }

  lemma ParamOfName(p: Param)
    ensures ParamOf(Name(p)) == Some(p)
  {
    assert ParamOf(Name(p)).Some?;
  }

  /** An update value: Go's `any`. A key may come wrapped in the PublicKey struct or bare. */
  datatype Value =
    | WrappedKey(key: PubKey)
    | BareKey(key: PubKey)
    | Int64(i: int64)
    | Duration(d: int64)
    | Bool(b: bool)
    | Status(s: seq<byte>)
    | OtherType

  type Updates = map<seq<byte>, Value>

  predicate TypeOk(p: Param, v: Value) {
    match p
    case Leader => v.WrappedKey? || v.BareKey?
    case DisabledGasCosts => v.Bool?
    case JoinExpiry => v.Duration?
    case MaxBlockSize => v.Int64?
    case MaxVotesPerTx => v.Int64?
    case MigrationStatus => v.Status?
  }

  predicate EntryOk(name: seq<byte>, v: Value) { ParamOf(name).Some? && TypeOk(ParamOf(name).value, v) }

  predicate UpdatesOk(m: Updates) { forall k :: k in m ==> EntryOk(k, m[k]) }

  // ---- merging into the parameters ----

  datatype NetParams = NetParams(
    leader: Option<PubKey>, maxBlockSize: int64, joinExpiry: int64, disabledGasCosts: bool,
    maxVotesPerTx: int64, migrationStatus: seq<byte>)

  class NetworkParameters {
    var leader: Option<PubKey>
    var maxBlockSize: int64
    var joinExpiry: int64
    var disabledGasCosts: bool
    var maxVotesPerTx: int64
    var migrationStatus: seq<byte>

    function State(): NetParams
      reads this
    {
      NetParams(leader, maxBlockSize, joinExpiry, disabledGasCosts, maxVotesPerTx, migrationStatus)
    }
  }

  /** Each field is the update's value if there is one, whatever order the updates come in. */
  function Merged(np: NetParams, m: Updates): NetParams
    requires UpdatesOk(m)
  {
    NetParams(
      if Name(Leader) in m then ParamOfName(Leader); Some(m[Name(Leader)].key) else np.leader,
      if Name(MaxBlockSize) in m then ParamOfName(MaxBlockSize); m[Name(MaxBlockSize)].i else np.maxBlockSize,
      if Name(JoinExpiry) in m then ParamOfName(JoinExpiry); m[Name(JoinExpiry)].d else np.joinExpiry,
      if Name(DisabledGasCosts) in m then ParamOfName(DisabledGasCosts); m[Name(DisabledGasCosts)].b
      else np.disabledGasCosts,
      if Name(MaxVotesPerTx) in m then ParamOfName(MaxVotesPerTx); m[Name(MaxVotesPerTx)].i else np.maxVotesPerTx,
      if Name(MigrationStatus) in m then ParamOfName(MigrationStatus); m[Name(MigrationStatus)].s
      else np.migrationStatus)
  }

  function Set(np: NetParams, p: Param, v: Value): NetParams
    requires TypeOk(p, v)
  {
    match p
    case Leader => np.(leader := Some(v.key))
    case MaxBlockSize => np.(maxBlockSize := v.i)
    case JoinExpiry => np.(joinExpiry := v.d)
    case DisabledGasCosts => np.(disabledGasCosts := v.b)
    case MaxVotesPerTx => np.(maxVotesPerTx := v.i)
    case MigrationStatus => np.(migrationStatus := v.s)
  }

  lemma MergedStep(np: NetParams, m: Updates, p: Param, v: Value)
    requires UpdatesOk(m) && Name(p) !in m && TypeOk(p, v)
    ensures UpdatesOk(m[Name(p) := v])
    ensures Merged(np, m[Name(p) := v]) == Set(Merged(np, m), p, v)
  {
    ParamOfName(p);
    assert forall q: Param :: Name(q) == Name(p) ==> q == p;
    assert Name(Leader) != Name(MaxBlockSize);
  }

  function Part(m: Updates, ks: set<seq<byte>>): Updates { map k | k in m && k in ks :: m[k] }

  ghost predicate MergedInPart(was: NetParams, m: Updates, done: set<seq<byte>>, now: NetParams) {
    done <= m.Keys && UpdatesOk(Part(m, done)) && now == Merged(was, Part(m, done))
  }

  /** MergeUpdates. Go ranges over the map in any order, so the next update is any one not yet done.
      A failed type assertion is recovered into an error, which leaves some of the updates merged. */
  method MergeUpdates(np: NetworkParameters, updates: Updates) returns (ok: bool)
    modifies np
    ensures ok <==> UpdatesOk(updates)
    ensures ok ==> np.State() == Merged(old(np.State()), updates)
    ensures exists done :: MergedInPart(old(np.State()), updates, done, np.State())
  {
    var todo := updates.Keys;
    ghost var done := {};
    assert Part(updates, done) == map[];
    while todo != {}
      invariant todo <= updates.Keys && done == updates.Keys - todo
      invariant MergedInPart(old(np.State()), updates, done, np.State())
    {
      var name :| name in todo;
      if !EntryOk(name, updates[name]) { return false; }
      Store(np, ParamOf(name).value, updates[name]);
      MergedStep(old(np.State()), Part(updates, done), ParamOf(name).value, updates[name]);
      assert Part(updates, done)[name := updates[name]] == Part(updates, done + {name});
      done := done + {name};
      todo := todo - {name};
    }
    assert Part(updates, done) == updates;
    return true;
  }

  method Store(np: NetworkParameters, p: Param, v: Value)
    requires TypeOk(p, v)
    modifies np
    ensures np.State() == Set(old(np.State()), p, v)
  {
    match p
    case Leader => np.leader := Some(v.key);
    case MaxBlockSize => np.maxBlockSize := v.i;
    case JoinExpiry => np.joinExpiry := v.d;
    case DisabledGasCosts => np.disabledGasCosts := v.b;
    case MaxVotesPerTx => np.maxVotesPerTx := v.i;
    case MigrationStatus => np.migrationStatus := v.s;
  }

  /** ParamUpdates.Merge: the other's entries win. */
  method Merge(pu: Updates, other: Updates) returns (r: Updates)
    ensures r == pu + other
  {
    var todo := other.Keys;
    r := pu;
    while todo != {}
      invariant todo <= other.Keys
      invariant r == pu + Part(other, other.Keys - todo)
    {
      var k :| k in todo;
      r := r[k := other[k]];
      todo := todo - {k};
    }
    assert Part(other, other.Keys) == other;
  }

  /** Merging a.Merge(b) is merging a and then b; it succeeds exactly when b is valid and what b
      does not override of a is. */
  lemma MergeComposes(np: NetParams, a: Updates, b: Updates)
    ensures UpdatesOk(a + b) <==> UpdatesOk(b) && UpdatesOk(Part(a, a.Keys - b.Keys))
    ensures UpdatesOk(a) && UpdatesOk(b) ==> UpdatesOk(a + b) && Merged(Merged(np, a), b) == Merged(np, a + b)
  {
    assert forall k :: k in b ==> (a + b)[k] == b[k];
    assert forall k :: k in a && k !in b ==> (a + b)[k] == a[k] && Part(a, a.Keys - b.Keys)[k] == a[k];
  }
}
