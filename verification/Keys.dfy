/** Key types and the wire form of public keys (core/crypto/keys.go, core/crypto/keytype.go). */
module Keys {
  import opened Bytes

  type KeyType = seq<byte>

  datatype KeyDef = KeyDef(kind: KeyType, flag: uint32)

  /** The two package-level maps: definitions by name, names by encoding flag. */
  datatype Registry = Registry(types: map<KeyType, KeyDef>, ids: map<uint32, KeyType>)

  const RESERVED_KEY_IDS := TWO_16
  const SECP256K1: KeyType := [115, 101, 99, 112, 50, 53, 54, 107, 49]
  const ED25519: KeyType := [101, 100, 50, 53, 53, 49, 57]

  const BUILTIN := Registry(
    map[SECP256K1 := KeyDef(SECP256K1, 0), ED25519 := KeyDef(ED25519, 1)],
    map[0 := SECP256K1, 1 := ED25519])

  /** Names and flags determine each other. */
  ghost predicate Inverse(r: Registry) {
    && (forall k :: k in r.types ==> r.types[k].kind == k && r.types[k].flag in r.ids && r.ids[r.types[k].flag] == k)
    && (forall f :: f in r.ids ==> r.ids[f] in r.types && r.types[r.ids[f]].flag == f)
  }

  predicate Accepts(r: Registry, d: KeyDef) {
    && d.flag > RESERVED_KEY_IDS
    && 32 !in d.kind
    && d.kind !in r.types
    && d.flag !in r.ids
  }

  function Register(r: Registry, d: KeyDef): Registry {
    if Accepts(r, d) then Registry(r.types[d.kind := d], r.ids[d.flag := d.kind]) else r
  }

  class KeyTypes {
    var types: map<KeyType, KeyDef>
    var ids: map<uint32, KeyType>

    function State(): Registry
      reads this
    {
      Registry(types, ids)
    }

    constructor ()
      ensures State() == BUILTIN
    {
      types := BUILTIN.types;
      ids := BUILTIN.ids;
    }

    /** RegisterKeyType: an error leaves both maps alone. */
    method RegisterKeyType(d: KeyDef) returns (ok: bool)
      modifies this
      ensures ok == Accepts(old(State()), d)
      ensures State() == Register(old(State()), d)
    {
      if d.flag <= RESERVED_KEY_IDS { return false; }
      if 32 in d.kind { return false; }
      if d.kind in types { return false; }
      if d.flag in ids { return false; }
      types := types[d.kind := d];
      ids := ids[d.flag := d.kind];
      return true;
    }
  }

  /** The registry after any sequence of registration attempts, accepted or not. */
  function RegistryAfter(defs: seq<KeyDef>): Registry {
    if defs == [] then BUILTIN else Register(RegistryAfter(defs[..|defs| - 1]), defs[|defs| - 1])
  }

  /** Every run of RegisterKeyType keeps the maps mutually inverse and never rebinds a name or flag. */
  lemma {:induction false} RegistryInvariant(defs: seq<KeyDef>, n: nat)
    requires n <= |defs|
    ensures Inverse(RegistryAfter(defs))
    ensures forall k :: k in RegistryAfter(defs[..n]).types ==>
      k in RegistryAfter(defs).types && RegistryAfter(defs).types[k] == RegistryAfter(defs[..n]).types[k]
    ensures forall f :: f in RegistryAfter(defs[..n]).ids ==>
      f in RegistryAfter(defs).ids && RegistryAfter(defs).ids[f] == RegistryAfter(defs[..n]).ids[f]
  {
    if n == |defs| {
      assert defs[..n] == defs;
      if defs != [] {
        RegistryInvariant(defs[..n - 1], n - 1);
        RegisterKeeps(RegistryAfter(defs[..n - 1]), defs[n - 1]);
      }
    } else {
      var front := defs[..|defs| - 1];
      RegistryInvariant(front, n);
      assert front[..n] == defs[..n];
      RegisterKeeps(RegistryAfter(front), defs[|defs| - 1]);
    }
  }

  lemma RegisterKeeps(r: Registry, d: KeyDef)
    requires Inverse(r)
    ensures Inverse(Register(r, d))
  {
  }

  // ---- public keys ----

  datatype PubKey = PubKey(kind: KeyType, raw: seq<byte>)

  /** The registry and the registered key parsers. A parser may accept several byte forms of a key. */
  datatype Crypto = Crypto(reg: Registry, parse: (KeyType, seq<byte>) -> Option<PubKey>)

  /** A key a running node can hold: its type is registered and its own bytes parse back to it. */
  ghost predicate KeyOk(c: Crypto, k: PubKey) { Inverse(c.reg) && KeyKnown(c, k) }

  predicate KeyKnown(c: Crypto, k: PubKey) { k.kind in c.reg.types && c.parse(k.kind, k.raw) == Some(k) }

  /** WireEncodeKey panics on an unregistered type. */
  function WireKey(c: Crypto, k: PubKey): (r: seq<byte>)
    requires k.kind in c.reg.types
    ensures |r| >= 4
  {
    LE(c.reg.types[k.kind].flag, 4) + k.raw
  }

  function ReadWireKey(c: Crypto, s: seq<byte>): Option<PubKey> {
    var f := Read32(s);
    if f.Fail? || f.value !in c.reg.ids then None
    else
      var kind := c.reg.ids[f.value];
      if kind !in c.reg.types then None else c.parse(kind, f.rest)
  }

  lemma WireKeyRoundTrip(c: Crypto, k: PubKey)
    requires KeyOk(c, k)
    ensures ReadWireKey(c, WireKey(c, k)) == Some(k)
  {
    Read32LE(c.reg.types[k.kind].flag, k.raw);
  }

  // ---- the bare key type, as KeyType.WriteTo and ReadFrom handle it ----

  function KeyTypeBytes(c: Crypto, kind: KeyType): Option<seq<byte>> {
    if kind in c.reg.types then Some(LE(c.reg.types[kind].flag, 4)) else None
  }

  function ReadKeyType(c: Crypto, s: seq<byte>): Parsed<KeyType> {
    var (flag, rest) :- Read32(s);
    if flag in c.reg.ids then Ok(c.reg.ids[flag], rest) else Fail
  }

  lemma KeyTypeRoundTrip(c: Crypto, kind: KeyType, rest: seq<byte>)
    requires Inverse(c.reg) && kind in c.reg.types
    ensures ReadKeyType(c, KeyTypeBytes(c, kind).value + rest) == Ok(kind, rest)
  {
    Read32LE(c.reg.types[kind].flag, rest);
  }
}
