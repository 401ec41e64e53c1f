/** What a block in the store means for later runs: a synced block stays for ever, and while any block
    is there DoStatesync does not look for a snapshot. */
module RestoreStore {
  import opened Bytes
  import opened Keys
  import opened Blocks
  import opened Commits
  import opened Anchor
  import opened Restore
  import opened RestoreLimits

  /** A snapshot restore is under way, up to the storing of its anchor block. */
  predicate UnderWay(pc: Pc) {
    || pc.Discover? || pc.VerifyState? || pc.ReadAppHash? || pc.FetchAnchor? || pc.StoreAnchor?
    || ((pc.Stage? || pc.MarkCreate? || pc.MarkSync? || pc.Psql?) && pc.job.kind.Snapshot?)
  }

  /** Snapshot restores are for an empty store. */
  predicate EmptyUnderWay(s: State) { UnderWay(s.pc) ==> s.disk.store == map[] }

  lemma StepUnderWay(c: Crypto, sha: Sha, s: State, e: Event)
    requires EmptyUnderWay(s)
    ensures EmptyUnderWay(Step(c, sha, s, e))
  {
  }

  lemma {:induction false} RunUnderWay(c: Crypto, sha: Sha, s: State, events: seq<Event>)
    requires EmptyUnderWay(s)
    ensures EmptyUnderWay(RunFrom(c, sha, s, events))
    decreases |events|
  {
    if events != [] {
      StepUnderWay(c, sha, s, events[0]);
      RunUnderWay(c, sha, Step(c, sha, s, events[0]), events[1..]);
    }
  }

  // ---- a block that stays ----

  /** The block at a height is there, synced or not, and no snapshot restore is under way. */
  predicate Holds(s: State, height: int64, b: (Block, CommitInfo)) {
    height in s.disk.store && s.disk.store[height] == b && !UnderWay(s.pc)
  }

  /** The event does not take the block. */
  predicate Spares(s: State, e: Event, height: int64) { e.PowerLoss? ==> height !in Taken(s.disk, e.kept) }

  lemma StepHolds(c: Crypto, sha: Sha, s: State, e: Event, height: int64, b: (Block, CommitInfo))
    requires Holds(s, height, b) && Spares(s, e, height)
    ensures Holds(Step(c, sha, s, e), height, b)
    ensures height !in s.disk.unsynced ==> height !in Step(c, sha, s, e).disk.unsynced
  {
  }

  /** No data of another snapshot has come in between. */
  predicate SameSnapshot(d: Disk, d': Disk) {
    SetBySnapshot(d') ==> SetBySnapshot(d) && d'.db.height == d.db.height && d'.db.appHash == d.db.appHash
  }

  lemma StepSameSnapshot(c: Crypto, sha: Sha, s: State, e: Event)
    requires !UnderWay(s.pc)
    ensures SameSnapshot(s.disk, Step(c, sha, s, e).disk)
  {
  }

  lemma {:induction false} RunHolds(
      c: Crypto, sha: Sha, s: State, events: seq<Event>, height: int64, b: (Block, CommitInfo))
    requires Holds(s, height, b)
    requires height !in s.disk.unsynced || forall i :: 0 <= i < |events| ==> !events[i].PowerLoss?
    ensures Holds(RunFrom(c, sha, s, events), height, b)
    ensures SameSnapshot(s.disk, RunFrom(c, sha, s, events).disk)
    decreases |events|
  {
    if events != [] {
      StepHolds(c, sha, s, events[0], height, b);
      StepSameSnapshot(c, sha, s, events[0]);
      RunHolds(c, sha, Step(c, sha, s, events[0]), events[1..], height, b);
    }
  }

  /** Every continuation has this block in its store. */
  ghost predicate Stays(c: Crypto, sha: Sha, s: State, height: int64, b: (Block, CommitInfo)) {
    forall more :: (var d := RunFrom(c, sha, s, more).disk; height in d.store && d.store[height] == b)
  }

  /** In the state after any run, a stored block stays in every continuation exactly if it is synced. */
  lemma StaysIff(c: Crypto, sha: Sha, events: seq<Event>, height: int64)
    requires height in Run(c, sha, events).disk.store
    ensures var s := Run(c, sha, events);
      Stays(c, sha, s, height, s.disk.store[height]) <==> height !in s.disk.unsynced
  {
    var s := Run(c, sha, events);
    RunUnderWay(c, sha, INITIAL, events);
    if height !in s.disk.unsynced {
      forall more ensures (var d := RunFrom(c, sha, s, more).disk;
        height in d.store && d.store[height] == s.disk.store[height])
      {
        RunHolds(c, sha, s, more, height, s.disk.store[height]);
      }
    } else {
      OneLoss(c, sha, s, false);
      assert height !in RunFrom(c, sha, s, [PowerLoss(false, {})]).disk.store;
    }
  }

  lemma OneLoss(c: Crypto, sha: Sha, s: State, left: bool)
    ensures RunFrom(c, sha, s, [PowerLoss(left, {})]) == LosePower(s, left, {})
  {
    assert RunFrom(c, sha, LosePower(s, left, {}), [PowerLoss(left, {})][1..]) == LosePower(s, left, {});
  }

  // ---- the anchor of an initialised database ----

  /** An initialised database of a snapshot has its anchor. */
  predicate HasAnchor(sha: Sha, d: Disk) { CountsAsInitialised(d) && SetBySnapshot(d) ==> Anchored(sha, d) }

  /** No continuation shows an initialised database of a snapshot without its anchor. */
  ghost predicate AnchorStays(c: Crypto, sha: Sha, s: State) {
    forall more :: HasAnchor(sha, RunFrom(c, sha, s, more).disk)
  }

  /** After any run under either rule: the anchor of an initialised database stays, whatever happens next, exactly if
      the block at the database's height is in the store and synced. */
  lemma AnchorStaysIff(c: Crypto, m: Rule, sha: Sha, events: seq<Event>)
    requires Sensible(m) && forall i :: 0 <= i < |events| ==> Follows(m, events[i])
    requires var d := Run(c, sha, events).disk; CountsAsInitialised(d) && SetBySnapshot(d)
    ensures var s := Run(c, sha, events);
      AnchorStays(c, sha, s) <==> s.disk.db.height in s.disk.store && s.disk.db.height !in s.disk.unsynced
  {
    var s := Run(c, sha, events);
    var height := s.disk.db.height;
    if height !in s.disk.store {
      assert !HasAnchor(sha, RunFrom(c, sha, s, []).disk);
    } else if height in s.disk.unsynced {
      OneLoss(c, sha, s, false);
      assert !HasAnchor(sha, RunFrom(c, sha, s, [PowerLoss(false, {})]).disk);
    } else {
      InitialisedIsAnchored(c, m, sha, events);
      RunInv(c, m, sha, INITIAL, events);
      RunUnderWay(c, sha, INITIAL, events);
      forall more ensures HasAnchor(sha, RunFrom(c, sha, s, more).disk) {
        RunHolds(c, sha, s, more, height, s.disk.store[height]);
      }
    }
  }

  // ---- state sync after an unfinished restore ----

  /** A start on a marked disk drops the database, clears the marker for good, and looks for a snapshot exactly if
      state sync is on and the store is empty. */
  lemma StartMarked(c: Crypto, sha: Sha, s: State, cfg: Config)
    requires s.pc.Down? && s.disk.marker
    ensures var s' := RunFrom(c, sha, s, [Start(cfg), Go, Go, Go, Go, Go]);
      && s'.disk == s.disk.(marker := false, settled := true, db := EMPTY_DB)
      && s'.pc == if cfg.stateSync && s.disk.store == map[] then Discover(cfg) else TryGenesis(cfg)
  {
    var s1 := At(s, DropMarked(cfg));
    Two(c, sha, s, Start(cfg), Go, [Go, Go, Go, Go]);
    Two(c, sha, s1, Go, Go, [Go, Go]);
    Two(c, sha, Remove(Drop(s1, UnmarkRemove(cfg)), UnmarkSync(cfg)), Go, Go, []);
  }

  lemma Two(c: Crypto, sha: Sha, s: State, e1: Event, e2: Event, rest: seq<Event>)
    ensures RunFrom(c, sha, s, [e1, e2] + rest) == RunFrom(c, sha, Step(c, sha, Step(c, sha, s, e1), e2), rest)
  {
    assert ([e1, e2] + rest)[1..] == [e2] + rest;
    assert ([e2] + rest)[1..] == rest;
  }

  /** Some continuation gets to the search for a snapshot. */
  ghost predicate CanSync(c: Crypto, sha: Sha, s: State) {
    exists more :: RunFrom(c, sha, s, more).pc.Discover?
  }

  /** After any run that leaves the marker, state sync can come about again exactly if no block in the store is
      synced: until a power loss takes the stored block, every start falls back to the genesis dump. */
  lemma CanSyncIff(c: Crypto, sha: Sha, events: seq<Event>)
    requires Run(c, sha, events).disk.marker
    ensures var s := Run(c, sha, events);
      CanSync(c, sha, s) <==> s.disk.store.Keys <= s.disk.unsynced
  {
    var s := Run(c, sha, events);
    if s.disk.store.Keys <= s.disk.unsynced {
      SyncsAgain(c, sha, s);
    } else {
      var height :| height in s.disk.store.Keys && height !in s.disk.unsynced;
      RunUnderWay(c, sha, INITIAL, events);
      forall more ensures !RunFrom(c, sha, s, more).pc.Discover? {
        RunHolds(c, sha, s, more, height, s.disk.store[height]);
      }
    }
  }

  lemma SyncsAgain(c: Crypto, sha: Sha, s: State)
    requires s.disk.marker && s.disk.store.Keys <= s.disk.unsynced
    ensures CanSync(c, sha, s)
  {
    var starts := [Start(Config(true, [])), Go, Go, Go, Go, Go];
    var s' := LosePower(s, true, {});
    StartMarked(c, sha, s', Config(true, []));
    OneLoss(c, sha, s, true);
    RunThen(c, sha, s, [PowerLoss(true, {})], starts);
  }

  /** Without a power loss, a block in the store keeps the node from ever looking for a snapshot. */
  lemma NoSyncWithBlock(c: Crypto, sha: Sha, events: seq<Event>, more: seq<Event>)
    requires Run(c, sha, events).disk.store != map[]
    requires forall i :: 0 <= i < |more| ==> !more[i].PowerLoss?
    ensures !UnderWay(RunFrom(c, sha, Run(c, sha, events), more).pc)
  {
    var s := Run(c, sha, events);
    RunUnderWay(c, sha, INITIAL, events);
    assert s.disk.store.Keys != {};
    var height :| height in s.disk.store.Keys;
    RunHolds(c, sha, s, more, height, s.disk.store[height]);
  }

  /** For every height in range: a crash after the anchor is stored and before the marker is removed. The next start
      drops the restored database and does not sync again: the node runs on an empty database, with the anchor in the
      store and no marker left. */
  lemma Stranded(c: Crypto, sha: Sha, w: Scope, dump: set<Schema>) returns (es: seq<Event>, s: State)
    requires InRangeHeight(w.h) && dump in w.sets && !w.hashed
    ensures Reaches(c, sha, w, es, s)
    ensures s.pc.Running? && s.disk.db == EMPTY_DB && w.h in s.disk.store && !s.disk.marker && s.disk.settled
  {
    var cfg := Config(true, []);
    es, s := ToVerify(c, sha, w, dump, []);
    es, s := ToStoreAnchor(c, sha, w, es, s);
    var s1 := StepAnchor(s);
    Then(c, sha, w, es, s, Go, s1);
    Then(c, sha, w, es + [Go], s1, Kill, At(s1, Down));
    assert w.h in At(s1, Down).disk.store;
    es, s := FallsBack(c, sha, w, es + [Go] + [Kill], At(s1, Down), cfg);
  }

  /** A start on a marked disk with a block in the store and without a genesis dump. */
  lemma FallsBack(c: Crypto, sha: Sha, w: Scope, events: seq<Event>, s: State, cfg: Config)
      returns (es: seq<Event>, s': State)
    requires Reaches(c, sha, w, events, s) && !w.hashed
    requires s.pc.Down? && s.disk.marker && s.disk.store != map[] && cfg.stateHash == []
    ensures Reaches(c, sha, w, es, s')
    ensures s'.pc.Running? && s'.disk == s.disk.(marker := false, settled := true, db := EMPTY_DB)
  {
    var starts := [Start(cfg), Go, Go, Go, Go, Go];
    StartMarked(c, sha, s, cfg);
    RunThen(c, sha, INITIAL, events, starts);
    var s1 := RunFrom(c, sha, s, starts);
    s' := At(s1, Running);
    Then(c, sha, w, events + starts, s1, Go, s');
    es := events + starts + [Go];
  }
}
