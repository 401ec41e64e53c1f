/** The conditions under which the restore properties hold are exact: for every height, every set of
    dumps and every power loss outside them there is a run that breaks the property. */
module RestoreLimits {
  import opened Bytes
  import opened Keys
  import opened Blocks
  import opened Commits
  import opened Anchor
  import opened Restore

  /** A run and then another. */
  lemma {:induction false} RunThen(c: Crypto, sha: Sha, s: State, events: seq<Event>, more: seq<Event>)
    ensures RunFrom(c, sha, s, events + more) == RunFrom(c, sha, RunFrom(c, sha, s, events), more)
    decreases |events|
  {
    if events == [] {
      assert events + more == more;
    } else {
      RunThen(c, sha, Step(c, sha, s, events[0]), events[1..], more);
      assert (events + more)[1..] == events[1..] + more;
    }
  }

  /** The runs in question: the height of their snapshots, the schemas of their completed dumps, and whether
      their starts all know the hash of a genesis dump. */
  datatype Scope = Scope(h: uint64, sets: set<set<Schema>>, hashed: bool)

  predicate Fits(w: Scope, e: Event) {
    && (e.Found? ==> e.height == w.h)
    && (e.PsqlDone? ==> e.schemas in w.sets)
    && (e.Start? ==> Knows(w.hashed, e.cfg))
  }

  predicate Knows(hashed: bool, cfg: Config) { hashed ==> cfg.stateHash != [] }

  ghost predicate Within(w: Scope, events: seq<Event>) { forall i :: 0 <= i < |events| ==> Fits(w, events[i]) }

  predicate InRangeHeight(h: uint64) { 0 < h < TWO_63 }

  /** A run in scope that reaches a given state. */
  ghost predicate Reaches(c: Crypto, sha: Sha, w: Scope, events: seq<Event>, s: State) {
    Run(c, sha, events) == s && Within(w, events)
  }

  lemma Then(c: Crypto, sha: Sha, w: Scope, events: seq<Event>, s: State, e: Event, s': State)
    requires Reaches(c, sha, w, events, s)
    requires Fits(w, e)
    requires Step(c, sha, s, e) == s'
    ensures Reaches(c, sha, w, events + [e], s')
  {
    RunThen(c, sha, INITIAL, events, [e]);
    assert RunFrom(c, sha, s', [e][1..]) == s';
  }

  /** Start-up on an empty, unmarked disk gets to the choice of a restore. */
  lemma ToDecide(c: Crypto, sha: Sha, w: Scope, events: seq<Event>, s: State, cfg: Config)
      returns (es: seq<Event>)
    requires Reaches(c, sha, w, events, s)
    requires s.pc.Down? && !s.disk.marker && REQUIRED * s.disk.db.schemas == {} && Knows(w.hashed, cfg)
    ensures Reaches(c, sha, w, es, At(s, Decide(cfg)))
  {
    Then(c, sha, w, events, s, Start(cfg), At(s, CheckMarker(cfg)));
    Then(c, sha, w, events + [Start(cfg)], At(s, CheckMarker(cfg)), Go, At(s, Inspect(cfg)));
    assert "kwild_accts" in REQUIRED && "kwild_accts" !in REQUIRED * s.disk.db.schemas;
    Then(c, sha, w, events + [Start(cfg)] + [Go], At(s, Inspect(cfg)), Go, At(s, Decide(cfg)));
    es := events + [Start(cfg)] + [Go] + [Go];
  }

  /** A staged dump with the right hash gets to psql, behind a settled marker. */
  lemma ToPsql(c: Crypto, sha: Sha, w: Scope, events: seq<Event>, s: State)
      returns (es: seq<Event>)
    requires Reaches(c, sha, w, events, s) && s.pc.Stage?
    ensures Reaches(c, sha, w, es,
      State(s.disk.(marker := true, settled := true), Psql(s.pc.cfg, s.pc.job, s.disk.db.schemas), s.hist))
  {
    var staged := Staged(s.pc.job.hash);
    var s1 := At(s, MarkCreate(s.pc.cfg, s.pc.job));
    Then(c, sha, w, events, s, staged, s1);
    var s2 := Create(s1, MarkSync(s.pc.cfg, s.pc.job));
    Then(c, sha, w, events + [staged], s1, Go, s2);
    var s3 := Sync(s2, Psql(s.pc.cfg, s.pc.job, s.disk.db.schemas));
    Then(c, sha, w, events + [staged] + [Go], s2, Go, s3);
    es := events + [staged] + [Go] + [Go];
  }

  /** A genesis restore from the choice point to its durable end. */
  lemma GenesisRestore(c: Crypto, sha: Sha, w: Scope, events: seq<Event>, s: State, dump: set<Schema>)
      returns (es: seq<Event>, s': State)
    requires Reaches(c, sha, w, events, s)
    requires s.pc.TryGenesis? && s.pc.cfg.stateHash != [] && dump in w.sets && dump !! s.disk.db.schemas
    ensures Reaches(c, sha, w, es, s')
    ensures s'.pc == Running && !s'.disk.marker && s'.disk.settled
    ensures s'.disk.db.schemas == s.disk.db.schemas + dump && s'.disk.db.from == s.disk.db.from + {s.hist.next}
    ensures s'.disk.store == s.disk.store
    ensures s'.hist == s.hist.(next := s.hist.next + 1, accepted := s.hist.accepted + {s.hist.next},
                               durable := s.hist.durable + {s.hist.next})
  {
    var s1 := Begin(s, s.pc.cfg, s.pc.cfg.stateHash, GenesisDump);
    Then(c, sha, w, events, s, Go, s1);
    var es1 := ToPsql(c, sha, w, events + [Go], s1);
    var s2 := State(s1.disk.(marker := true, settled := true), Psql(s1.pc.cfg, s1.pc.job, s1.disk.db.schemas), s1.hist);
    var s3 := Finish(s2, s2.pc.cfg, s2.pc.job, dump, 0, []);
    Then(c, sha, w, es1, s2, PsqlDone(dump, 0, []), s3);
    var s4 := Remove(s3, ClearSync(s2.pc.job));
    Then(c, sha, w, es1 + [PsqlDone(dump, 0, [])], s3, Go, s4);
    s' := StepAnchor(s4);
    Then(c, sha, w, es1 + [PsqlDone(dump, 0, [])] + [Go], s4, Go, s');
    es := es1 + [PsqlDone(dump, 0, [])] + [Go] + [Go];
  }

  /** A snapshot restore up to the check of the restored state. */
  lemma ToVerify(c: Crypto, sha: Sha, w: Scope, dump: set<Schema>, stateHash: seq<byte>)
      returns (es: seq<Event>, s: State)
    requires dump in w.sets && Knows(w.hashed, Config(true, stateHash))
    ensures Reaches(c, sha, w, es, s)
    ensures s.pc.VerifyState? && s.pc.job.kind == Snapshot(w.h, ZeroHash()) && s.disk.db.last == Some(s.pc.job)
    ensures s.pc.cfg == Config(true, stateHash) && s.pc.job.id == 0 && s.disk.db.from == {0}
    ensures s.disk.marker && s.hist == History(1, {}, {}, {}, {})
    ensures s.disk.db.schemas == dump && s.disk.db.height == Signed64(w.h) && s.disk.db.appHash == ZeroHash()
  {
    var hash := ZeroHash();
    var cfg := Config(true, stateHash);
    es := ToDecide(c, sha, w, [], INITIAL, cfg);
    Then(c, sha, w, es, At(INITIAL, Decide(cfg)), Go, At(INITIAL, Discover(cfg)));
    var s1 := Begin(At(INITIAL, Discover(cfg)), cfg, hash, Snapshot(w.h, hash));
    Then(c, sha, w, es + [Go], At(INITIAL, Discover(cfg)), Found(w.h, hash, hash), s1);
    es := ToPsql(c, sha, w, es + [Go] + [Found(w.h, hash, hash)], s1);
    var s2 := State(s1.disk.(marker := true, settled := true), Psql(cfg, s1.pc.job, {}), s1.hist);
    var done := PsqlDone(dump, Signed64(w.h), hash);
    s := Finish(s2, cfg, s1.pc.job, dump, Signed64(w.h), hash);
    Then(c, sha, w, es, s2, done, s);
    es := es + [done];
  }

  /** A snapshot restore of an out-of-range height: verified, then declined, with its data left in the
      database behind the marker. */
  lemma DeclinedSnapshot(c: Crypto, sha: Sha, w: Scope, dump: set<Schema>)
      returns (es: seq<Event>, s: State)
    requires !InRangeHeight(w.h) && dump in w.sets
    ensures Reaches(c, sha, w, es, s)
    ensures s.pc == TryGenesis(Config(true, ZeroHash())) && s.disk.marker
    ensures s.disk.db.from == {0} && s.disk.db.schemas == dump && s.hist == History(1, {}, {}, {}, {})
  {
    es, s := ToVerify(c, sha, w, dump, ZeroHash());
    var s' := At(s, TryGenesis(s.pc.cfg));
    Then(c, sha, w, es, s, Go, s');
    es, s := es + [Go], s';
  }

  /** No run in scope takes unaccepted data for an initialised database. */
  ghost predicate Safe(c: Crypto, sha: Sha, w: Scope) {
    forall events :: Within(w, events) ==> Sound(Run(c, sha, events))
  }

  predicate Sound(s: State) { CountsAsInitialised(s.disk) ==> Clean(s) }

  function RuleOf(w: Scope): Rule { if InRangeHeight(w.h) then Heights else Dumps(w.sets) }

  /** What isDbInitialized answers is exact: with any other height, DoStatesync declines a snapshot it has already
      restored, and if psql accepts a genesis dump on top of it, which takes two dumps without a common schema, the
      marker is cleared. */
  lemma SafeHeights(c: Crypto, sha: Sha, w: Scope)
    ensures Safe(c, sha, w) <==> InRangeHeight(w.h) || Meet(w.sets)
  {
    if InRangeHeight(w.h) || Meet(w.sets) {
      forall events | Within(w, events) ensures Sound(Run(c, sha, events)) {
        InitialisedIsAccepted(c, RuleOf(w), sha, events);
      }
    } else {
      var a, b :| a in w.sets && b in w.sets && a * b == {};
      var es, s := BuiltOnDeclined(c, sha, w, a, b);
      assert !Sound(Run(c, sha, es));
    }
  }

  /** A genesis restore on top of a declined snapshot, and the node's own schemas on top of both. */
  lemma BuiltOnDeclined(c: Crypto, sha: Sha, w: Scope, a: set<Schema>, b: set<Schema>)
      returns (es: seq<Event>, s: State)
    requires !InRangeHeight(w.h) && a in w.sets && b in w.sets && a * b == {}
    ensures Reaches(c, sha, w, es, s) && CountsAsInitialised(s.disk) && s.pc.Running? && !Clean(s)
  {
    es, s := DeclinedSnapshot(c, sha, w, a);
    assert b !! a by {
      forall x ensures !(x in a && x in b) { assert x !in a * b; }
    }
    es, s := GenesisRestore(c, sha, w, es, s, b);
    assert 0 in s.disk.db.from && 0 !in s.hist.accepted;
    var s' := s.(disk := s.disk.(db := s.disk.db.(schemas := s.disk.db.schemas + REQUIRED)));
    Then(c, sha, w, es, s, Operate(REQUIRED), s');
    es, s := es + [Operate(REQUIRED)], s';
  }

  /** Dumps of whole databases meet. */
  lemma FullDumpsMeet(sets: set<set<Schema>>)
    requires forall d :: d in sets ==> REQUIRED <= d
    ensures Meet(sets)
  {
    forall a, b | a in sets && b in sets ensures a * b != {} {
      assert "kwild_accts" in REQUIRED && "kwild_accts" in a * b;
    }
  }

  // ---- what the node runs on ----

  predicate HasCfg(pc: Pc) {
    InitPc(pc) || pc.Decide? || pc.Discover? || pc.TryGenesis? || pc.Stage? || pc.MarkCreate? || pc.MarkSync?
    || pc.Psql? || pc.VerifyState?
  }

  /** The node runs on accepted data only; and what it was started with stays known. */
  predicate RunsClean(s: State, hashed: bool) {
    (s.pc.Running? ==> Clean(s)) && (HasCfg(s.pc) ==> Knows(hashed, s.pc.cfg))
  }

  /** Nothing unaccepted is there at the choice of a genesis dump, or there is a dump to choose. */
  predicate Guarded(m: Rule, hashed: bool) { m.Heights? || m.sets == {} || hashed }

  lemma GoRunsClean(m: Rule, sha: Sha, s: State, hashed: bool)
    requires Inv(m, sha, s) && Guarded(m, hashed) && RunsClean(s, hashed)
    ensures var s' := if InitPc(s.pc) then StepInit(s) else if ChoosePc(s.pc) then StepChoose(s) else StepAnchor(s);
      RunsClean(s', hashed)
  {
  }

  lemma StepRunsClean(c: Crypto, m: Rule, sha: Sha, s: State, e: Event, hashed: bool)
    requires Inv(m, sha, s) && Guarded(m, hashed) && RunsClean(s, hashed)
    requires e.Start? ==> Knows(hashed, e.cfg)
    ensures RunsClean(Step(c, sha, s, e), hashed)
  {
    if e.Go? { GoRunsClean(m, sha, s, hashed); }
  }

  lemma {:induction false} RunRunsClean(c: Crypto, m: Rule, sha: Sha, w: Scope, s: State, events: seq<Event>)
    requires Inv(m, sha, s) && Sensible(m) && Guarded(m, w.hashed) && RunsClean(s, w.hashed)
    requires m == RuleOf(w) && Within(w, events)
    ensures RunsClean(RunFrom(c, sha, s, events), w.hashed)
    decreases |events|
  {
    if events != [] {
      assert Fits(w, events[0]);
      StepInv(c, m, sha, s, events[0]);
      StepRunsClean(c, m, sha, s, events[0], w.hashed);
      RunRunsClean(c, m, sha, w, Step(c, sha, s, events[0]), events[1..]);
    }
  }

  /** No run in scope lets the node run on unaccepted data. */
  ghost predicate SafeToRun(c: Crypto, sha: Sha, w: Scope) {
    forall events :: Within(w, events) ==> Run(c, sha, events).pc.Running? ==> Clean(Run(c, sha, events))
  }

  /** A declined snapshot is run on exactly if there can be one, and there may be no genesis dump to choose or psql
      accepts one on top of it. */
  lemma SafeToRunIff(c: Crypto, sha: Sha, w: Scope)
    ensures SafeToRun(c, sha, w) <==> InRangeHeight(w.h) || w.sets == {} || (w.hashed && Meet(w.sets))
  {
    if InRangeHeight(w.h) || w.sets == {} || (w.hashed && Meet(w.sets)) {
      forall events | Within(w, events)
        ensures Run(c, sha, events).pc.Running? ==> Clean(Run(c, sha, events))
      {
        RunRunsClean(c, RuleOf(w), sha, w, INITIAL, events);
      }
    } else {
      var es, s := RunsOnDeclined(c, sha, w);
      assert Within(w, es) && Run(c, sha, es).pc.Running?;
    }
  }

  /** The failing runs: without a genesis hash the declined data stays and the node goes on with it. */
  lemma RunsOnDeclined(c: Crypto, sha: Sha, w: Scope) returns (es: seq<Event>, s: State)
    requires !InRangeHeight(w.h) && w.sets != {} && (w.hashed ==> !Meet(w.sets))
    ensures Reaches(c, sha, w, es, s) && s.pc.Running? && !Clean(s)
  {
    if w.hashed {
      var a, b :| a in w.sets && b in w.sets && a * b == {};
      es, s := BuiltOnDeclined(c, sha, w, a, b);
    } else {
      var a :| a in w.sets;
      es, s := ToVerify(c, sha, w, a, []);
      var s1 := At(s, TryGenesis(s.pc.cfg));
      Then(c, sha, w, es, s, Go, s1);
      Then(c, sha, w, es + [Go], s1, Go, At(s1, Running));
      es, s := es + [Go] + [Go], At(s1, Running);
      assert 0 in s.disk.db.from && 0 !in s.hist.accepted;
    }
  }

  // ---- a lost anchor ----

  function EmptyBlock(height: int64): Block {
    Block(Header(0, height, 0, ZeroHash(), ZeroHash(), ZeroHash(), ZeroHash(), 0, ZeroHash(), None), [], [])
  }

  function AnchorAnswer(c: Crypto, sha: Sha, height: int64, appHash: Hash): Event {
    Answer(BlockHash(c, sha, EmptyBlock(height)), EmptyBlock(height), Some(CommitInfo(appHash, [], map[], [])))
  }

  /** From psql to an anchor block that is about to be stored. */
  lemma ToStoreAnchor(c: Crypto, sha: Sha, w: Scope, events: seq<Event>, s: State)
      returns (es: seq<Event>, s': State)
    requires InRangeHeight(w.h) && Reaches(c, sha, w, events, s)
    requires s.pc.VerifyState? && s.pc.job.kind == Snapshot(w.h, ZeroHash())
    requires s.disk.db.height == w.h && s.disk.db.appHash == ZeroHash()
    ensures Reaches(c, sha, w, es, s')
    ensures s'.pc.StoreAnchor? && s'.pc.height == w.h && s'.disk == s.disk && s'.hist == s.hist
  {
    var hash := ZeroHash();
    var job := s.pc.job;
    var s1 := At(s, ReadAppHash(job, w.h));
    Then(c, sha, w, events, s, Go, s1);
    var s2 := At(s, FetchAnchor(job, w.h, hash));
    Then(c, sha, w, events + [Go], s1, Go, s2);
    var answer := AnchorAnswer(c, sha, w.h, hash);
    s' := At(s, StoreAnchor(job, w.h, hash, answer.blk, answer.answered.value));
    Then(c, sha, w, events + [Go] + [Go], s2, answer, s');
    es := events + [Go] + [Go] + [answer];
  }

  lemma Clearing(c: Crypto, sha: Sha, w: Scope, events: seq<Event>, s: State)
      returns (es: seq<Event>, s': State)
    requires Reaches(c, sha, w, events, s) && s.pc.StoreAnchor?
    ensures Reaches(c, sha, w, es, s')
    ensures s'.pc == Running && !s'.disk.marker && s'.disk.settled && s'.disk.db == s.disk.db
    ensures s.pc.height in s'.disk.store && s.pc.height in s'.disk.unsynced
  {
    var s1 := StepAnchor(s);
    Then(c, sha, w, events, s, Go, s1);
    var s2 := StepAnchor(s1);
    Then(c, sha, w, events + [Go], s1, Go, s2);
    s' := StepAnchor(s2);
    Then(c, sha, w, events + [Go] + [Go], s2, Go, s');
    es := events + [Go] + [Go] + [Go];
  }

  /** For every height in range: a power loss right after the restore is durably accepted leaves an
      initialised database without its anchor, as nothing syncs the block store before. */
  lemma LostAnchor(c: Crypto, sha: Sha, w: Scope, dump: set<Schema>) returns (es: seq<Event>, s: State)
    requires InRangeHeight(w.h) && dump in w.sets && REQUIRED <= dump
    ensures Reaches(c, sha, w, es, s)
    ensures CountsAsInitialised(s.disk) && SetBySnapshot(s.disk) && !Anchored(sha, s.disk)
  {
    es, s := ToVerify(c, sha, w, dump, ZeroHash());
    es, s := ToStoreAnchor(c, sha, w, es, s);
    es, s := Clearing(c, sha, w, es, s);
    var s' := LosePower(s, false, {});
    Then(c, sha, w, es, s, PowerLoss(false, {}), s');
    es, s := es + [PowerLoss(false, {})], s';
  }

  /** No run in scope ever drops a durably accepted restore. */
  ghost predicate SafeSchemas(c: Crypto, sha: Sha, w: Scope) {
    forall events :: Within(w, events) ==> Run(c, sha, events).hist.durable !! Run(c, sha, events).hist.wiped
  }

  /** A restore accepted without every required schema is dropped at the next start: at once if some
      are there, and after the next failed restore if none is. */
  lemma DroppedLater(c: Crypto, sha: Sha, w: Scope, dump: set<Schema>) returns (es: seq<Event>, s: State)
    requires dump in w.sets && !(REQUIRED <= dump)
    ensures Reaches(c, sha, w, es, s) && 0 in s.hist.durable && 0 in s.hist.wiped
  {
    var cfg := Config(false, ZeroHash());
    es := ToDecide(c, sha, w, [], INITIAL, cfg);
    var s0 := At(INITIAL, TryGenesis(cfg));
    Then(c, sha, w, es, At(INITIAL, Decide(cfg)), Go, s0);
    es, s := GenesisRestore(c, sha, w, es + [Go], s0, dump);
    Then(c, sha, w, es, s, Kill, At(s, Down));
    es, s := es + [Kill], At(s, Down);
    if REQUIRED * dump == {} {
      es, s := DroppedAfterFailure(c, sha, w, es, s, cfg);
    } else {
      es, s := DroppedAtStart(c, sha, w, es, s, cfg);
    }
  }

  lemma DroppedAtStart(c: Crypto, sha: Sha, w: Scope, events: seq<Event>, s: State, cfg: Config)
      returns (es: seq<Event>, s': State)
    requires Reaches(c, sha, w, events, s) && s.pc.Down? && !s.disk.marker
    requires !(REQUIRED <= s.disk.db.schemas) && REQUIRED * s.disk.db.schemas != {} && Knows(w.hashed, cfg)
    ensures Reaches(c, sha, w, es, s')
    ensures s'.hist == s.hist.(wiped := s.hist.wiped + s.disk.db.from)
  {
    Then(c, sha, w, events, s, Start(cfg), At(s, CheckMarker(cfg)));
    Then(c, sha, w, events + [Start(cfg)], At(s, CheckMarker(cfg)), Go, At(s, Inspect(cfg)));
    Then(c, sha, w, events + [Start(cfg)] + [Go], At(s, Inspect(cfg)), Go, At(s, DropLeftover(cfg)));
    s' := Drop(s, Decide(cfg));
    Then(c, sha, w, events + [Start(cfg)] + [Go] + [Go], At(s, DropLeftover(cfg)), Go, s');
    es := events + [Start(cfg)] + [Go] + [Go] + [Go];
  }

  lemma DroppedAfterFailure(c: Crypto, sha: Sha, w: Scope, events: seq<Event>, s: State, cfg: Config)
      returns (es: seq<Event>, s': State)
    requires Reaches(c, sha, w, events, s) && s.pc.Down? && !s.disk.marker
    requires REQUIRED * s.disk.db.schemas == {} && !cfg.stateSync && cfg.stateHash != []
    ensures Reaches(c, sha, w, es, s')
    ensures s'.hist.durable == s.hist.durable && s'.hist.wiped == s.hist.wiped + s.disk.db.from
  {
    es := ToDecide(c, sha, w, events, s, cfg);
    Then(c, sha, w, es, At(s, Decide(cfg)), Go, At(s, TryGenesis(cfg)));
    var s1 := Begin(s, cfg, cfg.stateHash, GenesisDump);
    Then(c, sha, w, es + [Go], At(s, TryGenesis(cfg)), Go, s1);
    es := ToPsql(c, sha, w, es + [Go] + [Go], s1);
    var s2 := State(s1.disk.(marker := true, settled := true), Psql(cfg, s1.pc.job, s1.disk.db.schemas), s1.hist);
    Then(c, sha, w, es, s2, Error, At(s2, DropFailed));
    s' := Drop(s2, Down);
    Then(c, sha, w, es + [Error], At(s2, DropFailed), Go, s');
    es := es + [Error] + [Go];
  }

  /** The schema condition is exact. */
  lemma SafeSchemaSets(c: Crypto, sha: Sha, w: Scope)
    ensures SafeSchemas(c, sha, w) <==> forall dump :: dump in w.sets ==> REQUIRED <= dump
  {
    if dump :| dump in w.sets && !(REQUIRED <= dump) {
      var es, s := DroppedLater(c, sha, w, dump);
      assert Within(w, es) && Run(c, sha, es) == s;
    } else {
      forall events | Within(w, events)
        ensures Run(c, sha, events).hist.durable !! Run(c, sha, events).hist.wiped
      {
        DurableIsKept(c, sha, events);
      }
    }
  }
}
