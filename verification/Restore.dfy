/** Crash-safe database restore: the start-up sequence of app/node/build.go together with the restore
    of node/statesyncer.go and the anchoring of node/statesync.go, one step per effect. The disk
    outlives the process; the process may stop between any two steps, with or without power loss. */
module Restore {
  import opened Bytes
  import opened Keys
  import opened Blocks
  import opened Commits
  import opened Anchor

  type Schema = string

  const REQUIRED: set<Schema> := {"kwild_voting", "kwild_internal", "kwild_accts"}

  /** What the database holds. `from` are the restores whose data is in it, whole or in part; `last`
      is the last one that psql ran to the end, which set the chain state. */
  datatype Db = Db(schemas: set<Schema>, from: set<nat>, last: Option<Job>, height: int64, appHash: seq<byte>)

  const EMPTY_DB := Db({}, {}, None, 0, [])

  /** A restore: of the genesis dump, or of a snapshot that a trusted provider vouched for. */
  datatype Job = Job(id: nat, hash: seq<byte>, kind: JobKind)
  datatype JobKind = GenesisDump | Snapshot(height: uint64, appHash: seq<byte>)

  /** `marker` is the restore-incomplete file as the process sees it; while not `settled`, power loss
      may undo the last change to it. Blocks at the heights in `unsynced` were put in the store since
      it was last synced: they survive the process and not a power loss. */
  datatype Disk = Disk(
    marker: bool, settled: bool, db: Db, store: map<int64, (Block, CommitInfo)>, unsynced: set<int64>)

  /** Whether state sync is on, and the hash of the genesis dump; an empty hash is none. */
  datatype Config = Config(stateSync: bool, stateHash: seq<byte>)

  /** Where the process is. */
  datatype Pc =
    | Down
    | CheckMarker(cfg: Config)
    | DropMarked(cfg: Config)
    | UnmarkRemove(cfg: Config)
    | UnmarkSync(cfg: Config)
    | Inspect(cfg: Config)
    | DropLeftover(cfg: Config)
    | Decide(cfg: Config)
    | Discover(cfg: Config)
    | TryGenesis(cfg: Config)
    | Stage(cfg: Config, job: Job)
    | MarkCreate(cfg: Config, job: Job)
    | MarkSync(cfg: Config, job: Job)
    | Psql(cfg: Config, job: Job, before: set<Schema>)  // the schemas there before psql was started
    | DropFailed
    | VerifyState(cfg: Config, job: Job)
    | ReadAppHash(job: Job, height: int64)
    | FetchAnchor(job: Job, height: int64, appHash: Hash)
    | StoreAnchor(job: Job, height: int64, appHash: Hash, blk: Block, ci: CommitInfo)
    | ClearRemove(job: Job)
    | ClearSync(job: Job)
    | Running

  /** History kept for stating properties: the next restore's number, the restores accepted, those
      whose marker removal is durable, and those whose data was ever dropped; and the heights whose
      block a power loss took and nobody stored again. */
  datatype History = History(next: nat, accepted: set<nat>, durable: set<nat>, wiped: set<nat>, lost: set<int64>)

  datatype State = State(disk: Disk, pc: Pc, hist: History)

  const INITIAL := State(Disk(false, true, EMPTY_DB, map[], {}), Down, History(0, {}, {}, {}, {}))

  datatype Event =
    | Start(cfg: Config)
    | Go
    | Error
    | NoSnapshot
    | Found(height: uint64, hash: seq<byte>, appHash: seq<byte>)
    | Staged(hash: seq<byte>)
    | PsqlSome(schemas: set<Schema>)
    | PsqlDone(schemas: set<Schema>, at: int64, appHash: seq<byte>)
    | Answer(blkHash: Hash, blk: Block, answered: Option<CommitInfo>)
    | Operate(schemas: set<Schema>)
    | Commit(at: int64, blk: Block, ci: CommitInfo)
    | SyncStore
    | Kill
    | PowerLoss(markerLeft: bool, kept: set<int64>)

  // ---- effects ----

  function At(s: State, pc: Pc): State { s.(pc := pc) }

  /** DropRestoreSchemas: one transaction, everything or nothing. */
  function Drop(s: State, pc: Pc): State {
    State(s.disk.(db := EMPTY_DB), pc, s.hist.(wiped := s.hist.wiped + s.disk.db.from))
  }

  /** Removing the marker file, if it is there; the directory is not synced yet. */
  function Remove(s: State, pc: Pc): State {
    if s.disk.marker then State(s.disk.(marker := false, settled := false), pc, s.hist) else At(s, pc)
  }

  /** Creating the marker file, if it is not there. */
  function Create(s: State, pc: Pc): State {
    if s.disk.marker then At(s, pc) else State(s.disk.(marker := true, settled := false), pc, s.hist)
  }

  function Sync(s: State, pc: Pc): State { State(s.disk.(settled := true), pc, s.hist) }

  function Begin(s: State, cfg: Config, hash: seq<byte>, kind: JobKind): State {
    State(s.disk, Stage(cfg, Job(s.hist.next, hash, kind)), s.hist.(next := s.hist.next + 1))
  }

  function Accept(s: State, id: nat, pc: Pc): State {
    State(s.disk, pc, s.hist.(accepted := s.hist.accepted + {id}))
  }

  /** blockStore.Store: the store is not synced. */
  function Put(s: State, height: int64, blk: Block, ci: CommitInfo): State {
    State(s.disk.(store := s.disk.store[height := (blk, ci)], unsynced := s.disk.unsynced + {height}), s.pc,
          s.hist.(lost := s.hist.lost - {height}))
  }

  /** The heights whose block a power loss takes, when those at `kept` got to the disk by themselves. */
  function Taken(d: Disk, kept: set<int64>): set<int64> { (d.unsynced - kept) * d.store.Keys }

  /** A power loss: an unsettled marker change may be undone, and unsynced blocks may be gone. */
  function LosePower(s: State, left: bool, kept: set<int64>): State {
    var taken := Taken(s.disk, kept);
    State(Disk(if s.disk.settled then s.disk.marker else left, true, s.disk.db, s.disk.store - taken, {}), Down,
          s.hist.(lost := s.hist.lost + taken))
  }

  function Load(s: State, job: Job, schemas: set<Schema>): State {
    s.(disk := s.disk.(db := s.disk.db.(schemas := s.disk.db.schemas + schemas, from := s.disk.db.from + {job.id})))
  }

  // ---- isDbInitialized ----

  /** What isDbInitialized answers true on. */
  predicate CountsAsInitialised(d: Disk) { !d.marker && REQUIRED <= d.db.schemas }

  function StepInit(s: State): State {
    match s.pc
    case CheckMarker(cfg) => At(s, if s.disk.marker then DropMarked(cfg) else Inspect(cfg))
    case DropMarked(cfg) => Drop(s, UnmarkRemove(cfg))
    case UnmarkRemove(cfg) => Remove(s, UnmarkSync(cfg))
    case UnmarkSync(cfg) => Sync(s, Decide(cfg))
    case Inspect(cfg) =>
      At(s, if REQUIRED <= s.disk.db.schemas then Running
            else if REQUIRED * s.disk.db.schemas != {} then DropLeftover(cfg)
            else Decide(cfg))
    case DropLeftover(cfg) => Drop(s, Decide(cfg))
    case _ => s
  }

  // ---- choosing and running a restore ----

  function StepChoose(s: State): State {
    match s.pc
    case Decide(cfg) => At(s, if cfg.stateSync && s.disk.store == map[] then Discover(cfg) else TryGenesis(cfg))
    case TryGenesis(cfg) => if cfg.stateHash == [] then At(s, Running) else Begin(s, cfg, cfg.stateHash, GenesisDump)
    case MarkCreate(cfg, job) => Create(s, MarkSync(cfg, job))
    case MarkSync(cfg, job) => Sync(s, Psql(cfg, job, s.disk.db.schemas))
    case DropFailed => Drop(s, Down)
    case _ => s
  }

  function Finish(s: State, cfg: Config, job: Job, schemas: set<Schema>, height: int64, appHash: seq<byte>): State {
    var s1 := Load(s, job, schemas);
    var s2 := s1.(disk := s1.disk.(db := s1.disk.db.(last := Some(job), height := height, appHash := appHash)));
    if job.kind.GenesisDump? then Accept(s2, job.id, ClearRemove(job)) else At(s2, VerifyState(cfg, job))
  }

  // ---- after psql ----

  function StepAnchor(s: State): State {
    match s.pc
    case VerifyState(cfg, job) =>
      if !(job.kind.Snapshot? && Bits64(s.disk.db.height) == job.kind.height
           && s.disk.db.appHash == job.kind.appHash) then
        At(s, DropFailed)
      else if Signed64(job.kind.height) <= 0 then At(s, TryGenesis(cfg))
      else At(s, ReadAppHash(job, Signed64(job.kind.height)))
    case ReadAppHash(job, height) =>
      if s.disk.db.height == height && |s.disk.db.appHash| == HASH_LEN then
        At(s, FetchAnchor(job, height, s.disk.db.appHash))
      else At(s, Down)
    case StoreAnchor(job, height, appHash, blk, ci) =>
      Accept(Put(s, height, blk, ci), job.id, ClearRemove(job))
    case ClearRemove(job) => Remove(s, ClearSync(job))
    case ClearSync(job) =>
      var s' := Sync(s, Running);
      s'.(hist := s'.hist.(durable := s'.hist.durable + {job.id}))
    case _ => s
  }

  /** One event. An event that does not fit where the process is has no effect. */
  function Step(c: Crypto, sha: Sha, s: State, e: Event): State {
    match e
    case Start(cfg) => if s.pc.Down? then At(s, CheckMarker(cfg)) else s
    case Go => if InitPc(s.pc) then StepInit(s) else if ChoosePc(s.pc) then StepChoose(s) else StepAnchor(s)
    case Error =>
      if s.pc.Psql? || s.pc.VerifyState? then At(s, DropFailed)
      else if s.pc.Running? then s
      else At(s, Down)
    case NoSnapshot => if s.pc.Discover? then At(s, TryGenesis(s.pc.cfg)) else s
    case Found(height, hash, appHash) =>
      if s.pc.Discover? then Begin(s, s.pc.cfg, hash, Snapshot(height, appHash)) else s
    case Staged(hash) =>
      if s.pc.Stage? then At(s, if hash == s.pc.job.hash then MarkCreate(s.pc.cfg, s.pc.job) else Down) else s
    case PsqlSome(schemas) => if s.pc.Psql? then Load(s, s.pc.job, schemas) else s
    case PsqlDone(schemas, height, appHash) =>
      // A plain dump creates its schemas, so psql stops at one that is there.
      if s.pc.Psql? && schemas !! s.pc.before then Finish(s, s.pc.cfg, s.pc.job, schemas, height, appHash) else s
    case Answer(hash, blk, ci) =>
      if s.pc.FetchAnchor? && Encodable(c, blk.header)
         && VerifyAnchor(c, sha, s.pc.height, s.pc.appHash, hash, blk, ci)
      then At(s, StoreAnchor(s.pc.job, s.pc.height, s.pc.appHash, blk, ci.value)) else s
    case Operate(schemas) =>
      if s.pc.Running? then s.(disk := s.disk.(db := s.disk.db.(schemas := s.disk.db.schemas + schemas))) else s
    case Commit(height, blk, ci) =>
      // Consensus goes on from the restored height.
      if s.pc.Running? && s.disk.db.height < height && height !in s.disk.store then Put(s, height, blk, ci) else s
    case SyncStore => if s.pc.Running? then s.(disk := s.disk.(unsynced := {})) else s
    case Kill => At(s, Down)
    case PowerLoss(left, kept) => LosePower(s, left, kept)
  }

  predicate InitPc(pc: Pc) {
    pc.CheckMarker? || pc.DropMarked? || pc.UnmarkRemove? || pc.UnmarkSync? || pc.Inspect? || pc.DropLeftover?
  }

  predicate ChoosePc(pc: Pc) {
    pc.Decide? || pc.TryGenesis? || pc.MarkCreate? || pc.MarkSync? || pc.DropFailed?
  }

  /** The state after a run of events: starts, steps, errors and crashes in any order. */
  function RunFrom(c: Crypto, sha: Sha, s: State, events: seq<Event>): State
    decreases |events|
  {
    if events == [] then s else RunFrom(c, sha, Step(c, sha, s, events[0]), events[1..])
  }

  function Run(c: Crypto, sha: Sha, events: seq<Event>): State { RunFrom(c, sha, INITIAL, events) }

  // ---- the invariant ----

  /** Only accepted restores have data in the database. */
  predicate Clean(s: State) { s.disk.db.from <= s.hist.accepted }

  /** The marker is there and a power loss will not undo it. */
  predicate Marked(s: State) { s.disk.marker && s.disk.settled }

  /** What keeps a declined snapshot from being built on: its height is one DoStatesync goes on with,
      or the completed dumps are among `sets`, any two of which share a schema. */
  datatype Rule = Heights | Dumps(sets: set<set<Schema>>)

  ghost predicate Meet(sets: set<set<Schema>>) { forall a, b :: a in sets && b in sets ==> a * b != {} }

  ghost predicate Sensible(m: Rule) { m.Dumps? ==> Meet(m.sets) }

  predicate InRange(e: Event) { e.Found? ==> 0 < e.height < TWO_63 }

  predicate Follows(m: Rule, e: Event) { if m.Heights? then InRange(e) else e.PsqlDone? ==> e.schemas in m.sets }

  predicate HeightInRange(kind: JobKind) { kind.Snapshot? ==> 0 < kind.height < TWO_63 }

  /** A whole dump of the rule is in these schemas. */
  ghost predicate HasDump(m: Rule, schemas: set<Schema>) { m.Dumps? && exists d :: d in m.sets && d <= schemas }

  /** Data of a declined snapshot may be there, behind the marker and with all its schemas. */
  ghost predicate Tainted(m: Rule, s: State) { Marked(s) && HasDump(m, s.disk.db.schemas) }

  /** A job under way: not accepted yet. */
  predicate Open(m: Rule, s: State, job: Job) {
    job.id < s.hist.next && job.id !in s.hist.accepted && (m.Heights? ==> HeightInRange(job.kind))
  }

  /** A job that psql has loaded data for, behind the marker. */
  predicate Loading(m: Rule, s: State, job: Job) {
    Open(m, s, job) && Marked(s) && s.disk.db.from <= s.hist.accepted + {job.id}
  }

  predicate Loaded(m: Rule, s: State, job: Job) {
    Loading(m, s, job) && s.disk.db.last == Some(job) && job.kind.Snapshot?
  }

  /** A block whose transactions match its header, at its height, committed to the app hash. */
  predicate IsAnchor(sha: Sha, blk: Block, ci: CommitInfo, height: int64, appHash: seq<byte>) {
    blk.header.height == height && TxnsMatch(sha, blk) && ci.appHash == appHash
  }

  predicate Anchored(sha: Sha, d: Disk) {
    && d.db.height in d.store
    && IsAnchor(sha, d.store[d.db.height].0, d.store[d.db.height].1, d.db.height, d.db.appHash)
  }

  ghost predicate PcInv(m: Rule, sha: Sha, s: State) {
    match s.pc
    case UnmarkRemove(_) => s.disk.db.from == {}
    case UnmarkSync(_) => s.disk.db.from == {}
    case Inspect(_) => !s.disk.marker
    case DropLeftover(_) => !s.disk.marker
    case Decide(_) => Clean(s)
    case Discover(_) => Clean(s)
    case TryGenesis(_) => Clean(s) || Tainted(m, s)
    case Stage(_, job) => Open(m, s, job) && (Clean(s) || Tainted(m, s))
    case MarkCreate(_, job) => Open(m, s, job) && (Clean(s) || Tainted(m, s))
    case MarkSync(_, job) => Open(m, s, job) && (Clean(s) || Tainted(m, s)) && s.disk.marker
    case Psql(_, job, before) => Loading(m, s, job) || (Open(m, s, job) && Marked(s) && HasDump(m, before))
    case VerifyState(_, job) => Loaded(m, s, job) && (m.Dumps? ==> HasDump(m, s.disk.db.schemas))
    case ReadAppHash(job, _) => Loaded(m, s, job)
    case FetchAnchor(job, height, appHash) =>
      Loaded(m, s, job) && s.disk.db.height == height && s.disk.db.appHash == appHash
    case StoreAnchor(job, height, appHash, blk, ci) =>
      && Loaded(m, s, job) && s.disk.db.height == height && s.disk.db.appHash == appHash
      && IsAnchor(sha, blk, ci, height, appHash)
    case ClearRemove(job) => Clean(s) && job.id in s.hist.accepted
    case ClearSync(job) => Clean(s) && job.id in s.hist.accepted
    case _ => true
  }

  /** The data was last set by an accepted snapshot. */
  predicate FromSnapshot(s: State) {
    && s.disk.db.last.Some?
    && s.disk.db.last.value.kind.Snapshot?
    && s.disk.db.last.value.id in s.hist.accepted
  }

  ghost predicate Inv(m: Rule, sha: Sha, s: State) {
    && (Clean(s) || Marked(s))
    && PcInv(m, sha, s)
    && (forall id :: id in s.hist.accepted ==> id < s.hist.next)
    && (s.disk.db.last.Some? ==> s.disk.db.last.value.id in s.disk.db.from)
    && s.hist.lost !! s.disk.store.Keys
    && (FromSnapshot(s) && s.disk.db.height !in s.hist.lost ==> Anchored(sha, s.disk))
  }

  lemma InitInv(m: Rule, sha: Sha, s: State)
    requires Inv(m, sha, s) && InitPc(s.pc)
    ensures Inv(m, sha, StepInit(s))
  {
  }

  lemma ChooseInv(m: Rule, sha: Sha, s: State)
    requires Inv(m, sha, s) && ChoosePc(s.pc)
    ensures Inv(m, sha, StepChoose(s))
  {
  }

  lemma StoreInv(m: Rule, sha: Sha, s: State)
    requires Inv(m, sha, s) && s.pc.StoreAnchor?
    ensures Inv(m, sha, StepAnchor(s))
  {
  }

  lemma VerifyInv(m: Rule, sha: Sha, s: State)
    requires Inv(m, sha, s) && s.pc.VerifyState?
    ensures Inv(m, sha, StepAnchor(s))
  {
  }

  lemma AnchorInv(m: Rule, sha: Sha, s: State)
    requires Inv(m, sha, s) && !s.pc.StoreAnchor? && !s.pc.VerifyState?
    ensures Inv(m, sha, StepAnchor(s))
  {
  }

  lemma RunningInv(c: Crypto, m: Rule, sha: Sha, s: State, e: Event)
    requires Inv(m, sha, s) && (e.Operate? || e.Commit? || e.SyncStore? || e.Kill? || e.Error?)
    ensures Inv(m, sha, Step(c, sha, s, e))
  {
  }

  /** A verified answer is an anchor; nothing but the place of the process changes. */
  lemma AnswerMoves(m: Rule, sha: Sha, s: State, blk: Block, ci: CommitInfo)
    requires Inv(m, sha, s) && s.pc.FetchAnchor? && IsAnchor(sha, blk, ci, s.pc.height, s.pc.appHash)
    ensures Inv(m, sha, At(s, StoreAnchor(s.pc.job, s.pc.height, s.pc.appHash, blk, ci)))
  {
  }

  lemma AnswerInv(c: Crypto, m: Rule, sha: Sha, s: State, e: Event)
    requires Inv(m, sha, s) && e.Answer?
    ensures Inv(m, sha, Step(c, sha, s, e))
  {
    if Step(c, sha, s, e) != s { AnswerMoves(m, sha, s, e.blk, e.answered.value); }
  }

  /** psql does not get through a dump whose schemas meet those of a declined snapshot. */
  lemma PsqlInv(c: Crypto, m: Rule, sha: Sha, s: State, e: Event)
    requires Inv(m, sha, s) && Sensible(m) && Follows(m, e) && (e.PsqlSome? || e.PsqlDone?)
    ensures Inv(m, sha, Step(c, sha, s, e))
  {
  }

  lemma ProgressInv(c: Crypto, m: Rule, sha: Sha, s: State, e: Event)
    requires Inv(m, sha, s) && Follows(m, e)
    requires e.Start? || e.NoSnapshot? || e.Found? || e.Staged?
    ensures Inv(m, sha, Step(c, sha, s, e))
  {
  }

  lemma GoInv(m: Rule, sha: Sha, s: State)
    requires Inv(m, sha, s)
    ensures Inv(m, sha, if InitPc(s.pc) then StepInit(s) else if ChoosePc(s.pc) then StepChoose(s) else StepAnchor(s))
  {
    if InitPc(s.pc) {
      InitInv(m, sha, s);
    } else if ChoosePc(s.pc) {
      ChooseInv(m, sha, s);
    } else if s.pc.StoreAnchor? {
      StoreInv(m, sha, s);
    } else if s.pc.VerifyState? {
      VerifyInv(m, sha, s);
    } else {
      AnchorInv(m, sha, s);
    }
  }

  lemma StepInv(c: Crypto, m: Rule, sha: Sha, s: State, e: Event)
    requires Inv(m, sha, s) && Sensible(m) && Follows(m, e)
    ensures Inv(m, sha, Step(c, sha, s, e))
  {
    if e.Go? {
      GoInv(m, sha, s);
    } else if e.Operate? || e.Commit? || e.SyncStore? || e.Kill? || e.Error? {
      RunningInv(c, m, sha, s, e);
    } else if e.Start? || e.NoSnapshot? || e.Found? || e.Staged? {
      ProgressInv(c, m, sha, s, e);
    } else if e.Answer? {
      AnswerInv(c, m, sha, s, e);
    } else if e.PsqlSome? || e.PsqlDone? {
      PsqlInv(c, m, sha, s, e);
    }
  }

  lemma {:induction false} RunInv(c: Crypto, m: Rule, sha: Sha, s: State, events: seq<Event>)
    requires Inv(m, sha, s) && Sensible(m) && forall i :: 0 <= i < |events| ==> Follows(m, events[i])
    ensures Inv(m, sha, RunFrom(c, sha, s, events))
    decreases |events|
  {
    if events != [] {
      StepInv(c, m, sha, s, events[0]);
      RunInv(c, m, sha, Step(c, sha, s, events[0]), events[1..]);
    }
  }

  /** Over every run under either rule: a database that counts as initialised holds data of accepted
      restores only. */
  lemma InitialisedIsAccepted(c: Crypto, m: Rule, sha: Sha, events: seq<Event>)
    requires Sensible(m) && forall i :: 0 <= i < |events| ==> Follows(m, events[i])
    ensures var s := Run(c, sha, events);
      CountsAsInitialised(s.disk) ==> s.disk.db.from <= s.hist.accepted
  {
    RunInv(c, m, sha, INITIAL, events);
  }

  // ---- the anchor block ----

  predicate SetBySnapshot(d: Disk) { d.db.last.Some? && d.db.last.value.kind.Snapshot? }

  /** Over every run under either rule, power losses included: an initialised database whose data was
      last set by a snapshot has, in the block store, the block at its height, with transactions that
      match its header and commit info with the database's app hash - if and only if no power loss
      took that block. */
  lemma InitialisedIsAnchored(c: Crypto, m: Rule, sha: Sha, events: seq<Event>)
    requires Sensible(m) && forall i :: 0 <= i < |events| ==> Follows(m, events[i])
    ensures var s := Run(c, sha, events);
      CountsAsInitialised(s.disk) && SetBySnapshot(s.disk) ==>
        (Anchored(sha, s.disk) <==> s.disk.db.height !in s.hist.lost)
  {
    RunInv(c, m, sha, INITIAL, events);
  }

  /** One power loss: the anchor stays exactly if the store was synced since the anchor was put there,
      or the block got to the disk by itself. */
  lemma LossTakesAnchor(sha: Sha, s: State, left: bool, kept: set<int64>)
    requires Anchored(sha, s.disk)
    ensures Anchored(sha, LosePower(s, left, kept).disk) <==>
      s.disk.db.height !in s.disk.unsynced || s.disk.db.height in kept
  {
  }

  /** No power loss takes the block at the database's height: there is none, or it was synced, or it got to
      the disk by itself. */
  predicate LosesNoAnchor(s: State, e: Event) { e.PowerLoss? ==> s.disk.db.height !in Taken(s.disk, e.kept) }

  ghost predicate Careful(c: Crypto, sha: Sha, s: State, events: seq<Event>)
    decreases |events|
  {
    events == [] || (LosesNoAnchor(s, events[0]) && Careful(c, sha, Step(c, sha, s, events[0]), events[1..]))
  }

  predicate NotLost(s: State) { FromSnapshot(s) ==> s.disk.db.height !in s.hist.lost }

  lemma StepNotLost(c: Crypto, m: Rule, sha: Sha, s: State, e: Event)
    requires Inv(m, sha, s) && NotLost(s) && LosesNoAnchor(s, e)
    ensures NotLost(Step(c, sha, s, e))
  {
    if e.PsqlDone? { PsqlNotLost(c, m, sha, s, e); }
  }

  lemma PsqlNotLost(c: Crypto, m: Rule, sha: Sha, s: State, e: Event)
    requires Inv(m, sha, s) && NotLost(s) && e.PsqlDone?
    ensures NotLost(Step(c, sha, s, e))
  {
  }

  lemma {:induction false} RunNotLost(c: Crypto, m: Rule, sha: Sha, s: State, events: seq<Event>)
    requires Inv(m, sha, s) && Sensible(m) && NotLost(s) && Careful(c, sha, s, events)
    requires forall i :: 0 <= i < |events| ==> Follows(m, events[i])
    ensures NotLost(RunFrom(c, sha, s, events))
    decreases |events|
  {
    if events != [] {
      StepInv(c, m, sha, s, events[0]);
      StepNotLost(c, m, sha, s, events[0]);
      RunNotLost(c, m, sha, Step(c, sha, s, events[0]), events[1..]);
    }
  }

  /** A run in which no power loss falls between the anchor's way into the store and a sync of the
      store never shows an initialised database without its anchor. */
  lemma CarefulIsAnchored(c: Crypto, m: Rule, sha: Sha, events: seq<Event>)
    requires Sensible(m) && (forall i :: 0 <= i < |events| ==> Follows(m, events[i]))
    requires Careful(c, sha, INITIAL, events)
    ensures var d := Run(c, sha, events).disk;
      CountsAsInitialised(d) && SetBySnapshot(d) ==> Anchored(sha, d)
  {
    RunInv(c, m, sha, INITIAL, events);
    RunNotLost(c, m, sha, INITIAL, events);
  }

  // ---- a durably cleared marker ----

  /** The dump creates every schema that an initialised database must have. */
  predicate FullDump(e: Event) { e.PsqlDone? ==> REQUIRED <= e.schemas }

  predicate DurablePc(s: State) {
    match s.pc
    case Stage(_, job) => job.id < s.hist.next && job.id !in s.hist.wiped
    case MarkCreate(_, job) => job.id < s.hist.next && job.id !in s.hist.wiped
    case MarkSync(_, job) => job.id < s.hist.next && job.id !in s.hist.wiped
    case Psql(_, job, _) => job.id < s.hist.next && job.id !in s.hist.wiped
    case VerifyState(_, job) => Complete(s, job)
    case ReadAppHash(job, _) => Complete(s, job)
    case FetchAnchor(job, _, _) => Complete(s, job)
    case StoreAnchor(job, _, _, _, _) => Complete(s, job)
    case ClearRemove(job) => Complete(s, job)
    case ClearSync(job) => Complete(s, job) && !s.disk.marker
    case _ => true
  }

  predicate Complete(s: State, job: Job) { job.id in s.disk.db.from && REQUIRED <= s.disk.db.schemas }

  ghost predicate DurableInv(s: State) {
    && DurablePc(s)
    && (forall id :: id in s.disk.db.from || id in s.hist.wiped ==> id < s.hist.next)
    && s.disk.db.from !! s.hist.wiped
    && s.hist.durable <= s.disk.db.from
    && (s.hist.durable != {} ==>
          && CountsAsInitialised(s.disk) && s.disk.settled
          && (s.pc.Down? || s.pc.CheckMarker? || s.pc.Inspect? || s.pc.Running?))
  }

  lemma ChooseDurable(s: State)
    requires DurableInv(s) && ChoosePc(s.pc)
    ensures DurableInv(StepChoose(s))
  {
  }

  lemma AnchorDurable(s: State)
    requires DurableInv(s) && !InitPc(s.pc) && !ChoosePc(s.pc)
    ensures DurableInv(StepAnchor(s))
  {
  }

  lemma GoDurable(s: State)
    requires DurableInv(s)
    ensures DurableInv(if InitPc(s.pc) then StepInit(s) else if ChoosePc(s.pc) then StepChoose(s) else StepAnchor(s))
  {
    if ChoosePc(s.pc) {
      ChooseDurable(s);
    } else if !InitPc(s.pc) {
      AnchorDurable(s);
    }
  }

  lemma EventDurable(c: Crypto, sha: Sha, s: State, e: Event)
    requires DurableInv(s) && FullDump(e) && !e.Go?
    ensures DurableInv(Step(c, sha, s, e))
  {
  }

  lemma StepDurable(c: Crypto, sha: Sha, s: State, e: Event)
    requires DurableInv(s) && FullDump(e)
    ensures DurableInv(Step(c, sha, s, e))
  {
    if e.Go? { GoDurable(s); } else { EventDurable(c, sha, s, e); }
  }

  lemma {:induction false} RunDurable(c: Crypto, sha: Sha, s: State, events: seq<Event>)
    requires DurableInv(s) && forall i :: 0 <= i < |events| ==> FullDump(events[i])
    ensures DurableInv(RunFrom(c, sha, s, events))
    decreases |events|
  {
    if events != [] {
      StepDurable(c, sha, s, events[0]);
      RunDurable(c, sha, Step(c, sha, s, events[0]), events[1..]);
    }
  }

  /** Once its marker is durably cleared, no later start, restore or crash drops an accepted restore;
      the database counts as initialised from then on. */
  lemma DurableIsKept(c: Crypto, sha: Sha, events: seq<Event>)
    requires forall i :: 0 <= i < |events| ==> FullDump(events[i])
    ensures var s := Run(c, sha, events);
      s.hist.durable !! s.hist.wiped && (s.hist.durable != {} ==> CountsAsInitialised(s.disk))
  {
    RunDurable(c, sha, INITIAL, events);
  }

  // ---- inspectInitSchemas ----

  const REQUIRED_LIST: seq<Schema> := ["kwild_voting", "kwild_internal", "kwild_accts"]

  function CountIn(present: set<Schema>, n: nat): (k: nat)
    requires n <= |REQUIRED_LIST|
    ensures k <= n
    ensures k == n <==> forall i :: 0 <= i < n ==> REQUIRED_LIST[i] in present
    ensures k == 0 <==> forall i :: 0 <= i < n ==> REQUIRED_LIST[i] !in present
    decreases n, present
  {
    if n == 0 then 0 else CountIn(present, n - 1) + if REQUIRED_LIST[n - 1] in present then 1 else 0
  }

  lemma RequiredListed(x: Schema)
    ensures x in REQUIRED <==> exists i :: 0 <= i < |REQUIRED_LIST| && REQUIRED_LIST[i] == x
  {
    assert REQUIRED_LIST[0] == "kwild_voting" && REQUIRED_LIST[1] == "kwild_internal";
    assert REQUIRED_LIST[2] == "kwild_accts";
  }

  /** Counts the required schemas that are there. */
  method InspectInitSchemas(present: set<Schema>) returns (complete: bool, leftover: bool)
    ensures complete <==> REQUIRED <= present
    ensures leftover <==> REQUIRED * present != {} && !(REQUIRED <= present)
  {
    var found := 0;
    for i := 0 to |REQUIRED_LIST|
      invariant found == CountIn(present, i)
    {
      if REQUIRED_LIST[i] in present {
        found := found + 1;
      }
    }
    forall x ensures x in REQUIRED <==> exists i :: 0 <= i < |REQUIRED_LIST| && REQUIRED_LIST[i] == x {
      RequiredListed(x);
    }
    if found > 0 {
      var i :| 0 <= i < |REQUIRED_LIST| && REQUIRED_LIST[i] in present;
      assert REQUIRED_LIST[i] in REQUIRED * present;
    }
    complete := found == |REQUIRED_LIST|;
    leftover := found > 0 && found < |REQUIRED_LIST|;
  }
}
