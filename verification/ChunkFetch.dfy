/** The chunk-fetch worker pool (node/statesyncer.go): a main goroutine feeds chunk indexes to workers,
    which download each chunk into a temp file, resume failed downloads, check the hash and rename.
    Peers and the file system act through events. One snapshot, one directory. */
module ChunkFetch {
  import opened Bytes

  const CHUNK_SIZE := 16_000_000 - 4096

  /** The snapshot: the expected hash of every chunk, and the hash function. */
  datatype Snap<!H> = Snap(hashes: seq<H>, sha: seq<byte> -> H)

  type File = Option<seq<byte>>

  /** Where a worker is. `i` is its chunk, `k` the providers it has not tried yet. */
  datatype Worker =
    | NextTask
    | Try(i: nat, k: nat)
    | Stat(i: nat, k: nat)
    | Sized(i: nat, k: nat, n: nat)             // found n bytes of an earlier attempt
    | Copying(i: nat, k: nat, room: nat, resumable: bool)
    | Copied(i: nat, k: nat, resumable: bool)
    | Checked(i: nat, k: nat)                   // the hash was right
    | Failed(i: nat, k: nat)
    | SendError(i: nat)
    | Cancelling
    | Exit

  /** What the environment decides at a step. */
  datatype Choice = Fine | Wrong | Unsupported | Unreadable | Data(bytes: seq<byte>)

  datatype Round =
    | Idle
    | Active(toSend: seq<nat>, closed: bool, tasks: seq<nat>, ws: seq<Worker>, providers: nat,
             errs: nat, cancelled: bool, parentDone: bool)

  datatype State = State(temp: seq<File>, final: seq<File>, round: Round)

  datatype Event =
    | Begin(workers: nat, providers: nat)
    | SendTask
    | CloseTasks
    | Work(w: nat, choice: Choice)
    | ParentCancel
    | Return
    | CleanTemp(i: nat)
    | CleanFinal(i: nat)
    | Restart

  // ---- one worker ----

  /** A worker with the files of its chunk. */
  datatype Files = Files(pc: Worker, temp: File, final: File)

  function Size(f: File): nat { if f.Some? then |f.value| else 0 }

  /** The steps of requestSnapshotChunk and downloadChunkAttempt, which touch one chunk's files only. */
  function Download<H(==)>(sn: Snap<H>, f: Files, c: Choice): Files {
    match f.pc
    case Stat(i, k) =>
      if f.final.Some? then f.(pc := NextTask) else f.(pc := Sized(i, k, Size(f.temp)))
    case Sized(i, k, n) =>
      if n > CHUNK_SIZE then Files(Failed(i, k), None, f.final)
      else if c.Wrong? then f.(pc := Failed(i, k))
      else if c.Unsupported? then Files(Copying(i, k, CHUNK_SIZE, false), Some([]), None)
      else if n == 0 then Files(Copying(i, k, CHUNK_SIZE, true), Some([]), f.final)
      else f.(pc := Copying(i, k, CHUNK_SIZE - n, true))
    case Copying(i, k, room, resumable) =>
      if c.Data? && |c.bytes| <= room && f.temp.Some? then
        Files(Copying(i, k, room - |c.bytes|, resumable), Some(f.temp.value + c.bytes), f.final)
      else if c.Wrong? then Files(Failed(i, k), if resumable then f.temp else None, f.final)
      else if c.Fine? then f.(pc := Copied(i, k, resumable))
      else f
    case Copied(i, k, resumable) =>
      if c.Wrong? then Files(Failed(i, k), if resumable then f.temp else None, f.final)
      else if !c.Unreadable? && f.temp.Some? && i < |sn.hashes| && sn.sha(f.temp.value) == sn.hashes[i] then
        f.(pc := Checked(i, k))
      else Files(Failed(i, k), None, f.final)
    case Checked(i, k) =>
      if c.Wrong? then Files(Failed(i, k), None, f.final)
      else Files(NextTask, None, f.temp)
    case Failed(i, k) => f.(pc := if c.Fine? then Stat(i, k) else Try(i, k))
    case _ => f
  }

  /** The chunk a worker is on. */
  function Chunk(w: Worker): Option<nat> {
    match w
    case Try(i, _) => Some(i)
    case Stat(i, _) => Some(i)
    case Sized(i, _, _) => Some(i)
    case Copying(i, _, _, _) => Some(i)
    case Copied(i, _, _) => Some(i)
    case Checked(i, _) => Some(i)
    case Failed(i, _) => Some(i)
    case SendError(i) => Some(i)
    case _ => None
  }

  predicate InDownload(w: Worker) {
    w.Stat? || w.Sized? || w.Copying? || w.Copied? || w.Checked? || w.Failed?
  }

  /** The steps of the worker loop, which touch the channels and the context only. */
  function Control(r: Round, pc: Worker, chunks: nat): (Round, Worker)
    requires r.Active?
  {
    match pc
    case NextTask =>
      if r.tasks != [] then (r.(tasks := r.tasks[1..]), Try(r.tasks[0], r.providers))
      else if r.closed then (r, Exit)
      else (r, pc)
    case Try(i, k) =>
      if k == 0 then (r, SendError(i))
      else if r.cancelled || r.parentDone then (r, Exit)
      else (r, Stat(i, k - 1))
    case SendError(i) => if r.errs < chunks then (r.(errs := r.errs + 1), Cancelling) else (r, NextTask)
    case Cancelling => (r.(cancelled := true), Exit)
    case _ => (r, pc)
  }

  // ---- the pool ----

  function Missing(final: seq<File>, n: nat): seq<nat>
    requires n <= |final|
  {
    if n == 0 then []
    else if final[n - 1].None? then Missing(final, n - 1) + [n - 1]
    else Missing(final, n - 1)
  }

  function WorkStep<H(==)>(sn: Snap<H>, s: State, w: nat, c: Choice): State
    requires s.round.Active? && w < |s.round.ws|
  {
    var pc := s.round.ws[w];
    if InDownload(pc) then
      var i := Chunk(pc).value;
      if i >= |s.temp| || i >= |s.final| then s
      else
        var f := Download(sn, Files(pc, s.temp[i], s.final[i]), c);
        State(s.temp[i := f.temp], s.final[i := f.final], s.round.(ws := s.round.ws[w := f.pc]))
    else
      var (r, pc') := Control(s.round, pc, |s.final|);
      s.(round := r.(ws := r.ws[w := pc']))
  }

  function Step<H(==)>(sn: Snap<H>, s: State, e: Event): State {
    match e
    case Begin(workers, providers) =>
      var missing := Missing(s.final, |s.final|);
      if s.round.Idle? && missing != [] then
        s.(round := Active(missing, false, [], seq(workers, _ => NextTask), providers, 0, false, false))
      else s
    case SendTask =>
      if s.round.Active? && s.round.toSend != [] then
        s.(round := s.round.(toSend := s.round.toSend[1..], tasks := s.round.tasks + [s.round.toSend[0]]))
      else s
    case CloseTasks =>
      if s.round.Active? && s.round.toSend == [] then s.(round := s.round.(closed := true)) else s
    case Work(w, c) => if s.round.Active? && w < |s.round.ws| then WorkStep(sn, s, w, c) else s
    case ParentCancel => if s.round.Active? then s.(round := s.round.(parentDone := true)) else s
    case Return => if CanReturn(s) then s.(round := Idle) else s
    case CleanTemp(i) => if s.round.Idle? && i < |s.temp| then s.(temp := s.temp[i := None]) else s
    case CleanFinal(i) => if s.round.Idle? && i < |s.final| then s.(final := s.final[i := None]) else s
    case Restart => Clean(|s.final|)
  }

  /** wg.Wait is over: every worker has returned and every task was sent. */
  predicate CanReturn(s: State) {
    s.round.Active? && s.round.closed && forall w :: 0 <= w < |s.round.ws| ==> s.round.ws[w].Exit?
  }

  /** chunkFetcher would return nil. */
  predicate ReturnsNil(s: State) { CanReturn(s) && s.round.errs == 0 }

  function Clean(chunks: nat): State { State(seq(chunks, _ => None), seq(chunks, _ => None), Idle) }

  function Run<H(==)>(sn: Snap<H>, events: seq<Event>): State {
    if events == [] then Clean(|sn.hashes|) else Step(sn, Run(sn, events[..|events| - 1]), events[|events| - 1])
  }

  // ---- the invariant ----

  predicate FinalOk<H(==)>(sn: Snap<H>, i: nat, f: File) {
    f.Some? ==> i < |sn.hashes| && sn.sha(f.value) == sn.hashes[i]
  }

  /** What a worker in mid-download knows of its chunk's files. */
  predicate FilesOk<H(==)>(sn: Snap<H>, f: Files) {
    && Size(f.temp) <= CHUNK_SIZE
    && match f.pc
       case Sized(i, k, n) => n == Size(f.temp)
       case Copying(i, k, room, _) => f.temp.Some? && |f.temp.value| + room <= CHUNK_SIZE
       case Copied(_, _, _) => f.temp.Some?
       case Checked(i, _) => f.temp.Some? && i < |sn.hashes| && sn.sha(f.temp.value) == sn.hashes[i]
       case _ => true
  }

  lemma DownloadKeeps<H>(sn: Snap<H>, f: Files, c: Choice, i: nat)
    requires Chunk(f.pc) == Some(i) && InDownload(f.pc)
    requires FilesOk(sn, f) && FinalOk(sn, i, f.final)
    ensures var f' := Download(sn, f, c);
      && FilesOk(sn, f') && FinalOk(sn, i, f'.final)
      && (Chunk(f'.pc) == Some(i) || (f'.pc.NextTask? && f'.final.Some?))
  {
  }

  function Pending(r: Round): seq<nat>
    requires r.Active?
  {
    r.tasks + r.toSend
  }

  ghost predicate NoRepeats(xs: seq<nat>) { forall i, j :: 0 <= i < j < |xs| ==> xs[i] != xs[j] }

  /** Every chunk is pending once at most, or on one worker at most, not both. */
  ghost predicate Apart(pending: seq<nat>, ws: seq<Worker>) {
    && NoRepeats(pending)
    && (forall w :: 0 <= w < |ws| && Chunk(ws[w]).Some? ==> Chunk(ws[w]).value !in pending)
    && (forall v, w :: 0 <= v < w < |ws| && Chunk(ws[v]).Some? ==> Chunk(ws[v]) != Chunk(ws[w]))
  }

  ghost predicate FilesInv<H>(sn: Snap<H>, s: State) {
    && |s.temp| == |s.final| == |sn.hashes|
    && (forall i :: 0 <= i < |s.final| ==> FinalOk(sn, i, s.final[i]) && Size(s.temp[i]) <= CHUNK_SIZE)
  }

  /** Worker w knows the files of its chunk. */
  ghost predicate Local<H>(sn: Snap<H>, s: State, w: nat)
    requires s.round.Active? && w < |s.round.ws|
  {
    var c := Chunk(s.round.ws[w]);
    c.Some? ==>
      && c.value < |s.final| && c.value < |s.temp|
      && FilesOk(sn, Files(s.round.ws[w], s.temp[c.value], s.final[c.value]))
  }

  ghost predicate WorkersInv<H>(sn: Snap<H>, s: State) {
    s.round.Active? ==>
      && Apart(Pending(s.round), s.round.ws)
      && (forall j :: 0 <= j < |Pending(s.round)| ==> Pending(s.round)[j] < |s.final|)
      && (forall w :: 0 <= w < |s.round.ws| ==> Local(sn, s, w))
  }

  /** Chunk i is done, waiting its turn, or on a worker. */
  ghost predicate Covered(s: State, i: nat)
    requires s.round.Active? && i < |s.final|
  {
    s.final[i].Some? || i in Pending(s.round) || exists w :: 0 <= w < |s.round.ws| && Chunk(s.round.ws[w]) == Some(i)
  }

  predicate Quiet(r: Round)
    requires r.Active?
  {
    r.errs == 0 && !r.parentDone
  }

  ghost predicate CoverInv(s: State) {
    s.round.Active? ==>
      && (s.round.closed ==> s.round.toSend == [])
      && (s.round.cancelled ==> s.round.errs > 0)
      && (forall w :: 0 <= w < |s.round.ws| && s.round.ws[w].Cancelling? ==> s.round.errs > 0)
      && (Quiet(s.round) ==>
            && (forall i :: 0 <= i < |s.final| ==> Covered(s, i))
            && (forall w :: 0 <= w < |s.round.ws| && s.round.ws[w].Exit? ==> s.round.closed && s.round.tasks == []))
  }

  ghost predicate Inv<H>(sn: Snap<H>, s: State) { FilesInv(sn, s) && WorkersInv(sn, s) && CoverInv(s) }

  // ---- every step keeps the invariant ----

  lemma {:induction false} MissingIs(final: seq<File>, n: nat)
    requires n <= |final|
    ensures NoRepeats(Missing(final, n))
    ensures forall i :: i in Missing(final, n) <==> 0 <= i < n && final[i].None?
  {
    if n > 0 { MissingIs(final, n - 1); }
  }

  lemma BeginInv<H>(sn: Snap<H>, s: State, workers: nat, providers: nat)
    requires Inv(sn, s)
    ensures Inv(sn, Step(sn, s, Begin(workers, providers)))
  {
    var missing := Missing(s.final, |s.final|);
    MissingIs(s.final, |s.final|);
    if s.round.Idle? && missing != [] {
      var s' := Step(sn, s, Begin(workers, providers));
      assert Pending(s'.round) == missing;
      forall j | 0 <= j < |missing| ensures missing[j] < |s.final| { assert missing[j] in missing; }
      forall i | 0 <= i < |s'.final| ensures Covered(s', i) {
        assert s'.final[i].Some? || i in missing;
      }
    }
  }

  lemma SendInv<H>(sn: Snap<H>, s: State)
    requires Inv(sn, s)
    ensures Inv(sn, Step(sn, s, SendTask))
  {
    if s.round.Active? && s.round.toSend != [] {
      var s' := Step(sn, s, SendTask);
      assert Pending(s'.round) == Pending(s.round);
      forall w | 0 <= w < |s'.round.ws| ensures Local(sn, s', w) { assert Local(sn, s, w); }
      if Quiet(s.round) {
        forall i | 0 <= i < |s'.final| ensures Covered(s', i) { assert Covered(s, i); }
      }
    }
  }

  /** Changing flags only, or closing the channel after the last send. */
  lemma FlagsInv<H>(sn: Snap<H>, s: State, e: Event)
    requires Inv(sn, s) && (e.CloseTasks? || e.ParentCancel?)
    ensures Inv(sn, Step(sn, s, e))
  {
    var s' := Step(sn, s, e);
    if s.round.Active? {
      assert Pending(s'.round) == Pending(s.round);
      forall w | 0 <= w < |s'.round.ws| ensures Local(sn, s', w) { assert Local(sn, s, w); }
      if Quiet(s'.round) {
        forall i | 0 <= i < |s'.final| ensures Covered(s', i) { assert Covered(s, i); }
      }
    }
  }

  lemma DownloadFiles<H>(sn: Snap<H>, s: State, w: nat, c: Choice)
    requires Inv(sn, s) && s.round.Active? && w < |s.round.ws| && InDownload(s.round.ws[w])
    ensures FilesInv(sn, WorkStep(sn, s, w, c)) && WorkersInv(sn, WorkStep(sn, s, w, c))
  {
    var i := Chunk(s.round.ws[w]).value;
    assert Local(sn, s, w);
    DownloadKeeps(sn, Files(s.round.ws[w], s.temp[i], s.final[i]), c, i);
    var s' := WorkStep(sn, s, w, c);
    assert Pending(s'.round) == Pending(s.round);
    forall v | 0 <= v < |s'.round.ws| ensures Local(sn, s', v) {
      assert Local(sn, s, v);
    }
  }

  lemma DownloadCover<H>(sn: Snap<H>, s: State, w: nat, c: Choice)
    requires Inv(sn, s) && s.round.Active? && w < |s.round.ws| && InDownload(s.round.ws[w])
    ensures CoverInv(WorkStep(sn, s, w, c))
  {
    var i := Chunk(s.round.ws[w]).value;
    assert Local(sn, s, w);
    DownloadKeeps(sn, Files(s.round.ws[w], s.temp[i], s.final[i]), c, i);
    var s' := WorkStep(sn, s, w, c);
    assert s'.round == s.round.(ws := s'.round.ws);
    if Quiet(s.round) {
      forall j | 0 <= j < |s'.final| ensures Covered(s', j) {
        assert Covered(s, j);
        if j == i {
          assert s'.final[i].Some? || Chunk(s'.round.ws[w]) == Some(i);
        } else if v :| 0 <= v < |s.round.ws| && Chunk(s.round.ws[v]) == Some(j) {
          assert s'.round.ws[v] == s.round.ws[v];
        }
      }
    }
  }

  /** A worker keeps its chunk or drops it. */
  lemma KeepApart(pending: seq<nat>, ws: seq<Worker>, w: nat, pc: Worker)
    requires Apart(pending, ws) && w < |ws|
    requires Chunk(pc) == Chunk(ws[w]) || Chunk(pc).None?
    ensures Apart(pending, ws[w := pc])
  {
  }

  lemma TakeFiles<H>(sn: Snap<H>, s: State, w: nat, c: Choice)
    requires Inv(sn, s) && s.round.Active? && w < |s.round.ws|
    requires s.round.ws[w].NextTask? && s.round.tasks != []
    ensures FilesInv(sn, WorkStep(sn, s, w, c)) && WorkersInv(sn, WorkStep(sn, s, w, c))
  {
    var s' := WorkStep(sn, s, w, c);
    var pending := Pending(s.round);
    assert pending[0] == s.round.tasks[0];
    assert Pending(s'.round) == pending[1..];
    forall v | 0 <= v < |s'.round.ws| ensures Local(sn, s', v) { assert Local(sn, s, v); }
  }

  lemma ControlFiles<H>(sn: Snap<H>, s: State, w: nat, c: Choice)
    requires Inv(sn, s) && s.round.Active? && w < |s.round.ws| && !InDownload(s.round.ws[w])
    ensures FilesInv(sn, WorkStep(sn, s, w, c)) && WorkersInv(sn, WorkStep(sn, s, w, c))
  {
    if s.round.ws[w].NextTask? && s.round.tasks != [] {
      TakeFiles(sn, s, w, c);
    } else {
      var s' := WorkStep(sn, s, w, c);
      assert Pending(s'.round) == Pending(s.round);
      KeepApart(Pending(s.round), s.round.ws, w, s'.round.ws[w]);
      forall v | 0 <= v < |s'.round.ws| ensures Local(sn, s', v) { assert Local(sn, s, v); }
    }
  }

  /** A chunk stays covered when a worker takes it from the channel, and when no worker lets go of it. */
  lemma CoverKept(s: State, s': State, w: nat, j: nat)
    requires s.round.Active? && s'.round.Active? && s'.final == s.final && j < |s.final|
    requires w < |s.round.ws| == |s'.round.ws| && s'.round.ws == s.round.ws[w := s'.round.ws[w]]
    requires j in Pending(s.round) ==> j in Pending(s'.round) || Chunk(s'.round.ws[w]) == Some(j)
    requires Chunk(s.round.ws[w]) == Some(j) ==> Chunk(s'.round.ws[w]) == Some(j)
    requires Covered(s, j)
    ensures Covered(s', j)
  {
    if Chunk(s'.round.ws[w]) != Some(j) {
      if v :| 0 <= v < |s.round.ws| && Chunk(s.round.ws[v]) == Some(j) {
        assert s'.round.ws[v] == s.round.ws[v];
      }
    }
  }

  lemma TakeCover<H>(sn: Snap<H>, s: State, w: nat, c: Choice)
    requires Inv(sn, s) && s.round.Active? && w < |s.round.ws|
    requires s.round.ws[w].NextTask? && s.round.tasks != []
    ensures CoverInv(WorkStep(sn, s, w, c))
  {
    var s' := WorkStep(sn, s, w, c);
    assert Pending(s.round) == [s.round.tasks[0]] + Pending(s'.round);
    if Quiet(s'.round) {
      forall j | 0 <= j < |s'.final| ensures Covered(s', j) { CoverKept(s, s', w, j); }
    }
  }

  lemma ControlCover<H>(sn: Snap<H>, s: State, w: nat, c: Choice)
    requires Inv(sn, s) && s.round.Active? && w < |s.round.ws| && !InDownload(s.round.ws[w])
    ensures CoverInv(WorkStep(sn, s, w, c))
  {
    if s.round.ws[w].NextTask? && s.round.tasks != [] {
      TakeCover(sn, s, w, c);
    } else {
      var s' := WorkStep(sn, s, w, c);
      assert Pending(s'.round) == Pending(s.round);
      assert Local(sn, s, w);
      if Quiet(s'.round) {
        forall j | 0 <= j < |s'.final| ensures Covered(s', j) { CoverKept(s, s', w, j); }
      }
    }
  }

  lemma StepInv<H>(sn: Snap<H>, s: State, e: Event)
    requires Inv(sn, s)
    ensures Inv(sn, Step(sn, s, e))
  {
    match e
    case Begin(workers, providers) => BeginInv(sn, s, workers, providers);
    case SendTask => SendInv(sn, s);
    case CloseTasks => FlagsInv(sn, s, e);
    case ParentCancel => FlagsInv(sn, s, e);
    case Work(w, c) =>
      if s.round.Active? && w < |s.round.ws| {
        if InDownload(s.round.ws[w]) {
          DownloadFiles(sn, s, w, c);
          DownloadCover(sn, s, w, c);
        } else {
          ControlFiles(sn, s, w, c);
          ControlCover(sn, s, w, c);
        }
      }
    case _ =>
  }

  lemma {:induction false} RunInv<H>(sn: Snap<H>, events: seq<Event>)
    ensures Inv(sn, Run(sn, events))
  {
    if events != [] {
      RunInv(sn, events[..|events| - 1]);
      StepInv(sn, Run(sn, events[..|events| - 1]), events[|events| - 1]);
    }
  }

  // ---- main results ----

  predicate AllPresent(s: State) { forall i :: 0 <= i < |s.final| ==> s.final[i].Some? }

  /** No two workers ever hold the same chunk, and so never touch the same files. */
  lemma OneWorkerPerChunk<H>(sn: Snap<H>, events: seq<Event>, v: nat, w: nat)
    requires Run(sn, events).round.Active?
    requires v < w < |Run(sn, events).round.ws|
    requires Chunk(Run(sn, events).round.ws[v]).Some?
    ensures Chunk(Run(sn, events).round.ws[v]) != Chunk(Run(sn, events).round.ws[w])
  {
    RunInv(sn, events);
  }

  /** After any run a finished chunk has the expected hash and a partial one fits a chunk. */
  lemma FilesAreSound<H>(sn: Snap<H>, events: seq<Event>, i: nat)
    requires i < |sn.hashes|
    ensures var s := Run(sn, events);
      && |s.temp| == |s.final| == |sn.hashes|
      && (s.temp[i].Some? ==> |s.temp[i].value| <= CHUNK_SIZE)
      && (s.final[i].Some? ==> sn.sha(s.final[i].value) == sn.hashes[i])
  {
    RunInv(sn, events);
  }

  /** A nil result of a round with a worker, the parent context alive, leaves every chunk in place. */
  lemma NilMeansComplete<H>(sn: Snap<H>, events: seq<Event>)
    requires ReturnsNil(Run(sn, events))
    requires !Run(sn, events).round.parentDone && |Run(sn, events).round.ws| > 0
    ensures AllPresent(Run(sn, events))
  {
    RunInv(sn, events);
    var s := Run(sn, events);
    assert s.round.ws[0].Exit?;
    assert Pending(s.round) == [];
    forall i | 0 <= i < |s.final| ensures s.final[i].Some? { assert Covered(s, i); }
  }

  // ---- when a nil result can be believed ----

  /** Events inside one call of the fetcher. */
  predicate Within(more: seq<Event>) {
    forall j :: 0 <= j < |more| ==> more[j].SendTask? || more[j].CloseTasks? || more[j].Work? || more[j].ParentCancel?
  }

  ghost predicate Sound<H>(sn: Snap<H>, start: seq<Event>, more: seq<Event>) {
    var s := Run(sn, start + more);
    ReturnsNil(s) && !s.round.parentDone ==> AllPresent(s)
  }

  lemma RunStep<H>(sn: Snap<H>, events: seq<Event>, more: seq<Event>, e: Event)
    ensures Run(sn, events + (more + [e])) == Step(sn, Run(sn, events + more), e)
  {
    var all := events + (more + [e]);
    assert all[..|all| - 1] == events + more;
  }

  lemma StepPool<H>(sn: Snap<H>, s: State, e: Event)
    requires Within([e])
    ensures var r := Step(sn, s, e).round;
      r.Active? == s.round.Active? && (r.Active? ==> |r.ws| == |s.round.ws|)
  {
    assert [e][0] == e;
  }

  /** The pool keeps its size inside a call. */
  lemma {:induction false} PoolSize<H>(sn: Snap<H>, start: seq<Event>, more: seq<Event>)
    requires Within(more)
    ensures var r0, r := Run(sn, start).round, Run(sn, start + more).round;
      r.Active? == r0.Active? && (r.Active? ==> |r.ws| == |r0.ws|)
  {
    if more == [] {
      assert start + more == start;
    } else {
      var init, e := more[..|more| - 1], more[|more| - 1];
      PoolSize(sn, start, init);
      RunStep(sn, start, init, e);
      assert init + [e] == more;
      StepPool(sn, Run(sn, start + init), e);
    }
  }

  /** With no workers the main goroutine sends every task into the channel and waits for nobody. */
  function Sends(k: nat): seq<Event> { seq(k, _ => SendTask) }

  lemma {:induction false} SendsAlone<H>(sn: Snap<H>, start: seq<Event>, k: nat)
    requires Run(sn, start).round.Active?
    requires k <= |Run(sn, start).round.toSend|
    ensures var s0, s := Run(sn, start), Run(sn, start + Sends(k));
      && s.round.Active? && s.final == s0.final
      && s.round == s0.round.(toSend := s0.round.toSend[k..], tasks := s.round.tasks)
  {
    if k == 0 {
      assert start + Sends(0) == start;
    } else {
      SendsAlone(sn, start, k - 1);
      RunStep(sn, start, Sends(k - 1), SendTask);
      assert Sends(k - 1) + [SendTask] == Sends(k);
    }
  }

  lemma MissingNone(s: State)
    ensures Missing(s.final, |s.final|) == [] <==> AllPresent(s)
  {
    var m := Missing(s.final, |s.final|);
    MissingIs(s.final, |s.final|);
    if m != [] {
      assert m[0] in m;
    } else {
      forall i | 0 <= i < |s.final| ensures s.final[i].Some? { assert i !in m; }
    }
  }

  lemma BeginStep<H>(sn: Snap<H>, events: seq<Event>, workers: nat, providers: nat)
    requires Run(sn, events).round.Idle?
    ensures var s0, s := Run(sn, events), Run(sn, events + [Begin(workers, providers)]);
      && s.final == s0.final
      && s.round.Active? == !AllPresent(s0)
      && (s.round.Active? ==> s.round.ws == seq(workers, _ => NextTask) && s.round.errs == 0 && !s.round.parentDone)
      && (s.round.Active? ==> s.round.providers == providers && s.round.tasks == [])
      && (s.round.Active? ==> s.round.toSend == Missing(s0.final, |s0.final|))
  {
    var s0 := Run(sn, events);
    RunStep(sn, events, [], Begin(workers, providers));
    assert events + [] == events && [] + [Begin(workers, providers)] == [Begin(workers, providers)];
    MissingNone(s0);
  }

  lemma SendsAndCloses<H>(sn: Snap<H>, start: seq<Event>, k: nat)
    requires Run(sn, start).round.Active?
    requires k == |Run(sn, start).round.toSend|
    ensures var s0, s := Run(sn, start), Run(sn, start + (Sends(k) + [CloseTasks]));
      && s.round.Active? && s.final == s0.final && s.round.closed && s.round.ws == s0.round.ws
      && s.round.errs == s0.round.errs && s.round.parentDone == s0.round.parentDone
      && s.round.providers == s0.round.providers
  {
    SendsAlone(sn, start, k);
    RunStep(sn, start, Sends(k), CloseTasks);
  }

  lemma NobodyFetches<H>(sn: Snap<H>, events: seq<Event>, providers: nat)
    requires Run(sn, events).round.Idle? && !AllPresent(Run(sn, events))
    ensures exists more :: Within(more) && !Sound(sn, events + [Begin(0, providers)], more)
  {
    var start := events + [Begin(0, providers)];
    BeginStep(sn, events, 0, providers);
    var k := |Run(sn, start).round.toSend|;
    SendsAndCloses(sn, start, k);
    var more := Sends(k) + [CloseTasks];
    assert Within(more) && !Sound(sn, start, more);
  }

  /** A nil result without cancellation can be believed exactly when the pool has a worker or nothing is missing. */
  lemma NilSoundIff<H>(sn: Snap<H>, events: seq<Event>, workers: nat, providers: nat)
    requires Run(sn, events).round.Idle?
    ensures workers > 0 || AllPresent(Run(sn, events)) <==>
      forall more :: Within(more) ==> Sound(sn, events + [Begin(workers, providers)], more)
  {
    var start := events + [Begin(workers, providers)];
    if workers == 0 && !AllPresent(Run(sn, events)) {
      NobodyFetches(sn, events, providers);
    } else {
      BeginStep(sn, events, workers, providers);
      forall more | Within(more) ensures Sound(sn, start, more) {
        PoolSize(sn, start, more);
        var s := Run(sn, start + more);
        if ReturnsNil(s) && !s.round.parentDone { NilMeansComplete(sn, start + more); }
      }
    }
  }

  // ---- and when the parent context may be cancelled ----

  ghost predicate Believable<H>(sn: Snap<H>, start: seq<Event>, more: seq<Event>) {
    ReturnsNil(Run(sn, start + more)) ==> AllPresent(Run(sn, start + more))
  }

  /** Every task is in the channel, the parent is cancelled, and the workers before k have left. */
  ghost predicate Leaving(r: Round, k: nat) {
    && r.Active? && r.closed && r.parentDone && r.errs == 0 && r.providers > 0 && k <= |r.ws|
    && forall w :: 0 <= w < |r.ws| ==> r.ws[w] == if w < k then Exit else NextTask
  }

  lemma OneLeaves<H>(sn: Snap<H>, s: State, k: nat)
    requires Leaving(s.round, k) && k < |s.round.ws|
    ensures var s' := Step(sn, Step(sn, s, Work(k, Fine)), Work(k, Fine));
      Leaving(s'.round, k + 1) && |s'.round.ws| == |s.round.ws| && s'.final == s.final
  {
    var s1 := Step(sn, s, Work(k, Fine));
    if s.round.tasks != [] {
      assert s1.round.ws == s.round.ws[k := Try(s.round.tasks[0], s.round.providers)];
      assert Step(sn, s1, Work(k, Fine)).round.ws == s.round.ws[k := Exit];
    } else {
      assert s1.round.ws == s.round.ws[k := Exit];
      assert Step(sn, s1, Work(k, Fine)).round.ws == s1.round.ws;
    }
  }

  /** From the worker k on, all leave without an error and without a chunk. */
  lemma {:induction false} AllLeave<H>(sn: Snap<H>, start: seq<Event>, more: seq<Event>, k: nat)
      returns (all: seq<Event>)
    requires Within(more) && Leaving(Run(sn, start + more).round, k)
    ensures Within(all) && ReturnsNil(Run(sn, start + all)) && Run(sn, start + all).final == Run(sn, start + more).final
    decreases |Run(sn, start + more).round.ws| - k
  {
    if k == |Run(sn, start + more).round.ws| {
      all := more;
    } else {
      OneLeaves(sn, Run(sn, start + more), k);
      RunStep(sn, start, more, Work(k, Fine));
      RunStep(sn, start, more + [Work(k, Fine)], Work(k, Fine));
      all := AllLeave(sn, start, more + [Work(k, Fine)] + [Work(k, Fine)], k + 1);
    }
  }

  /** With a provider to try, cancelling the parent lets every worker leave before its first request. */
  lemma CancelledNil<H>(sn: Snap<H>, events: seq<Event>, workers: nat, providers: nat)
    requires Run(sn, events).round.Idle? && !AllPresent(Run(sn, events)) && providers > 0
    ensures exists more :: Within(more) && !Believable(sn, events + [Begin(workers, providers)], more)
  {
    var start := events + [Begin(workers, providers)];
    BeginStep(sn, events, workers, providers);
    var k := |Run(sn, start).round.toSend|;
    SendsAndCloses(sn, start, k);
    RunStep(sn, start, Sends(k) + [CloseTasks], ParentCancel);
    var more := AllLeave(sn, start, Sends(k) + [CloseTasks] + [ParentCancel], 0);
    assert Within(more) && !Believable(sn, start, more);
  }

  predicate NoDownload(w: Worker) { !InDownload(w) && (w.Try? ==> w.k == 0) }

  /** Without providers a worker with a chunk can only report an error, and leaves early only after one. */
  ghost predicate Idling(r: Round) {
    && r.Active? && r.providers == 0
    && (r.closed ==> r.toSend == [])
    && (forall w :: 0 <= w < |r.ws| ==> NoDownload(r.ws[w]))
    && (r.errs == 0 ==>
          forall w :: 0 <= w < |r.ws| ==> !r.ws[w].Cancelling? && (r.ws[w].Exit? ==> r.closed && r.tasks == []))
  }

  /** Chunk i is pending or on a worker. */
  ghost predicate Waits(r: Round, i: nat)
    requires r.Active?
  {
    i in Pending(r) || exists w :: 0 <= w < |r.ws| && Chunk(r.ws[w]) == Some(i)
  }

  /** Chunk i is not given up before an error is reported. */
  ghost predicate Stuck(s: State, i: nat) {
    Idling(s.round) && 0 < |s.final| && (s.round.errs == 0 ==> Waits(s.round, i))
  }

  lemma WorkWaits<H>(sn: Snap<H>, s: State, w: nat, c: Choice, i: nat)
    requires Stuck(s, i) && w < |s.round.ws|
    ensures var r := WorkStep(sn, s, w, c).round; r.Active? && (r.errs == 0 ==> Waits(r, i))
  {
    var r := WorkStep(sn, s, w, c).round;
    assert NoDownload(s.round.ws[w]);
    var took := s.round.ws[w].NextTask? && s.round.tasks != [];
    assert took ==> Pending(s.round) == [s.round.tasks[0]] + Pending(r);
    assert !took ==> Pending(r) == Pending(s.round);
    if r.errs == 0 && i !in Pending(r) {
      if took && i == s.round.tasks[0] {
        assert Chunk(r.ws[w]) == Some(i);
      } else {
        var v :| 0 <= v < |s.round.ws| && Chunk(s.round.ws[v]) == Some(i);
        assert Chunk(r.ws[v]) == Some(i);
      }
    }
  }

  lemma WorkIdling<H>(sn: Snap<H>, s: State, w: nat, c: Choice)
    requires Idling(s.round) && w < |s.round.ws|
    ensures Idling(WorkStep(sn, s, w, c).round) && WorkStep(sn, s, w, c).final == s.final
  {
    assert NoDownload(s.round.ws[w]);
  }

  /** The events of the feeding goroutine and of the caller. */
  lemma OtherStuck<H>(sn: Snap<H>, s: State, e: Event, i: nat)
    requires Stuck(s, i) && Within([e]) && !e.Work?
    ensures Stuck(Step(sn, s, e), i)
  {
    assert [e][0] == e;
    assert Pending(Step(sn, s, e).round) == Pending(s.round);
  }

  lemma StepStuck<H>(sn: Snap<H>, s: State, e: Event, i: nat)
    requires Stuck(s, i) && Within([e])
    ensures Stuck(Step(sn, s, e), i)
  {
    if !e.Work? {
      OtherStuck(sn, s, e, i);
    } else if e.w < |s.round.ws| {
      WorkIdling(sn, s, e.w, e.choice);
      WorkWaits(sn, s, e.w, e.choice, i);
    }
  }

  lemma {:induction false} RunStuck<H>(sn: Snap<H>, start: seq<Event>, more: seq<Event>, i: nat)
    requires Stuck(Run(sn, start), i) && Within(more)
    ensures Stuck(Run(sn, start + more), i)
  {
    if more == [] {
      assert start + more == start;
    } else {
      var init, e := more[..|more| - 1], more[|more| - 1];
      RunStuck(sn, start, init, i);
      RunStep(sn, start, init, e);
      assert init + [e] == more;
      StepStuck(sn, Run(sn, start + init), e, i);
    }
  }

  lemma AllGone(r: Round, i: nat)
    requires Idling(r) && r.errs == 0 && r.ws != [] && forall w :: 0 <= w < |r.ws| ==> r.ws[w].Exit?
    ensures !Waits(r, i)
  {
    assert r.ws[0].Exit?;
    assert Pending(r) == [];
  }

  lemma NoProviders<H>(sn: Snap<H>, events: seq<Event>, workers: nat, more: seq<Event>)
    requires Run(sn, events).round.Idle? && !AllPresent(Run(sn, events)) && workers > 0 && Within(more)
    ensures !ReturnsNil(Run(sn, events + [Begin(workers, 0)] + more))
  {
    var s0, start := Run(sn, events), events + [Begin(workers, 0)];
    var i :| 0 <= i < |s0.final| && s0.final[i].None?;
    BeginStep(sn, events, workers, 0);
    MissingIs(s0.final, |s0.final|);
    assert i in Pending(Run(sn, start).round);
    RunStuck(sn, start, more, i);
    PoolSize(sn, start, more);
    var r := Run(sn, start + more).round;
    if ReturnsNil(Run(sn, start + more)) { AllGone(r, i); }
  }

  ghost predicate AlwaysBelievable<H>(sn: Snap<H>, start: seq<Event>) {
    forall more :: Within(more) ==> Believable(sn, start, more)
  }

  lemma BelievableThen<H>(sn: Snap<H>, events: seq<Event>, workers: nat, providers: nat)
    requires Run(sn, events).round.Idle?
    requires AllPresent(Run(sn, events)) || (workers > 0 && providers == 0)
    ensures AlwaysBelievable(sn, events + [Begin(workers, providers)])
  {
    var start := events + [Begin(workers, providers)];
    BeginStep(sn, events, workers, providers);
    forall more | Within(more) ensures Believable(sn, start, more) {
      if AllPresent(Run(sn, events)) { PoolSize(sn, start, more); } else { NoProviders(sn, events, workers, more); }
    }
  }

  lemma NotBelievable<H>(sn: Snap<H>, events: seq<Event>, workers: nat, providers: nat)
    requires Run(sn, events).round.Idle? && !AllPresent(Run(sn, events)) && (workers == 0 || providers > 0)
    ensures exists more :: Within(more) && !Believable(sn, events + [Begin(workers, providers)], more)
  {
    if providers > 0 {
      CancelledNil(sn, events, workers, providers);
    } else {
      NobodyFetches(sn, events, providers);
      var more :| Within(more) && !Sound(sn, events + [Begin(0, providers)], more);
      assert !Believable(sn, events + [Begin(0, providers)], more);
    }
  }

  /** Whatever happens to the parent context, nil can be believed exactly when nothing is missing, or when there
      are workers and no provider, so that nil is never returned. */
  lemma NilBelievableIff<H>(sn: Snap<H>, events: seq<Event>, workers: nat, providers: nat)
    requires Run(sn, events).round.Idle?
    ensures AlwaysBelievable(sn, events + [Begin(workers, providers)]) <==>
      AllPresent(Run(sn, events)) || (workers > 0 && providers == 0)
  {
    if AllPresent(Run(sn, events)) || (workers > 0 && providers == 0) {
      BelievableThen(sn, events, workers, providers);
    } else {
      NotBelievable(sn, events, workers, providers);
    }
  }
}
