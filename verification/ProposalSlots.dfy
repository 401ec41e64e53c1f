/** Slots for block proposals (node/consensus.go): one token for the accept and hand-off sections, two
    for body reads with at most one per peer. Each handler is a thread; a step is one channel
    operation or one critical section of the read-peers mutex. */
module ProposalSlots {

  const HANDLING_CAP := 1
  const MAX_READS := 2

  datatype Pc =
    | WantFirst                    // before the first send on blkPropHandling
    | FirstAccept                  // holds it, asks the consensus engine
    | FirstLeave(accept: bool)     // about to receive it back
    | CheckPeer
    | WantSlot                     // before the send on blkPropReads, or its timeout
    | HaveSlot
    | Reading
    | Unregister(read: bool)
    | ReturnSlot(read: bool)
    | WantSecond
    | SecondAccept
    | SecondLeave                  // rejected: the deferred done
    | Accepted                     // about to notify the consensus engine
    | HandedOff                    // the consensus engine will call done
    | Over

  /** A handler: its peer, where it is, the number of the blkPropHandling token it took last and of the
      one it was first accepted under, and how many tokens it took and returned. */
  datatype Handler = Handler(
    id: nat, peer: nat, pc: Pc, token: nat, first: nat,
    handlingTaken: nat, handlingBack: nat, slotTaken: nat, slotBack: nat)

  /** A call of the consensus engine by a handler that holds a token. */
  datatype Call = Asked(h: nat, token: nat, yes: bool) | Notified(h: nat, token: nat)

  /** Channel occupancy, the read-peers map and the handlers; and as history the number of tokens handed
      out on blkPropHandling and the calls of the engine. */
  datatype State = State(
    handling: nat, slots: nat, peers: set<nat>, hs: map<nat, Handler>, serial: nat, calls: seq<Call>)

  const INITIAL := State(0, 0, {}, map[], 0, [])

  datatype Event =
    | Arrive(h: nat, peer: nat)
    | Move(h: nat, yes: bool)  // the next step of h; `yes` is the engine's answer or the read's success
    | Timeout(h: nat)

  predicate HoldsHandling(pc: Pc) {
    pc.FirstAccept? || pc.FirstLeave? || pc.SecondAccept? || pc.SecondLeave? || pc.Accepted? || pc.HandedOff?
  }

  predicate HoldsSlot(pc: Pc) { pc.HaveSlot? || pc.Reading? || pc.Unregister? || pc.ReturnSlot? }

  /** The handler has its peer entered in the read-peers map. */
  predicate Registered(pc: Pc) { pc.Reading? || pc.Unregister? }

  /** The shared variables and one handler. */
  datatype Local = Local(handling: nat, slots: nat, peers: set<nat>, p: Handler, serial: nat, calls: seq<Call>)

  function At(l: Local, pc: Pc): Local { l.(p := l.p.(pc := pc)) }

  /** A send; on a full channel it waits. */
  function TakeHandling(l: Local, pc: Pc): Local {
    if l.handling >= HANDLING_CAP then l
    else At(l.(handling := l.handling + 1, serial := l.serial + 1,
               p := l.p.(token := l.serial, handlingTaken := l.p.handlingTaken + 1)), pc)
  }

  /** A receive; on an empty channel it waits. */
  function BackHandling(l: Local, pc: Pc): Local {
    if l.handling == 0 then l
    else At(l.(handling := l.handling - 1, p := l.p.(handlingBack := l.p.handlingBack + 1)), pc)
  }

  function TakeSlot(l: Local, pc: Pc): Local {
    if l.slots >= MAX_READS then l
    else At(l.(slots := l.slots + 1, p := l.p.(slotTaken := l.p.slotTaken + 1)), pc)
  }

  function BackSlot(l: Local, pc: Pc): Local {
    if l.slots == 0 then l
    else At(l.(slots := l.slots - 1, p := l.p.(slotBack := l.p.slotBack + 1)), pc)
  }

  /** AcceptProposal. */
  function Ask(l: Local, yes: bool, pc: Pc): Local { At(l.(calls := l.calls + [Asked(l.p.id, l.p.token, yes)]), pc) }

  /** NotifyBlockProposal. */
  function Notify(l: Local, pc: Pc): Local { At(l.(calls := l.calls + [Notified(l.p.id, l.p.token)]), pc) }

  /** One step of a handler. */
  function Move1(l: Local, yes: bool): Local {
    match l.p.pc
    case WantFirst => TakeHandling(l, FirstAccept)
    case FirstAccept => Ask(l.(p := l.p.(first := l.p.token)), yes, FirstLeave(yes))
    case FirstLeave(accept) => BackHandling(l, if accept then CheckPeer else Over)
    case CheckPeer => At(l, if l.p.peer in l.peers then Over else WantSlot)
    case WantSlot => TakeSlot(l, HaveSlot)
    case HaveSlot =>
      if l.p.peer in l.peers then BackSlot(l, Over)
      else At(l.(peers := l.peers + {l.p.peer}), Reading)
    case Reading => At(l, Unregister(yes))
    case Unregister(read) => At(l.(peers := l.peers - {l.p.peer}), ReturnSlot(read))
    case ReturnSlot(read) => BackSlot(l, if read then WantSecond else Over)
    case WantSecond => TakeHandling(l, SecondAccept)
    case SecondAccept => Ask(l, yes, if yes then Accepted else SecondLeave)
    case SecondLeave => BackHandling(l, Over)
    case Accepted => Notify(l, HandedOff)
    case HandedOff => BackHandling(l, Over)
    case Over => l
  }

  function View(s: State, h: nat): Local
    requires h in s.hs
  {
    Local(s.handling, s.slots, s.peers, s.hs[h], s.serial, s.calls)
  }

  function Update(s: State, h: nat, l: Local): State {
    State(l.handling, l.slots, l.peers, s.hs[h := l.p], l.serial, l.calls)
  }

  function NewHandler(h: nat, peer: nat): Handler { Handler(h, peer, WantFirst, 0, 0, 0, 0, 0, 0) }

  function Step(s: State, e: Event): State {
    match e
    case Arrive(h, peer) =>
      if h in s.hs then s else s.(hs := s.hs[h := NewHandler(h, peer)])
    case Move(h, yes) => if h in s.hs then Update(s, h, Move1(View(s, h), yes)) else s
    case Timeout(h) => if h in s.hs && s.hs[h].pc.WantSlot? then Update(s, h, At(View(s, h), Over)) else s
  }

  function Run(events: seq<Event>): State {
    if events == [] then INITIAL else Step(Run(events[..|events| - 1]), events[|events| - 1])
  }

  // ---- the invariant ----

  function Handling(s: State): set<nat> { set h | h in s.hs && HoldsHandling(s.hs[h].pc) }

  function Slots(s: State): set<nat> { set h | h in s.hs && HoldsSlot(s.hs[h].pc) }

  ghost predicate Counted(s: State) {
    s.handling == |Handling(s)| <= HANDLING_CAP && s.slots == |Slots(s)| <= MAX_READS
  }

  predicate ReadSame(p: Handler, q: Handler) { Registered(p.pc) && Registered(q.pc) && p.peer == q.peer }

  ghost predicate PeersMatch(s: State) {
    && (forall h :: h in s.hs && Registered(s.hs[h].pc) ==> s.hs[h].peer in s.peers)
    && (forall h, k :: h in s.hs && k in s.hs && ReadSame(s.hs[h], s.hs[k]) ==> h == k)
    && (forall p :: p in s.peers ==> HasReader(s, p))
  }

  /** Each handler has returned every token it took, but for the one it holds. */
  predicate Balanced(p: Handler) {
    && p.handlingTaken == p.handlingBack + (if HoldsHandling(p.pc) then 1 else 0)
    && p.slotTaken == p.slotBack + (if HoldsSlot(p.pc) then 1 else 0)
  }

  ghost predicate Inv(s: State) {
    Counted(s) && PeersMatch(s) && forall h :: h in s.hs ==> Balanced(s.hs[h])
  }

  /** What a step does to the shared variables, said by what the handler holds before and after. */
  predicate Agrees(l: Local, l': Local) {
    && l'.handling == l.handling + One(HoldsHandling(l'.p.pc)) - One(HoldsHandling(l.p.pc))
    && l'.slots == l.slots + One(HoldsSlot(l'.p.pc)) - One(HoldsSlot(l.p.pc))
    && l'.handling <= HANDLING_CAP && l'.slots <= MAX_READS
    && l'.p.peer == l.p.peer
    && (if Registered(l'.p.pc) == Registered(l.p.pc) then l'.peers == l.peers
        else if Registered(l'.p.pc) then l.p.peer !in l.peers && l'.peers == l.peers + {l.p.peer}
        else l'.peers == l.peers - {l.p.peer})
    && Balanced(l'.p)
  }

  function One(b: bool): nat { if b then 1 else 0 }

  lemma MoveAgrees(l: Local, yes: bool)
    requires Balanced(l.p) && l.handling <= HANDLING_CAP && l.slots <= MAX_READS
    requires (HoldsHandling(l.p.pc) ==> l.handling > 0) && (HoldsSlot(l.p.pc) ==> l.slots > 0)
    ensures Agrees(l, Move1(l, yes))
  {
  }

  /** A release or a duplicate-path receive always finds a token: the handler's own is in the channel. */
  lemma NeverStarved(s: State, h: nat)
    requires Counted(s) && h in s.hs
    ensures HoldsHandling(s.hs[h].pc) ==> s.handling > 0
    ensures HoldsSlot(s.hs[h].pc) ==> s.slots > 0
  {
    if HoldsHandling(s.hs[h].pc) { assert h in Handling(s); }
    if HoldsSlot(s.hs[h].pc) { assert h in Slots(s); }
  }

  function With(xs: set<nat>, h: nat, inside: bool): set<nat> { if inside then xs + {h} else xs - {h} }

  lemma UpdateTokens(s: State, h: nat, l': Local)
    requires h in s.hs
    ensures Handling(Update(s, h, l')) == With(Handling(s), h, HoldsHandling(l'.p.pc))
    ensures Slots(Update(s, h, l')) == With(Slots(s), h, HoldsSlot(l'.p.pc))
  {
  }

  lemma UpdateCounted(s: State, h: nat, l': Local)
    requires Counted(s) && h in s.hs && Agrees(View(s, h), l')
    ensures Counted(Update(s, h, l'))
  {
    UpdateTokens(s, h, l');
  }

  ghost predicate HasReader(s: State, peer: nat) {
    exists h :: h in s.hs && Registered(s.hs[h].pc) && s.hs[h].peer == peer
  }

  lemma UpdatePeers(s: State, h: nat, l': Local)
    requires PeersMatch(s) && h in s.hs && Agrees(View(s, h), l')
    ensures PeersMatch(Update(s, h, l'))
  {
    var s' := Update(s, h, l');
    assert s'.hs[h] == l'.p;
    forall q | q in s'.peers
      ensures HasReader(s', q)
    {
      if q in s.peers {
        var k :| k in s.hs && Registered(s.hs[k].pc) && s.hs[k].peer == q;
        assert k in s'.hs && Registered(s'.hs[k].pc) && s'.hs[k].peer == q;
      }
    }
  }

  lemma UpdateKeeps(s: State, h: nat, l': Local)
    requires Inv(s) && h in s.hs && Agrees(View(s, h), l')
    ensures Inv(Update(s, h, l'))
  {
    UpdateCounted(s, h, l');
    UpdatePeers(s, h, l');
  }

  lemma ArrivePeers(s: State, h: nat, p: Handler)
    requires PeersMatch(s) && h !in s.hs && !Registered(p.pc)
    ensures PeersMatch(s.(hs := s.hs[h := p]))
  {
    var s' := s.(hs := s.hs[h := p]);
    forall q | q in s'.peers
      ensures HasReader(s', q)
    {
      var k :| k in s.hs && Registered(s.hs[k].pc) && s.hs[k].peer == q;
      assert k in s'.hs && s'.hs[k] == s.hs[k];
    }
  }

  lemma ArriveKeeps(s: State, h: nat, p: Handler)
    requires Inv(s) && h !in s.hs && Balanced(p) && !HoldsHandling(p.pc) && !HoldsSlot(p.pc) && !Registered(p.pc)
    ensures Inv(s.(hs := s.hs[h := p]))
  {
    var s' := s.(hs := s.hs[h := p]);
    assert Handling(s') == Handling(s) && Slots(s') == Slots(s);
    ArrivePeers(s, h, p);
  }

  lemma StepInv(s: State, e: Event)
    requires Inv(s)
    ensures Inv(Step(s, e))
  {
    match e
    case Arrive(h, peer) =>
      if h !in s.hs { ArriveKeeps(s, h, NewHandler(h, peer)); }
    case Move(h, yes) =>
      if h in s.hs {
        NeverStarved(s, h);
        MoveAgrees(View(s, h), yes);
        UpdateKeeps(s, h, Move1(View(s, h), yes));
      }
    case Timeout(h) =>
      if h in s.hs && s.hs[h].pc.WantSlot? { UpdateKeeps(s, h, At(View(s, h), Over)); }
  }

  lemma {:induction false} RunInv(events: seq<Event>)
    ensures Inv(Run(events))
  {
    if events != [] {
      RunInv(events[..|events| - 1]);
      StepInv(Run(events[..|events| - 1]), events[|events| - 1]);
    }
  }

  // ---- what every interleaving guarantees ----

  /** At most two body reads, at most one per peer. */
  lemma ReadsAreLimited(events: seq<Event>, h: nat, k: nat)
    ensures var s := Run(events);
      && |Slots(s)| <= MAX_READS
      && (h in s.hs && k in s.hs && ReadSame(s.hs[h], s.hs[k]) ==> h == k)
  {
    RunInv(events);
  }

  lemma OneHolder(s: State, h: nat, k: nat)
    requires Counted(s) && h in s.hs && k in s.hs
    requires HoldsHandling(s.hs[h].pc) && HoldsHandling(s.hs[k].pc)
    ensures h == k
  {
    assert {h, k} <= Handling(s);
    if h != k {
      assert |{h, k}| == 2;
      SubsetCard({h, k}, Handling(s));
    }
  }

  /** At most one handler is deciding on a proposal or has one handed off. */
  lemma OneDecides(events: seq<Event>, h: nat, k: nat)
    requires h in Run(events).hs && k in Run(events).hs
    requires HoldsHandling(Run(events).hs[h].pc) && HoldsHandling(Run(events).hs[k].pc)
    ensures h == k
  {
    RunInv(events);
    OneHolder(Run(events), h, k);
  }

  lemma {:induction false} SubsetCard(a: set<nat>, b: set<nat>)
    requires a <= b
    ensures |a| <= |b|
  {
    if a != {} {
      var x :| x in a;
      SubsetCard(a - {x}, b - {x});
    }
  }

  /** A handler that is over has returned each token it took, exactly once; one that is not can always
      return what it holds without waiting. */
  lemma TokensComeBack(events: seq<Event>, h: nat)
    requires h in Run(events).hs
    ensures var s := Run(events); var p := s.hs[h];
      && (p.pc.Over? ==> p.handlingTaken == p.handlingBack && p.slotTaken == p.slotBack)
      && (HoldsHandling(p.pc) ==> s.handling > 0)
      && (HoldsSlot(p.pc) ==> s.slots > 0)
  {
    RunInv(events);
    NeverStarved(Run(events), h);
  }

  // ---- accept and hand-off ----

  /** The engine has said yes to the handler once, or twice. */
  predicate PastFirst(pc: Pc) {
    (pc.FirstLeave? && pc.accept) || !(pc.WantFirst? || pc.FirstAccept? || pc.FirstLeave? || pc.Over?)
  }

  predicate InSecond(pc: Pc) { pc.SecondAccept? || pc.SecondLeave? || pc.Accepted? || pc.HandedOff? }

  /** The last call of the engine. */
  predicate LastCall(calls: seq<Call>, c: Call) { calls != [] && calls[|calls| - 1] == c }

  /** What the calls say of a handler. While it is between the engine's second yes and the end of the
      hand-off, nobody else has called the engine. */
  predicate Told(p: Handler, serial: nat, calls: seq<Call>) {
    && (HoldsHandling(p.pc) ==> p.token < serial)
    && (PastFirst(p.pc) ==> p.first < serial && Asked(p.id, p.first, true) in calls)
    && (InSecond(p.pc) ==> p.first < p.token)
    && (p.pc.Accepted? ==> LastCall(calls, Asked(p.id, p.token, true)))
    && (p.pc.HandedOff? ==> LastCall(calls, Notified(p.id, p.token)))
  }

  /** The hand-off at place i follows at once on the yes under the same token, and some time after a yes
      under an earlier token. */
  ghost predicate UnderAccept(calls: seq<Call>, i: nat)
    requires i < |calls| && calls[i].Notified?
  {
    && 0 < i && calls[i - 1] == Asked(calls[i].h, calls[i].token, true)
    && exists j :: 0 <= j < i - 1 && FirstYes(calls[j], calls[i])
  }

  predicate FirstYes(c: Call, n: Call) { c.Asked? && c.yes && c.h == n.h && c.token < n.token }

  ghost predicate AllUnderAccept(calls: seq<Call>) {
    forall i :: 0 <= i < |calls| && calls[i].Notified? ==> UnderAccept(calls, i)
  }

  ghost predicate CallsInv(s: State) {
    && AllUnderAccept(s.calls)
    && forall h :: h in s.hs ==> s.hs[h].id == h && Told(s.hs[h], s.serial, s.calls)
  }

  /** A step calls the engine at most once, and only with a token in hand. */
  lemma MoveCalls(l: Local, yes: bool)
    ensures var l' := Move1(l, yes);
      && l.serial <= l'.serial && l'.p.id == l.p.id
      && (l'.calls == l.calls ||
          (HoldsHandling(l.p.pc) && |l'.calls| == |l.calls| + 1 && l.calls <= l'.calls))
  {
  }

  lemma MoveTold(l: Local, yes: bool)
    requires Told(l.p, l.serial, l.calls)
    ensures Told(Move1(l, yes).p, Move1(l, yes).serial, Move1(l, yes).calls)
  {
    if HoldsHandling(l.p.pc) { HolderTold(l, yes); } else { OtherTold(l, yes); }
  }

  lemma HolderTold(l: Local, yes: bool)
    requires Told(l.p, l.serial, l.calls) && HoldsHandling(l.p.pc)
    ensures Told(Move1(l, yes).p, Move1(l, yes).serial, Move1(l, yes).calls)
  {
    assert forall c :: c in l.calls ==> c in Move1(l, yes).calls;
  }

  lemma OtherTold(l: Local, yes: bool)
    requires Told(l.p, l.serial, l.calls) && !HoldsHandling(l.p.pc)
    ensures Told(Move1(l, yes).p, Move1(l, yes).serial, Move1(l, yes).calls)
  {
    assert Move1(l, yes).calls == l.calls && l.serial <= Move1(l, yes).serial;
  }

  lemma MoreCalls(calls: seq<Call>, c: Call)
    requires AllUnderAccept(calls) && (c.Notified? ==> UnderAccept(calls + [c], |calls|))
    ensures AllUnderAccept(calls + [c])
  {
    forall i | 0 <= i < |calls| + 1 && (calls + [c])[i].Notified? ensures UnderAccept(calls + [c], i) {
      if i < |calls| {
        var j :| 0 <= j < i - 1 && FirstYes(calls[j], calls[i]);
        assert FirstYes((calls + [c])[j], (calls + [c])[i]);
      }
    }
  }

  lemma MoveUnderAccept(l: Local, yes: bool)
    requires Told(l.p, l.serial, l.calls) && AllUnderAccept(l.calls)
    ensures AllUnderAccept(Move1(l, yes).calls)
  {
    var l' := Move1(l, yes);
    if l.p.pc.Accepted? {
      var c := Notified(l.p.id, l.p.token);
      var j :| 0 <= j < |l.calls| && l.calls[j] == Asked(l.p.id, l.p.first, true);
      assert FirstYes((l.calls + [c])[j], (l.calls + [c])[|l.calls|]);
      MoreCalls(l.calls, c);
    } else if l'.calls != l.calls {
      MoreCalls(l.calls, l'.calls[|l.calls|]);
    }
  }

  lemma MoveCallsInv(s: State, h: nat, yes: bool)
    requires Inv(s) && CallsInv(s) && h in s.hs
    ensures CallsInv(Update(s, h, Move1(View(s, h), yes)))
  {
    var l := View(s, h);
    var l' := Move1(l, yes);
    MoveCalls(l, yes);
    MoveTold(l, yes);
    MoveUnderAccept(l, yes);
    forall k | k in s.hs && k != h ensures Told(s.hs[k], l'.serial, l'.calls) {
      if HoldsHandling(s.hs[k].pc) && HoldsHandling(l.p.pc) { OneHolder(s, h, k); }
    }
  }

  lemma StepCalls(s: State, e: Event)
    requires Inv(s) && CallsInv(s)
    ensures CallsInv(Step(s, e))
  {
    if e.Move? && e.h in s.hs { MoveCallsInv(s, e.h, e.yes); }
  }

  lemma {:induction false} RunCalls(events: seq<Event>)
    ensures CallsInv(Run(events))
  {
    if events != [] {
      RunCalls(events[..|events| - 1]);
      RunInv(events[..|events| - 1]);
      StepCalls(Run(events[..|events| - 1]), events[|events| - 1]);
    }
  }

  /** Over every run: a hand-off comes directly after the engine's yes to the same handler under the same
      token, with no call of another handler between, and after an earlier yes under another token. */
  lemma HandOffUnderAccept(events: seq<Event>, i: nat)
    requires i < |Run(events).calls| && Run(events).calls[i].Notified?
    ensures UnderAccept(Run(events).calls, i)
  {
    RunCalls(events);
  }

  /** While the engine works on a proposal, its token is out, no handler is in an accept section, and
      nobody has called the engine since the hand-off. */
  lemma HandOffIsAlone(events: seq<Event>, h: nat, k: nat)
    requires h in Run(events).hs && k in Run(events).hs && Run(events).hs[h].pc.HandedOff?
    ensures var s := Run(events);
      && s.handling == HANDLING_CAP
      && LastCall(s.calls, Notified(h, s.hs[h].token))
      && (HoldsHandling(s.hs[k].pc) ==> k == h)
  {
    RunCalls(events);
    RunInv(events);
    NeverStarved(Run(events), h);
    if HoldsHandling(Run(events).hs[k].pc) { OneDecides(events, h, k); }
  }
}
