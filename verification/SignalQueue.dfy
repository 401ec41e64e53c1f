/** The per-peer queue that serializes transaction announcements (node/nogossip.go). Channels hold
    one token each and are pooled; every operation runs under the mutex or is a channel receive, so an
    interleaving is a sequence of these operations. */
module SignalQueue {
  const TX_QUEUE_CAP := 4000

  datatype Status = Waiting | Holding | Finished | Cancelled

  /** A successful enqueue: its channel, and how far its caller has got. */
  datatype Ticket = Ticket(ch: nat, status: Status)

  /** `full` are the channels with a token in their buffer; channels are numbered as they are made.
      `granted` counts the tickets whose channel was sent a token; it is history. */
  datatype Queue = Queue(
    active: bool, q: seq<nat>, pool: set<nat>, full: set<nat>, made: nat, tickets: seq<Ticket>, granted: nat)

  const NEW_QUEUE := Queue(false, [], {}, {}, 0, [], 0)

  /** A channel that sync.Pool's Get may return: a pooled one, or a new one. */
  predicate Obtainable(s: Queue, ch: nat) { ch in s.pool || ch == s.made }

  predicate IsFull(s: Queue) { s.active && |s.q| >= TX_QUEUE_CAP }

  // ---- operations ----

  function TryEnqueue(s: Queue, ch: nat): Queue {
    if IsFull(s) then s
    else
      var s1 := s.(pool := s.pool - {ch}, made := if ch == s.made then s.made + 1 else s.made,
                   tickets := s.tickets + [Ticket(ch, Waiting)]);
      if s.active then s1.(q := s.q + [ch])
      else s1.(active := true, full := s.full + {ch}, granted := s.granted + 1)
  }

  function Next(s: Queue): Queue {
    if s.q == [] then s.(active := false)
    else s.(q := s.q[1..], full := s.full + {s.q[0]}, granted := s.granted + 1, active := true)
  }

  predicate CanFinish(s: Queue, t: nat) { t < |s.tickets| && s.tickets[t].status == Holding }

  /** The done function of ticket t: signal the next, return the channel to the pool. */
  function Done(s: Queue, t: nat): Queue {
    if !CanFinish(s, t) then s
    else
      var s1 := Next(s);
      s1.(pool := s1.pool + {s.tickets[t].ch}, tickets := s1.tickets[t := s.tickets[t].(status := Finished)])
  }

  predicate CanReceive(s: Queue, t: nat) {
    t < |s.tickets| && s.tickets[t].status == Waiting && s.tickets[t].ch in s.full
  }

  function Receive(s: Queue, t: nat): Queue {
    if !CanReceive(s, t) then s
    else s.(full := s.full - {s.tickets[t].ch}, tickets := s.tickets[t := s.tickets[t].(status := Holding)])
  }

  /** The caller's context ends while it waits; it neither receives nor calls done. */
  function Cancel(s: Queue, t: nat): Queue {
    if t < |s.tickets| && s.tickets[t].status == Waiting
    then s.(tickets := s.tickets[t := s.tickets[t].(status := Cancelled)])
    else s
  }

  datatype Event = DoEnqueue(ch: nat) | DoReceive(t: nat) | DoDone(t: nat) | DoCancel(t: nat)

  function Step(s: Queue, e: Event): Queue {
    match e
    case DoEnqueue(ch) => if Obtainable(s, ch) then TryEnqueue(s, ch) else s
    case DoReceive(t) => Receive(s, t)
    case DoDone(t) => Done(s, t)
    case DoCancel(t) => Cancel(s, t)
  }

  function Run(events: seq<Event>): Queue {
    if events == [] then NEW_QUEUE else Step(Run(events[..|events| - 1]), events[|events| - 1])
  }

  // ---- the invariant ----

  /** A ticket that still has its channel. */
  predicate Owns(s: Queue, t: nat) { t < |s.tickets| && s.tickets[t].status != Finished }

  ghost predicate ChannelsApart(s: Queue) {
    && (forall ch :: ch in s.pool ==> ch < s.made && ch !in s.full)
    && (forall t: nat :: Owns(s, t) ==> s.tickets[t].ch < s.made && s.tickets[t].ch !in s.pool)
    && (forall t: nat, u: nat :: Owns(s, t) && Owns(s, u) && t != u ==> s.tickets[t].ch != s.tickets[u].ch)
  }

  /** The tickets granted so far are the first ones; the queue holds the others, in order. */
  ghost predicate InOrder(s: Queue) {
    && s.granted <= |s.tickets|
    && |s.q| == |s.tickets| - s.granted
    && (forall i :: 0 <= i < |s.q| ==> s.q[i] == s.tickets[s.granted + i].ch)
    && (forall t :: s.granted <= t < |s.tickets| ==> s.tickets[t].status == Waiting || s.tickets[t].status == Cancelled)
  }

  /** The ticket that was granted last, while it is not finished. */
  predicate Current(s: Queue, t: nat) { s.active && t == s.granted - 1 && t < |s.tickets| }

  ghost predicate OneAtATime(s: Queue) {
    && s.granted <= |s.tickets|
    && (s.active ==> s.granted > 0 && s.tickets[s.granted - 1].status != Finished)
    && (!s.active ==> s.q == [])
    && (forall t :: 0 <= t < s.granted && !Current(s, t) ==> s.tickets[t].status == Finished)
    && s.full == (if s.active && s.tickets[s.granted - 1].status != Holding then {s.tickets[s.granted - 1].ch} else {})
  }

  ghost predicate Inv(s: Queue) {
    ChannelsApart(s) && InOrder(s) && OneAtATime(s) && |s.q| <= TX_QUEUE_CAP
  }

  lemma EnqueueApart(s: Queue, ch: nat)
    requires Inv(s) && Obtainable(s, ch)
    ensures ChannelsApart(TryEnqueue(s, ch)) && ch !in s.full
  {
    assert s.active ==> Owns(s, s.granted - 1);
    if !IsFull(s) {
      var s' := TryEnqueue(s, ch);
      assert forall t: nat :: Owns(s', t) && t < |s.tickets| ==> Owns(s, t) && s'.tickets[t] == s.tickets[t];
    }
  }

  lemma EnqueueInOrder(s: Queue, ch: nat)
    requires Inv(s) && Obtainable(s, ch)
    ensures InOrder(TryEnqueue(s, ch)) && OneAtATime(TryEnqueue(s, ch))
  {
  }

  lemma EnqueueKeeps(s: Queue, ch: nat)
    requires Inv(s) && Obtainable(s, ch)
    ensures Inv(TryEnqueue(s, ch)) && ch !in s.full
  {
    EnqueueApart(s, ch);
    EnqueueInOrder(s, ch);
  }

  lemma HolderIsCurrent(s: Queue, t: nat)
    requires Inv(s) && t < |s.tickets| && (s.tickets[t].status == Holding || (s.tickets[t].ch in s.full && Owns(s, t)))
    ensures Current(s, t)
  {
    assert s.active ==> Owns(s, s.granted - 1);
    assert Owns(s, t);
  }

  lemma NextKeeps(s: Queue, t: nat)
    requires Inv(s) && CanFinish(s, t)
    ensures s.full == {} && Inv(Done(s, t))
  {
    HolderIsCurrent(s, t);
    var s' := Done(s, t);
    assert forall u: nat :: Owns(s', u) ==> Owns(s, u) && u != t && s'.tickets[u] == s.tickets[u];
    assert Owns(s, t);
    if s.q != [] {
      assert s'.granted - 1 == s.granted && s'.tickets[s.granted] == s.tickets[s.granted];
    }
  }

  lemma ReceiveKeeps(s: Queue, t: nat)
    requires Inv(s)
    ensures Inv(Receive(s, t))
  {
    if CanReceive(s, t) {
      HolderIsCurrent(s, t);
      var s' := Receive(s, t);
      assert forall u: nat :: Owns(s', u) <==> Owns(s, u);
    }
  }

  lemma CancelApart(s: Queue, t: nat)
    requires ChannelsApart(s)
    ensures ChannelsApart(Cancel(s, t))
  {
    var s' := Cancel(s, t);
    assert forall u: nat :: Owns(s', u) ==> Owns(s, u) && s'.tickets[u].ch == s.tickets[u].ch;
  }

  lemma CancelKeeps(s: Queue, t: nat)
    requires Inv(s)
    ensures Inv(Cancel(s, t))
  {
    CancelApart(s, t);
    assert forall u :: 0 <= u < |s.tickets| ==> Cancel(s, t).tickets[u].ch == s.tickets[u].ch;
  }

  lemma {:induction false} RunInv(events: seq<Event>)
    ensures Inv(Run(events))
  {
    if events != [] {
      var s := Run(events[..|events| - 1]);
      RunInv(events[..|events| - 1]);
      match events[|events| - 1]
      case DoEnqueue(ch) => if Obtainable(s, ch) { EnqueueKeeps(s, ch); }
      case DoReceive(t) => ReceiveKeeps(s, t);
      case DoDone(t) => if CanFinish(s, t) { NextKeeps(s, t); }
      case DoCancel(t) => CancelKeeps(s, t);
    }
  }

  // ---- what every interleaving guarantees ----

  /** Ticket t has a token waiting for it, or holds one. */
  predicate Served(s: Queue, t: nat) {
    t < |s.tickets| && (s.tickets[t].status == Holding || (Owns(s, t) && s.tickets[t].ch in s.full))
  }

  /** Never two tokens or holders, never more waiting than the cap; tokens go out in the order of
      successful enqueues. */
  lemma AtMostOneServed(events: seq<Event>, t: nat, u: nat)
    ensures var s := Run(events);
      && (Served(s, t) && Served(s, u) ==> t == u)
      && |s.full| <= 1
      && |s.q| <= TX_QUEUE_CAP
  {
    var s := Run(events);
    RunInv(events);
    if Served(s, t) { HolderIsCurrent(s, t); }
    if Served(s, u) { HolderIsCurrent(s, u); }
  }

  /** A ticket is granted only after every earlier one has finished. */
  lemma GrantsInOrder(events: seq<Event>, t: nat, u: nat)
    requires t < u && Served(Run(events), u)
    ensures Run(events).tickets[t].status == Finished
  {
    RunInv(events);
    HolderIsCurrent(Run(events), u);
  }

  // ---- progress ----

  /** Some caller can take a token or give one back. */
  ghost predicate CanMove(s: Queue) { exists t: nat :: CanReceive(s, t) || CanFinish(s, t) }

  /** Over every run: an active queue moves on exactly if its turn has not gone to a caller that gave up;
      and in a queue that is not active nobody waits. */
  lemma MovesIff(events: seq<Event>)
    ensures var s := Run(events);
      && (!s.active ==> s.q == [])
      && (s.active ==> 0 < s.granted <= |s.tickets|)
      && (s.active ==> (CanMove(s) <==> s.tickets[s.granted - 1].status != Cancelled))
  {
    var s := Run(events);
    RunInv(events);
    if s.active {
      var c := s.granted - 1;
      if s.tickets[c].status == Cancelled {
        forall t: nat | CanReceive(s, t) || CanFinish(s, t) ensures false { HolderIsCurrent(s, t); }
      } else {
        assert CanReceive(s, c) || CanFinish(s, c);
      }
    }
  }

  /** With no cancelled waiter, whoever waits, waits behind a caller that can move. */
  lemma NeverStalls(events: seq<Event>)
    requires forall t :: 0 <= t < |Run(events).tickets| ==> Run(events).tickets[t].status != Cancelled
    ensures Run(events).q != [] ==> CanMove(Run(events))
  {
    MovesIff(events);
  }

  lemma RunMore(events: seq<Event>, more: seq<Event>, e: Event)
    ensures Run(events + (more + [e])) == Step(Run(events + more), e)
  {
    var all := events + (more + [e]);
    assert all[..|all| - 1] == events + more;
  }

  predicate HasStatus(s: Queue, t: nat, status: Status) { t < |s.tickets| && s.tickets[t].status == status }

  lemma StepStays(s: Queue, e: Event, u: nat)
    ensures HasStatus(s, u, Cancelled) ==> HasStatus(Step(s, e), u, Cancelled)
    ensures s.granted <= Step(s, e).granted
  {
  }

  /** A caller that gave up never comes back, so its ticket is never finished. */
  lemma {:induction false} CancelledStays(events: seq<Event>, more: seq<Event>, u: nat)
    requires HasStatus(Run(events), u, Cancelled)
    ensures HasStatus(Run(events + more), u, Cancelled)
  {
    if more == [] {
      assert events + more == events;
    } else {
      var init := more[..|more| - 1];
      CancelledStays(events, init, u);
      StepStays(Run(events + init), more[|more| - 1], u);
      RunMore(events, init, more[|more| - 1]);
      assert init + [more[|more| - 1]] == more;
    }
  }

  /** Once a cancelled waiter is granted its turn, no continuation lets anyone move again. */
  lemma CancelledStalls(events: seq<Event>, more: seq<Event>)
    requires Run(events).active && 0 < Run(events).granted <= |Run(events).tickets|
    requires Run(events).tickets[Run(events).granted - 1].status == Cancelled
    ensures !CanMove(Run(events + more))
  {
    var s, u := Run(events + more), Run(events).granted - 1;
    CancelledStays(events, more, u);
    RunInv(events + more);
    forall t: nat | CanReceive(s, t) || CanFinish(s, t) ensures false {
      HolderIsCurrent(s, t);
      GrantedGrows(events, more);
    }
  }

  lemma {:induction false} GrantedGrows(events: seq<Event>, more: seq<Event>)
    ensures Run(events).granted <= Run(events + more).granted
  {
    if more == [] {
      assert events + more == events;
    } else {
      var init := more[..|more| - 1];
      GrantedGrows(events, init);
      StepStays(Run(events + init), more[|more| - 1], 0);
      RunMore(events, init, more[|more| - 1]);
      assert init + [more[|more| - 1]] == more;
    }
  }

  /** Three events are enough: one caller enqueues and gives up, the next one waits for good. */
  lemma CancelledInput()
    ensures var s := Run([DoEnqueue(0), DoCancel(0), DoEnqueue(1)]);
      s.active && s.q == [1] && HasStatus(s, 1, Waiting) && !CanMove(s)
  {
    var es := [DoEnqueue(0), DoCancel(0), DoEnqueue(1)];
    assert es[..2] == [DoEnqueue(0), DoCancel(0)] && es[..2][..1] == [DoEnqueue(0)] && es[..2][..1][..0] == [];
    assert Run([DoEnqueue(0)]) == Queue(true, [], {}, {0}, 1, [Ticket(0, Waiting)], 1);
    assert Run(es[..2]) == Queue(true, [], {}, {0}, 1, [Ticket(0, Cancelled)], 1);
    assert Run(es) == Queue(true, [1], {}, {0}, 2, [Ticket(0, Cancelled), Ticket(1, Waiting)], 1);
  }

  ghost predicate NoneCancelledBefore(s: Queue, t: nat) {
    t <= |s.tickets| && forall u :: 0 <= u < t ==> s.tickets[u].status != Cancelled
  }

  /** A run that brings a waiting ticket its turn: the ones before it receive and finish. */
  lemma {:induction false} Serve(events: seq<Event>, t: nat) returns (more: seq<Event>)
    requires HasStatus(Run(events), t, Waiting) && NoneCancelledBefore(Run(events), t)
    ensures HasStatus(Run(events + more), t, Holding)
    decreases t - Run(events).granted + 1
  {
    var s := Run(events);
    RunInv(events);
    if t < s.granted {
      assert Current(s, t) && CanReceive(s, t);
      more := [DoReceive(t)];
      RunMore(events, [], DoReceive(t));
      assert events + [] == events && [] + [DoReceive(t)] == more;
    } else {
      var turn := FinishTurn(events, t);
      var rest := Serve(events + turn, t);
      more := turn + rest;
      assert events + more == events + turn + rest;
    }
  }

  /** The caller whose turn it is receives, if it has not, and finishes. */
  lemma FinishTurn(events: seq<Event>, t: nat) returns (turn: seq<Event>)
    requires HasStatus(Run(events), t, Waiting) && NoneCancelledBefore(Run(events), t) && t >= Run(events).granted
    ensures var s' := Run(events + turn);
      HasStatus(s', t, Waiting) && NoneCancelledBefore(s', t) && s'.granted == Run(events).granted + 1
  {
    var s := Run(events);
    RunInv(events);
    assert s.q != [] && s.active;
    var c := s.granted - 1;
    turn := if s.tickets[c].status == Waiting then [DoReceive(c)] else [];
    assert CanReceive(s, c) || CanFinish(s, c);
    RunMore(events, [], DoReceive(c));
    assert events + [] == events && [] + [DoReceive(c)] == [DoReceive(c)];
    var s1 := Run(events + turn);
    assert s1.tickets == s.tickets[c := s.tickets[c].(status := Holding)] && s1.q == s.q && s1.granted == s.granted;
    RunMore(events, turn, DoDone(c));
    turn := turn + [DoDone(c)];
  }

  /** Whoever waits can still be served if and only if nobody before has given up. */
  lemma ServableIff(events: seq<Event>, t: nat)
    requires HasStatus(Run(events), t, Waiting)
    ensures (exists more :: HasStatus(Run(events + more), t, Holding)) <==> NoneCancelledBefore(Run(events), t)
  {
    if NoneCancelledBefore(Run(events), t) {
      var more := Serve(events, t);
    } else {
      var u :| 0 <= u < t && Run(events).tickets[u].status == Cancelled;
      forall more ensures !HasStatus(Run(events + more), t, Holding) {
        CancelledStays(events, more, u);
        if HasStatus(Run(events + more), t, Holding) { GrantsInOrder(events + more, u, t); }
      }
    }
  }

  // ---- the queue as the source keeps it ----

  class SignallingQueue {
    var active: bool
    var q: seq<nat>
    var pool: set<nat>
    var full: set<nat>
    var made: nat
    ghost var tickets: seq<Ticket>
    ghost var granted: nat

    ghost function State(): Queue
      reads this
    {
      Queue(active, q, pool, full, made, tickets, granted)
    }

    constructor ()
      ensures State() == NEW_QUEUE
    {
      active, q, pool, full, made, tickets, granted := false, [], {}, {}, 0, [], 0;
    }

    /** A send on a channel of capacity one; it would block on a full one. */
    method Send(c: nat)
      requires c !in full
      modifies this`full
      ensures full == old(full) + {c}
    {
      full := full + {c};
    }

    /** sync.Pool: Get may hand out any pooled channel, or make a new one. */
    method Get() returns (c: nat)
      requires Inv(State())
      modifies this`pool, this`made
      ensures Obtainable(old(State()), c)
      ensures pool == old(pool) - {c} && made == if c == old(made) then old(made) + 1 else old(made)
    {
      var reuse: bool := *;
      if reuse && pool != {} {
        c :| c in pool;
        pool := pool - {c};
      } else {
        c := made;
        made := made + 1;
      }
    }

    /** tryEnqueue: false when full. The send of the first token never blocks. */
    method Enqueue() returns (c: nat, ok: bool)
      requires Inv(State())
      modifies this
      ensures ok <==> !IsFull(old(State()))
      ensures ok ==> Obtainable(old(State()), c) && State() == TryEnqueue(old(State()), c)
      ensures !ok ==> State() == old(State())
      ensures Inv(State())
    {
      c := 0;
      if active && |q| >= TX_QUEUE_CAP { return c, false; }
      ghost var was := State();
      c := Get();
      EnqueueKeeps(was, c);
      if active {
        q := q + [c];
      } else {
        active := true;
        Send(c);
        granted := granted + 1;
      }
      tickets := tickets + [Ticket(c, Waiting)];
      ok := true;
    }

    /** next: under the mutex, and its send never blocks. */
    method SignalNext()
      requires full == {}
      modifies this
      ensures State() == Next(old(State()))
    {
      if |q| == 0 {
        active := false;
        return;
      }
      var c := q[0];
      q := q[1..];
      Send(c);
      granted := granted + 1;
      active := true;
    }

    /** The closure that tryEnqueue returns, called once by a caller that received its token. */
    method CallDone(c: nat, ghost t: nat)
      requires Inv(State()) && CanFinish(State(), t) && tickets[t].ch == c
      modifies this
      ensures State() == Done(old(State()), t) && Inv(State())
    {
      NextKeeps(State(), t);
      SignalNext();
      pool := pool + {c};
      tickets := tickets[t := tickets[t].(status := Finished)];
    }
  }
}
