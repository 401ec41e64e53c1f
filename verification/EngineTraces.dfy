/** The stage timer of Engine.Call (common/engine_trace.go): a stack of open stages and one accumulator per stage
    key. Times are in nanoseconds and the clock readings are arguments. */
module EngineTraces {
  import opened Bytes
  import Sorting

  datatype Key = Key(kind: seq<byte>, namespace: seq<byte>, name: seq<byte>, parent: seq<byte>)

  datatype Acc = Acc(count: int, total: int, exclusive: int, max: int)

  datatype Frame = Frame(key: Key, started: int, childWall: int)

  datatype Trace = Trace(stages: map<Key, Acc>, stack: seq<Frame>)

  // ---- one step ----

  function Opened(t: Trace, key: Key, now: int): Trace { t.(stack := t.stack + [Frame(key, now, 0)]) }

  function Recorded(acc: Acc, elapsed: int, exclusive: int): Acc {
    Acc(acc.count + 1, acc.total + elapsed, acc.exclusive + exclusive,
        if exclusive > acc.max then exclusive else acc.max)
  }

  function AccOf(stages: map<Key, Acc>, key: Key): Acc { if key in stages then stages[key] else Acc(0, 0, 0, 0) }

  /** The stack without its top, whose elapsed time is charged to the frame below. */
  function Popped(stack: seq<Frame>, elapsed: int): seq<Frame>
    requires stack != []
  {
    var n := |stack| - 1;
    if n == 0 then [] else stack[..n - 1] + [stack[n - 1].(childWall := stack[n - 1].childWall + elapsed)]
  }

  function Exclusive(f: Frame, now: int): int {
    var exclusive := now - f.started - f.childWall;
    if exclusive < 0 then 0 else exclusive
  }

  function Closed(t: Trace, now: int): Trace {
    if t.stack == [] then t else
    var f := t.stack[|t.stack| - 1];
    Trace(t.stages[f.key := Recorded(AccOf(t.stages, f.key), now - f.started, Exclusive(f, now))],
          Popped(t.stack, now - f.started))
  }

  class EngineTrace {
    var stages: map<Key, Acc>
    var stack: seq<Frame>

    ghost function Value(): Trace
      reads this
    {
      Trace(stages, stack)
    }

    constructor ()
      ensures Value() == Trace(map[], [])
    {
      stages, stack := map[], [];
    }

    method Start(key: Key, now: int)
      modifies this
      ensures Value() == Opened(old(Value()), key, now)
    {
      stack := stack + [Frame(key, now, 0)];
    }

    /** The function that Start returns. It closes whichever stage is innermost. */
    method Close(now: int)
      modifies this
      ensures Value() == Closed(old(Value()), now)
    {
      if |stack| == 0 {
        return;
      }
      var frame := stack[|stack| - 1];
      stack := stack[..|stack| - 1];
      var elapsed := now - frame.started;
      var exclusive := elapsed - frame.childWall;
      if exclusive < 0 {
        exclusive := 0;
      }
      var acc := Acc(0, 0, 0, 0);
      if frame.key in stages {
        acc := stages[frame.key];
      }
      acc := acc.(count := acc.count + 1);
      acc := acc.(total := acc.total + elapsed);
      acc := acc.(exclusive := acc.exclusive + exclusive);
      if exclusive > acc.max {
        acc := acc.(max := exclusive);
      }
      stages := stages[frame.key := acc];
      if |stack| > 0 {
        var top := stack[|stack| - 1];
        stack := stack[|stack| - 1 := top.(childWall := top.childWall + elapsed)];
      }
    }

    /** The aggregates, whatever order the map yields them in: one list, largest exclusive time first. */
    method Stages() returns (out: seq<Stage>)
      ensures Sorting.Sorted(Before, out)
      ensures forall st :: st in out <==> IsStage(stages, st)
    {
      var todo := stages.Keys;
      out := [];
      while todo != {}
        invariant todo <= stages.Keys
        invariant forall st :: st in out <==> IsStage(stages, st) && KeyOf(st) !in todo
        invariant forall i, j :: 0 <= i < j < |out| ==> KeyOf(out[i]) != KeyOf(out[j])
        decreases |todo|
      {
        var key :| key in todo;
        out := out + [StageOf(key, stages[key])];
        todo := todo - {key};
      }
      BeforeIsOrder();
      KeysComparable(out);
      var sorted := Sorting.Sort(Before, out);
      forall st ensures st in sorted <==> st in out {
        Sorting.InMultiset(sorted, st);
        Sorting.InMultiset(out, st);
      }
      out := sorted;
    }
  }

  // ---- the report ----

  datatype Stage = Stage(kind: seq<byte>, namespace: seq<byte>, name: seq<byte>, parent: seq<byte>,
                         count: int, totalMs: int, exclusiveMs: int, maxMs: int)

  /** Division of Go durations truncates toward zero. */
  function Milliseconds(d: int): int { if d >= 0 then d / 1_000_000 else -(-d / 1_000_000) }

  function StageOf(key: Key, acc: Acc): Stage {
    Stage(key.kind, key.namespace, key.name, key.parent, acc.count,
          Milliseconds(acc.total), Milliseconds(acc.exclusive), Milliseconds(acc.max))
  }

  function KeyOf(st: Stage): Key { Key(st.kind, st.namespace, st.name, st.parent) }

  /** st reports the accumulator of its key, in whole milliseconds. */
  predicate IsStage(stages: map<Key, Acc>, st: Stage) {
    && KeyOf(st) in stages
    && var acc := stages[KeyOf(st)];
       && st.count == acc.count
       && st.totalMs == Milliseconds(acc.total)
       && st.exclusiveMs == Milliseconds(acc.exclusive)
       && st.maxMs == Milliseconds(acc.max)
  }

  predicate KeyBefore(a: Key, b: Key) {
    if a.kind != b.kind then Sorting.StringLess(a.kind, b.kind)
    else if a.namespace != b.namespace then Sorting.StringLess(a.namespace, b.namespace)
    else if a.name != b.name then Sorting.StringLess(a.name, b.name)
    else Sorting.StringLess(a.parent, b.parent)
  }

  predicate Before(a: Stage, b: Stage) {
    if a.exclusiveMs != b.exclusiveMs then a.exclusiveMs > b.exclusiveMs else KeyBefore(KeyOf(a), KeyOf(b))
  }

  lemma KeyBeforeTotal(a: Key, b: Key)
    ensures !KeyBefore(a, a)
    ensures a == b || KeyBefore(a, b) || KeyBefore(b, a)
  {
    Sorting.StringLessOrder(a.kind, b.kind);
    Sorting.StringLessOrder(a.namespace, b.namespace);
    Sorting.StringLessOrder(a.name, b.name);
    Sorting.StringLessOrder(a.parent, b.parent);
  }

  lemma StringStep(a: seq<byte>, b: seq<byte>, c: seq<byte>)
    ensures Sorting.StringLess(a, b) && Sorting.StringLess(b, c) ==> Sorting.StringLess(a, c) && a != c
  {
    if Sorting.StringLess(a, b) && Sorting.StringLess(b, c) {
      Sorting.StringLessTransitive(a, b, c);
      Sorting.StringLessOrder(a, a);
    }
  }

  lemma KeyBeforeTransitive(a: Key, b: Key, c: Key)
    requires KeyBefore(a, b) && KeyBefore(b, c)
    ensures KeyBefore(a, c)
  {
    StringStep(a.kind, b.kind, c.kind);
    StringStep(a.namespace, b.namespace, c.namespace);
    StringStep(a.name, b.name, c.name);
    StringStep(a.parent, b.parent, c.parent);
  }

  lemma BeforeIsOrder()
    ensures Sorting.Transitive(Before) && Sorting.Irreflexive(Before)
  {
    forall a, b, c | Before(a, b) && Before(b, c) ensures Before(a, c) {
      if a.exclusiveMs == b.exclusiveMs == c.exclusiveMs { KeyBeforeTransitive(KeyOf(a), KeyOf(b), KeyOf(c)); }
    }
    forall a: Stage ensures !Before(a, a) { KeyBeforeTotal(KeyOf(a), KeyOf(a)); }
  }

  lemma KeysComparable(xs: seq<Stage>)
    requires forall i, j :: 0 <= i < j < |xs| ==> KeyOf(xs[i]) != KeyOf(xs[j])
    ensures Sorting.Comparable(Before, xs)
  {
    forall i, j | 0 <= i < j < |xs| ensures Before(xs[i], xs[j]) || Before(xs[j], xs[i]) {
      KeyBeforeTotal(KeyOf(xs[i]), KeyOf(xs[j]));
    }
  }

  /** The report depends on the recorded stages alone: two sorted lists of them are equal. */
  lemma OneReport(stages: map<Key, Acc>, xs: seq<Stage>, ys: seq<Stage>)
    requires Sorting.Sorted(Before, xs) && Sorting.Sorted(Before, ys)
    requires forall st :: st in xs <==> IsStage(stages, st)
    requires forall st :: st in ys <==> IsStage(stages, st)
    ensures xs == ys
  {
    BeforeIsOrder();
    Sorting.SortedUnique(Before, xs, ys);
  }

  // ---- runs under a clock that does not go back ----

  datatype Event = Open(key: Key, at: int) | Close(at: int)

  function Step(t: Trace, e: Event): Trace {
    match e
    case Open(key, at) => Opened(t, key, at)
    case Close(at) => Closed(t, at)
  }

  /** The trace after the first n events. */
  function Run(events: seq<Event>, n: nat): Trace
    requires n <= |events|
  {
    if n == 0 then Trace(map[], []) else Step(Run(events, n - 1), events[n - 1])
  }

  predicate Monotone(events: seq<Event>) {
    forall i, j :: 0 <= i < j < |events| ==> events[i].at <= events[j].at
  }

  function Now(events: seq<Event>, n: nat): int
    requires n <= |events|
  {
    if n == 0 then 0 else events[n - 1].at
  }

  /** Wall time during which the innermost open stage had the key k. */
  function TopTime(events: seq<Event>, n: nat, k: Key): int
    requires n <= |events|
  {
    if n == 0 then 0 else
    var stack := Run(events, n - 1).stack;
    TopTime(events, n - 1, k) +
    if stack != [] && stack[|stack| - 1].key == k then Now(events, n) - Now(events, n - 1) else 0
  }

  /** Time that the open frames of key k have spent innermost, when the top one has run until `now`. */
  function OwnTime(stack: seq<Frame>, now: int, k: Key): int {
    if stack == [] then 0 else
    var top := stack[|stack| - 1];
    (if top.key == k then now - top.started - top.childWall else 0) + OwnTime(stack[..|stack| - 1], top.started, k)
  }

  /** No frame was charged more child time than passed since it was opened. */
  predicate Nested(stack: seq<Frame>, now: int) {
    if stack == [] then true else
    var top := stack[|stack| - 1];
    0 <= top.childWall <= now - top.started && Nested(stack[..|stack| - 1], top.started)
  }

  lemma OpenKeeps(t: Trace, key: Key, now: int, k: Key)
    requires Nested(t.stack, now)
    ensures Nested(Opened(t, key, now).stack, now)
    ensures OwnTime(Opened(t, key, now).stack, now, k) == OwnTime(t.stack, now, k)
  {
    var s := t.stack + [Frame(key, now, 0)];
    assert s[..|s| - 1] == t.stack;
  }

  lemma PoppedKeeps(stack: seq<Frame>, now: int, k: Key)
    requires stack != [] && Nested(stack, now)
    ensures var top := stack[|stack| - 1];
      && Nested(Popped(stack, now - top.started), now)
      && OwnTime(stack, now, k) == OwnTime(Popped(stack, now - top.started), now, k) +
           if top.key == k then now - top.started - top.childWall else 0
  {
    var n := |stack| - 1;
    if n > 0 {
      var p := Popped(stack, now - stack[n].started);
      assert p[..|p| - 1] == stack[..n][..n - 1];
    }
  }

  /** Closing moves the time of the innermost frame to its accumulator, and the clamp at zero does nothing. */
  lemma CloseKeeps(t: Trace, now: int, k: Key)
    requires Nested(t.stack, now)
    ensures var t' := Closed(t, now);
      && Nested(t'.stack, now)
      && AccOf(t'.stages, k).exclusive + OwnTime(t'.stack, now, k) ==
           AccOf(t.stages, k).exclusive + OwnTime(t.stack, now, k)
  {
    if t.stack != [] { PoppedKeeps(t.stack, now, k); }
  }

  lemma StepKeeps(t: Trace, was: int, e: Event, k: Key)
    requires Nested(t.stack, was) && (t.stack == [] || was <= e.at)
    ensures var t' := Step(t, e);
      && Nested(t'.stack, e.at)
      && AccOf(t'.stages, k).exclusive + OwnTime(t'.stack, e.at, k) ==
           AccOf(t.stages, k).exclusive + OwnTime(t.stack, was, k) +
           if t.stack != [] && t.stack[|t.stack| - 1].key == k then e.at - was else 0
  {
    match e
    case Open(key, at) => OpenKeeps(t, key, at, k);
    case Close(at) => CloseKeeps(t, at, k);
  }

  lemma {:induction false} RunKeeps(events: seq<Event>, n: nat, k: Key)
    requires n <= |events| && Monotone(events)
    ensures var t := Run(events, n);
      && Nested(t.stack, Now(events, n))
      && AccOf(t.stages, k).exclusive + OwnTime(t.stack, Now(events, n), k) == TopTime(events, n, k)
  {
    if n > 0 {
      RunKeeps(events, n - 1, k);
      StepKeeps(Run(events, n - 1), Now(events, n - 1), events[n - 1], k);
    }
  }

  /** Whenever every stage is closed, the exclusive time of a key is the time it was innermost. */
  lemma ExclusiveIsTopTime(events: seq<Event>, n: nat, k: Key)
    requires n <= |events| && Monotone(events) && Run(events, n).stack == []
    ensures AccOf(Run(events, n).stages, k).exclusive == TopTime(events, n, k)
  {
    RunKeeps(events, n, k);
  }

  ghost predicate TopOk(t: Trace, now: int) {
    t.stack != [] ==> 0 <= t.stack[|t.stack| - 1].childWall <= now - t.stack[|t.stack| - 1].started
  }

  /** The clamp at zero never changes a value: no frame holds more child time than it has been open. */
  lemma ClampNeverFires(events: seq<Event>, n: nat)
    requires n < |events| && Monotone(events)
    ensures TopOk(Run(events, n), events[n].at)
  {
    var t := Run(events, n);
    if t.stack != [] { RunKeeps(events, n, t.stack[|t.stack| - 1].key); }
  }

  // ---- totals and counts of a key ----

  /** d for every one of the first i frames that has key k. */
  function ForEachOpen(stack: seq<Frame>, i: nat, d: int, k: Key): int
    requires i <= |stack|
  {
    if i == 0 then 0 else ForEachOpen(stack, i - 1, d, k) + if stack[i - 1].key == k then d else 0
  }

  /** Wall time of the first i frames, as far as they have key k, added up. */
  function OpenTime(stack: seq<Frame>, i: nat, now: int, k: Key): int
    requires i <= |stack|
  {
    if i == 0 then 0
    else OpenTime(stack, i - 1, now, k) + if stack[i - 1].key == k then now - stack[i - 1].started else 0
  }

  /** Wall time, counted once for every stage of key k that is open meanwhile. */
  function DepthTime(events: seq<Event>, n: nat, k: Key): int
    requires n <= |events|
  {
    if n == 0 then 0 else
    var stack := Run(events, n - 1).stack;
    DepthTime(events, n - 1, k) + ForEachOpen(stack, |stack|, Now(events, n) - Now(events, n - 1), k)
  }

  function Opens(events: seq<Event>, n: nat, k: Key): int
    requires n <= |events|
  {
    if n == 0 then 0
    else Opens(events, n - 1, k) + if events[n - 1].Open? && events[n - 1].key == k then 1 else 0
  }

  lemma {:induction false} OpenTimePasses(stack: seq<Frame>, i: nat, was: int, now: int, k: Key)
    requires i <= |stack|
    ensures OpenTime(stack, i, now, k) == OpenTime(stack, i, was, k) + ForEachOpen(stack, i, now - was, k)
  {
    if i > 0 { OpenTimePasses(stack, i - 1, was, now, k); }
  }

  /** Child time plays no part in these sums. */
  lemma {:induction false} SameFrames(a: seq<Frame>, b: seq<Frame>, i: nat, d: int, k: Key)
    requires i <= |a| && i <= |b|
    requires forall j :: 0 <= j < i ==> a[j].key == b[j].key && a[j].started == b[j].started
    ensures ForEachOpen(a, i, d, k) == ForEachOpen(b, i, d, k) && OpenTime(a, i, d, k) == OpenTime(b, i, d, k)
  {
    if i > 0 { SameFrames(a, b, i - 1, d, k); }
  }

  /** Total of key k, with what its open stages have run up so far. */
  function SoFar(t: Trace, now: int, k: Key): int { AccOf(t.stages, k).total + OpenTime(t.stack, |t.stack|, now, k) }

  /** Closed stages of key k and open ones. */
  function Seen(t: Trace, k: Key): int { AccOf(t.stages, k).count + ForEachOpen(t.stack, |t.stack|, 1, k) }

  lemma StepTotal(t: Trace, e: Event, k: Key)
    ensures SoFar(Step(t, e), e.at, k) == SoFar(t, e.at, k)
  {
    var s := Step(t, e).stack;
    SameFrames(t.stack, s, if |s| < |t.stack| then |s| else |t.stack|, e.at, k);
  }

  lemma StepSeen(t: Trace, e: Event, k: Key)
    ensures Seen(Step(t, e), k) == Seen(t, k) + if e.Open? && e.key == k then 1 else 0
  {
    var s := Step(t, e).stack;
    SameFrames(t.stack, s, if |s| < |t.stack| then |s| else |t.stack|, 1, k);
  }

  lemma StepSoFar(t: Trace, was: int, e: Event, k: Key)
    ensures SoFar(Step(t, e), e.at, k) == SoFar(t, was, k) + ForEachOpen(t.stack, |t.stack|, e.at - was, k)
  {
    OpenTimePasses(t.stack, |t.stack|, was, e.at, k);
    StepTotal(t, e, k);
  }

  /** The total of a key is the time its stages were open. */
  lemma {:induction false} TotalIsOpenTime(events: seq<Event>, n: nat, k: Key)
    requires n <= |events|
    ensures SoFar(Run(events, n), Now(events, n), k) == DepthTime(events, n, k)
  {
    if n > 0 {
      TotalIsOpenTime(events, n - 1, k);
      StepSoFar(Run(events, n - 1), Now(events, n - 1), events[n - 1], k);
    }
  }

  /** Every opening of a key is counted once it is closed. */
  lemma {:induction false} CountIsOpens(events: seq<Event>, n: nat, k: Key)
    requires n <= |events|
    ensures Seen(Run(events, n), k) == Opens(events, n, k)
  {
    if n > 0 {
      CountIsOpens(events, n - 1, k);
      StepSeen(Run(events, n - 1), events[n - 1], k);
    }
  }

  predicate Ordered(a: Acc) { 0 <= a.max <= a.exclusive <= a.total && 0 <= a.count && a.exclusive <= a.count * a.max }

  lemma RecordedOrdered(a: Acc, elapsed: int, exclusive: int)
    requires Ordered(a) && 0 <= exclusive <= elapsed
    ensures Ordered(Recorded(a, elapsed, exclusive))
  {
    var b := Recorded(a, elapsed, exclusive);
    assert a.count * a.max <= a.count * b.max;
    assert b.count * b.max == a.count * b.max + b.max;
  }

  lemma CloseOrdered(t: Trace, now: int, k: Key)
    requires Ordered(AccOf(t.stages, k)) && TopOk(t, now)
    ensures Ordered(AccOf(Closed(t, now).stages, k))
  {
    if t.stack != [] {
      var f := t.stack[|t.stack| - 1];
      RecordedOrdered(AccOf(t.stages, k), now - f.started, Exclusive(f, now));
    }
  }

  /** No single stage took more than all together, nor all together more than the count allows. */
  lemma {:induction false} RunOrdered(events: seq<Event>, n: nat, k: Key)
    requires n <= |events| && Monotone(events)
    ensures Ordered(AccOf(Run(events, n).stages, k))
  {
    if n > 0 {
      RunOrdered(events, n - 1, k);
      if events[n - 1].Close? {
        ClampNeverFires(events, n - 1);
        CloseOrdered(Run(events, n - 1), events[n - 1].at, k);
      }
    }
  }

  // ---- all keys together ----

  /** Sum of the exclusive times of the keys ks, in an order that does not matter. */
  ghost function SumExclusive(stages: map<Key, Acc>, ks: set<Key>): int
    requires ks <= stages.Keys
  {
    if ks == {} then 0 else
    var k :| k in ks;
    stages[k].exclusive + SumExclusive(stages, ks - {k})
  }

  lemma {:induction false} SumPick(stages: map<Key, Acc>, ks: set<Key>, k: Key)
    requires ks <= stages.Keys && k in ks
    ensures SumExclusive(stages, ks) == stages[k].exclusive + SumExclusive(stages, ks - {k})
    decreases |ks|
  {
    var j :| j in ks && SumExclusive(stages, ks) == stages[j].exclusive + SumExclusive(stages, ks - {j});
    if j != k {
      SumPick(stages, ks - {j}, k);
      SumPick(stages, ks - {k}, j);
      assert ks - {j} - {k} == ks - {k} - {j};
    }
  }

  lemma {:induction false} SumSame(a: map<Key, Acc>, b: map<Key, Acc>, ks: set<Key>)
    requires ks <= a.Keys && ks <= b.Keys && forall k :: k in ks ==> a[k] == b[k]
    ensures SumExclusive(a, ks) == SumExclusive(b, ks)
    decreases |ks|
  {
    if ks != {} {
      var k :| k in ks && SumExclusive(a, ks) == a[k].exclusive + SumExclusive(a, ks - {k});
      SumPick(b, ks, k);
      SumSame(a, b, ks - {k});
    }
  }

  lemma SumUpdate(stages: map<Key, Acc>, k: Key, acc: Acc)
    ensures var to := stages[k := acc];
      SumExclusive(to, to.Keys) == SumExclusive(stages, stages.Keys) - AccOf(stages, k).exclusive + acc.exclusive
  {
    var to := stages[k := acc];
    SumPick(to, to.Keys, k);
    assert to.Keys - {k} == stages.Keys - {k};
    SumSame(to, stages, stages.Keys - {k});
    if k in stages {
      SumPick(stages, stages.Keys, k);
    } else {
      assert stages.Keys - {k} == stages.Keys;
    }
  }

  function RootGain(stack: seq<Frame>, e: Event): int {
    if e.Close? && |stack| == 1 then e.at - stack[0].started else 0
  }

  /** Elapsed time of the stages that were closed with no other stage open around them. */
  function RootTime(events: seq<Event>, n: nat): int
    requires n <= |events|
  {
    if n == 0 then 0 else RootTime(events, n - 1) + RootGain(Run(events, n - 1).stack, events[n - 1])
  }

  function ChildTime(stack: seq<Frame>): int {
    if stack == [] then 0 else ChildTime(stack[..|stack| - 1]) + stack[|stack| - 1].childWall
  }

  lemma PoppedChildTime(stack: seq<Frame>, elapsed: int)
    requires stack != []
    ensures ChildTime(Popped(stack, elapsed)) ==
      ChildTime(stack) - stack[|stack| - 1].childWall + if |stack| > 1 then elapsed else 0
  {
    var n := |stack| - 1;
    if n > 0 {
      var p := Popped(stack, elapsed);
      assert p[..|p| - 1] == stack[..n][..n - 1];
    }
  }

  ghost function Balance(t: Trace): int { SumExclusive(t.stages, t.stages.Keys) - ChildTime(t.stack) }

  lemma OpenBalance(t: Trace, key: Key, now: int)
    ensures Balance(Opened(t, key, now)) == Balance(t)
  {
    var s := t.stack + [Frame(key, now, 0)];
    assert s[..|s| - 1] == t.stack;
  }

  lemma StepBalance(t: Trace, e: Event)
    requires TopOk(t, e.at)
    ensures Balance(Step(t, e)) == Balance(t) + RootGain(t.stack, e)
  {
    match e
    case Open(key, at) => OpenBalance(t, key, at);
    case Close(at) =>
      if t.stack != [] {
        var f := t.stack[|t.stack| - 1];
        SumUpdate(t.stages, f.key, Recorded(AccOf(t.stages, f.key), at - f.started, Exclusive(f, at)));
        PoppedChildTime(t.stack, at - f.started);
      }
  }

  lemma {:induction false} RunBalance(events: seq<Event>, n: nat)
    requires n <= |events| && Monotone(events)
    ensures Balance(Run(events, n)) == RootTime(events, n)
  {
    if n == 0 {
      assert Run(events, 0) == Trace(map[], []);
    } else {
      var t := Run(events, n - 1);
      RunBalance(events, n - 1);
      ClampNeverFires(events, n - 1);
      StepBalance(t, events[n - 1]);
      assert Run(events, n) == Step(t, events[n - 1]);
    }
  }

  /** Recorded exclusive time is the time of the closed roots and the child time held in open frames. */
  lemma ExclusiveConserved(events: seq<Event>, n: nat)
    requires n <= |events| && Monotone(events)
    ensures var t := Run(events, n);
      SumExclusive(t.stages, t.stages.Keys) == RootTime(events, n) + ChildTime(t.stack)
  {
    RunBalance(events, n);
  }
}
