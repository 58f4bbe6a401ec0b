/** The mutex: an unlocking thread frees the lock and also wakes a waiting one, which goes on
    without taking the lock again. */
module Mutexes {
  import opened RankOrder
  import opened KernelModel
  import opened KernelLaws
  import opened KernelSteps
  import opened KernelRuns
  import opened KernelEffects
  import opened Semaphores
  import opened Threads

  /** `inside` are the threads that have passed `lock` and not called `unlock` since. */
  datatype Mutex = Mutex(k: Kernel, locked: bool, inside: set<Tid>)

  datatype Call = Lock | Unlock | Other(op: Op)

  /** The thread an `unlock` wakes, if any. */
  function NextWaiter(k: Kernel, q: Qid): set<Tid> {
    if QueueOf(k, q) == [] then {} else {QueueOf(k, q)[0]}
  }

  function Next(m: Mutex, q: Qid, c: Call): Mutex {
    match c
    case Lock =>
      if m.locked then m.(k := Sleep(m.k, q)) else m.(locked := true, inside := m.inside + {m.k.chosen})
    case Unlock => Mutex(Wakeup(m.k, q), false, m.inside - {m.k.chosen} + NextWaiter(m.k, q))
    case Other(op) => m.(k := Step(m.k, op))
  }

  /** What a call does to the kernel: `lock` on a free mutex does nothing. */
  function Calls(m: Mutex, q: Qid, c: Call): seq<Op> {
    match c
    case Lock => if m.locked then [SleepOp(q)] else []
    case Unlock => [WakeupOp(q)]
    case Other(op) => [op]
  }

  /** The mutex exists, only those inside unlock it, and nobody else uses its queue; what is done
      to the kernel keeps the kernel's invariant. */
  predicate Allowed(m: Mutex, idle: Tid, q: Qid, c: Call) {
    && q in m.k.queues
    && (c.Unlock? ==> m.k.chosen in m.inside)
    && (c.Other? ==> Private(c.op, q) && c.op != POp(q) && c.op != VOp(q))
    && (forall op :: op in Calls(m, q, c) ==> Admitted(m.k, idle, op))
  }

  /** A free mutex just constructed, in any state of the kernel. */
  ghost predicate Fresh(m: Mutex, idle: Tid, q: Qid) {
    Inv(m.k, idle) && q in m.k.queues && m.k.queues[q] == [] && !m.locked && m.inside == {}
  }

  ghost predicate IsRun(trace: seq<Mutex>, calls: seq<Call>, idle: Tid, q: Qid) {
    && |trace| == |calls| + 1 && Fresh(trace[0], idle, q)
    && forall i :: 0 <= i < |calls| ==>
         Allowed(trace[i], idle, q, calls[i]) && trace[i + 1] == Next(trace[i], q, calls[i])
  }

  lemma {:induction false} RunKeeps(trace: seq<Mutex>, calls: seq<Call>, idle: Tid, q: Qid, n: nat)
    requires IsRun(trace, calls, idle, q) && n < |trace|
    ensures Inv(trace[n].k, idle)
  {
    hide Inv, Step, Sleep, Wakeup, Guard, Exists, Private;
    if n > 0 {
      RunKeeps(trace, calls, idle, q, n - 1);
      var (m, c) := (trace[n - 1], calls[n - 1]);
      assert Allowed(m, idle, q, c) && trace[n] == Next(m, q, c);
      assert forall op :: op in Calls(m, q, c) ==> Exists(m.k, op);
      KernelPart(m, idle, q, c);
    }
  }

  lemma KernelPart(m: Mutex, idle: Tid, q: Qid, c: Call)
    requires Inv(m.k, idle) && Allowed(m, idle, q, c)
    ensures Inv(Next(m, q, c).k, idle)
  {
    hide Inv, Sleep, Wakeup, Guard, Exists, Private;
    match c
    case Lock =>
      if m.locked {
        assert SleepOp(q) in Calls(m, q, c);
        StepIff(m.k, idle, SleepOp(q));
      }
    case Unlock =>
      assert WakeupOp(q) in Calls(m, q, c);
      StepIff(m.k, idle, WakeupOp(q));
    case Other(op) =>
      assert op in Calls(m, q, c);
      StepIff(m.k, idle, op);
  }

  // ----- When the mutex excludes.

  /** The thread that the latest `unlock` woke, if nobody has called `lock` since; 0 if none. */
  function Woken(trace: seq<Mutex>, calls: seq<Call>, q: Qid, n: nat): Tid
    requires n <= |calls| < |trace|
  {
    if n == 0 then 0
    else match calls[n - 1]
      case Lock => 0
      case Unlock => Head(QueueOf(trace[n - 1].k, q))
      case Other(op) => Woken(trace, calls, q, n - 1)
  }

  /** A `lock` by a third thread while the woken one is on its way. */
  predicate Barges(m: Mutex, c: Call, woken: Tid) {
    c.Lock? && woken != 0 && m.k.chosen != woken
  }

  predicate AtMostOne(s: set<Tid>) {
    forall t, u :: t in s && u in s ==> t == u
  }

  predicate Orderly(m: Mutex, woken: Tid) {
    && AtMostOne(m.inside)
    && (m.locked ==> m.inside != {} && woken == 0)
    && (!m.locked ==> m.inside == if woken == 0 then {} else {woken})
  }

  lemma OrderlyIff(m: Mutex, idle: Tid, q: Qid, c: Call, woken: Tid)
    requires Inv(m.k, idle) && Allowed(m, idle, q, c) && Orderly(m, woken)
    ensures AtMostOne(Next(m, q, c).inside) <==> !Barges(m, c, woken)
    ensures AtMostOne(Next(m, q, c).inside) ==>
              Orderly(Next(m, q, c), match c
                                     case Lock => 0
                                     case Unlock => Head(QueueOf(m.k, q))
                                     case Other(op) => woken)
  {
    hide Sleep, Wakeup, Step, Guard, Exists, Private, Mid;
    if c.Unlock? {
      if m.k.queues[q] != [] {
        HeadExists(m.k, idle, q);
      }
      assert m.inside == {m.k.chosen};
    } else if c.Lock? && !m.locked {
      assert m.k.chosen in Next(m, q, c).inside && (woken != 0 ==> woken in Next(m, q, c).inside);
    }
  }

  lemma HeadExists(k: Kernel, idle: Tid, q: Qid)
    requires Inv(k, idle) && q in k.queues && k.queues[q] != []
    ensures k.queues[q][0] != 0
  {
    assert QueueOk(k, q) && k.queues[q][0] in k.queues[q];
    assert Placed(k, k.queues[q][0]);
  }

  /** Two threads have never been inside at once. */
  ghost predicate Excludes(trace: seq<Mutex>, n: nat)
    requires n < |trace|
  {
    forall i :: 0 <= i <= n ==> AtMostOne(trace[i].inside)
  }

  ghost predicate NobodyBarges(trace: seq<Mutex>, calls: seq<Call>, q: Qid, n: nat)
    requires n <= |calls| < |trace|
  {
    forall i :: 0 <= i < n ==> !Barges(trace[i], calls[i], Woken(trace, calls, q, i))
  }

  lemma OneMore(trace: seq<Mutex>, calls: seq<Call>, q: Qid, n: nat)
    requires n < |calls| < |trace|
    ensures Excludes(trace, n + 1) <==> Excludes(trace, n) && AtMostOne(trace[n + 1].inside)
    ensures NobodyBarges(trace, calls, q, n + 1) <==>
            NobodyBarges(trace, calls, q, n) && !Barges(trace[n], calls[n], Woken(trace, calls, q, n))
  {
    hide AtMostOne, Barges, Woken;
  }

  /** Over every run two threads are never inside at once if and only if, whenever an `unlock` has
      woken a thread, no other thread calls `lock` first. */
  lemma {:induction false} ExclusionIff(trace: seq<Mutex>, calls: seq<Call>, idle: Tid, q: Qid, n: nat)
    requires IsRun(trace, calls, idle, q) && n <= |calls|
    ensures Excludes(trace, n) <==> NobodyBarges(trace, calls, q, n)
    ensures Excludes(trace, n) ==> Orderly(trace[n], Woken(trace, calls, q, n))
  {
    hide Inv, Next, Orderly, Barges, AtMostOne, Allowed;
    if n == 0 {
      FreshOrderly(trace[0], idle, q);
    } else {
      hide Excludes, NobodyBarges;
      ExclusionIff(trace, calls, idle, q, n - 1);
      OneMore(trace, calls, q, n - 1);
      if Excludes(trace, n - 1) {
        RunKeeps(trace, calls, idle, q, n - 1);
        OrderlyIff(trace[n - 1], idle, q, calls[n - 1], Woken(trace, calls, q, n - 1));
      }
    }
  }

  lemma FreshOrderly(m: Mutex, idle: Tid, q: Qid)
    requires Fresh(m, idle, q)
    ensures Orderly(m, 0) && AtMostOne(m.inside)
  {
    hide Inv;
  }

  // ----- That it need not exclude.

  lemma PassPlaces(k: Kernel, idle: Tid, u: Tid)
    requires Inv(k, idle) && u in k.ready
    ensures u in k.threads && Inv(Pass(k, u), idle) && Pass(k, u).chosen == u
    ensures Pass(k, u).queues == k.queues && forall v :: v in Pass(k, u).ready <==> v in k.ready
  {
    PassRuns(k, idle, u);
    PassKeeps(k, idle, u);
    ChosenIsThread(k, idle, k.chosen);
    RequeueMembers(k.ready, k.chosen, k.rank);
    hide Requeue;
    DispatchFrame(ChooseThread(k, u), k.chosen);
  }

  lemma SleepPlaces(k: Kernel, idle: Tid, q: Qid)
    requires Inv(k, idle) && q in k.queues && k.chosen != idle
    ensures Inv(Sleep(k, q), idle) && q in Sleep(k, q).queues
    ensures Sleep(k, q).queues[q] == Enter(k.queues[q], k.chosen, k.rank)
    ensures forall v :: v in Sleep(k, q).ready <==> v in k.ready && v != k.chosen
  {
    SleepIff(k, idle, q);
    SleepQueueIs(k, q);
    LeaveMembers(k.ready, k.chosen);
    hide Enter, Leave;
    DispatchFrame(Asleep(k, q), k.chosen);
  }

  lemma WakeupPlaces(k: Kernel, idle: Tid, q: Qid)
    requires Inv(k, idle) && q in k.queues
    ensures Inv(Wakeup(k, q), idle) && q in Wakeup(k, q).queues
    ensures forall v :: v in k.ready ==> v in Wakeup(k, q).ready
  {
    WakeupKeeps(k, idle, q);
    WakeupQueueIs(k, q);
    ChosenIsThread(k, idle, k.chosen);
    if k.queues[q] == [] {
      RescheduledReady(k);
    } else {
      EnterMembers(k.ready, k.queues[q][0], k.rank);
      hide Enter, Reschedule;
      RescheduledReady(WakeOne(k, q));
    }
  }

  /** A run goes on by one call. */
  lemma Extended(trace: seq<Mutex>, calls: seq<Call>, idle: Tid, q: Qid, c: Call)
    returns (longer: seq<Mutex>, more: seq<Call>)
    requires IsRun(trace, calls, idle, q) && |trace| == |calls| + 1 && Allowed(trace[|calls|], idle, q, c)
    ensures IsRun(longer, more, idle, q) && longer[0] == trace[0] && |longer| == |more| + 1
    ensures |more| == |calls| + 1 && longer[|more|] == Next(trace[|calls|], q, c)
  {
    hide Fresh, Allowed, Next;
    longer, more := trace + [Next(trace[|calls|], q, c)], calls + [c];
  }

  /** `u` gets the CPU, and goes to sleep. */
  lemma PassedToSleep(k: Kernel, idle: Tid, q: Qid, t: Tid, u: Tid)
    requires Inv(k, idle) && q in k.queues && k.queues[q] == []
    requires t in k.ready && u in k.ready && u != t && u != idle
    ensures u in k.threads && q in Pass(k, u).queues && Pass(k, u).chosen == u
    ensures var d := Sleep(Pass(k, u), q);
      Inv(d, idle) && q in d.queues && d.queues[q] == [u] && t in d.ready
  {
    hide Inv, Pass, Sleep;
    PassPlaces(k, idle, u);
    SleepPlaces(Pass(k, u), idle, q);
    assert Enter([], u, Pass(k, u).rank) == [u];
  }

  /** The first four calls: `t` is inside, `u` waits, and `t` runs. */
  lemma OneWaits(m: Mutex, idle: Tid, q: Qid, u: Tid) returns (trace: seq<Mutex>, calls: seq<Call>)
    requires Fresh(m, idle, q) && u in m.k.ready && u != m.k.chosen && u != idle
    ensures IsRun(trace, calls, idle, q) && trace[0] == m && |trace| == |calls| + 1
    ensures var (t, n) := (m.k.chosen, trace[|calls|]);
      n.locked && n.inside == {t} && n.k.chosen == t && t in n.k.ready && Inv(n.k, idle) && QueueOf(n.k, q) == [u]
  {
    hide Mid, Pass, Sleep, Enter, IsRun;
    var t := m.k.chosen;
    FreshRun(m, idle, q);
    PassedToSleep(m.k, idle, q, t, u);
    var k := Sleep(Pass(m.k, u), q);
    PassPlaces(k, idle, t);
    trace, calls := Extended([m], [], idle, q, Lock);
    trace, calls := Extended(trace, calls, idle, q, Other(PassOp(u)));
    trace, calls := Extended(trace, calls, idle, q, Lock);
    trace, calls := Extended(trace, calls, idle, q, Other(PassOp(t)));
  }

  lemma FreshRun(m: Mutex, idle: Tid, q: Qid)
    requires Fresh(m, idle, q)
    ensures IsRun([m], [], idle, q) && m.k.chosen in m.k.ready
  {}

  /** With any free mutex and any other ready thread but idle, seven calls bring both inside: the
      one that unlocks goes on and locks again before the one it woke comes to run. */
  lemma BothInside(m: Mutex, idle: Tid, q: Qid, u: Tid) returns (trace: seq<Mutex>, calls: seq<Call>)
    requires Fresh(m, idle, q) && u in m.k.ready && u != m.k.chosen && u != idle
    ensures IsRun(trace, calls, idle, q) && trace[0] == m && |trace| == |calls| + 1
    ensures trace[|calls|].inside == {m.k.chosen, u}
  {
    hide Inv, Pass, Sleep, Wakeup, Fresh, IsRun;
    var t := m.k.chosen;
    trace, calls := OneWaits(m, idle, q, u);
    var n := trace[|calls|];
    InQueues(n.k, q);
    WakeupPlaces(n.k, idle, q);
    var k := Wakeup(n.k, q);
    PassPlaces(k, idle, t);
    trace, calls := Extended(trace, calls, idle, q, Unlock);
    trace, calls := Extended(trace, calls, idle, q, Other(PassOp(t)));
    trace, calls := Extended(trace, calls, idle, q, Lock);
  }

  lemma InQueues(k: Kernel, q: Qid)
    requires QueueOf(k, q) != []
    ensures q in k.queues
  {}

  // ----- The object.

  class MutexObject {
    const kernel: KernelObject
    const queue: Queue
    var locked: bool
    ghost var inside: set<Tid>

    constructor (kernel: KernelObject, queue: Queue)
      ensures this.kernel == kernel && this.queue == queue
      ensures !locked && inside == {}
    {
      this.kernel, this.queue, locked, inside := kernel, queue, false, {};
    }

    ghost predicate Valid()
      reads kernel, kernel.lists, kernel.lists.scheduler, kernel.lists.scheduler.base, kernel.lists.links.Values,
        kernel.lists.queues.Values
    {
      kernel.Valid() && kernel.KnownQueue(queue)
    }

    ghost function View(): Mutex
      reads this, kernel, kernel.lists, kernel.lists.scheduler, kernel.lists.scheduler.base,
        kernel.lists.links.Values, kernel.lists.queues.Values, kernel.threads.Values, kernel.semaphores.Values
    {
      Mutex(kernel.View(), locked, inside)
    }

    method Lock()
      requires Valid() && kernel.Chosen() != null
      requires locked ==> SomebodyElse(kernel.View(), kernel.Chosen().address)
      modifies this`locked, this`inside, kernel`cpu, kernel.lists.scheduler, kernel.lists.scheduler.base,
        kernel.lists.links.Values, kernel.lists.queues.Values,
        kernel.threads.Values`state, kernel.threads.Values`context, kernel.threads.Values`waiting
      ensures Valid() && View() == Next(old(View()), queue.address, Call.Lock)
    {
      hide KernelObject.View, KernelObject.Valid, Sleep;
      kernel.ChosenAddress();
      var was := locked;
      locked := true;
      if was {
        kernel.Sleep(queue);
      } else {
        inside := inside + {kernel.Chosen().address};
      }
    }

    method Unlock()
      requires Valid() && kernel.Chosen() != null
      modifies this`locked, this`inside, kernel`cpu, kernel.lists.scheduler, kernel.lists.scheduler.base,
        kernel.lists.links.Values, kernel.lists.queues.Values,
        kernel.threads.Values`state, kernel.threads.Values`context, kernel.threads.Values`waiting
      ensures Valid() && View() == Next(old(View()), queue.address, Call.Unlock)
    {
      hide KernelObject.View, KernelObject.Valid, Wakeup, NextWaiter;
      kernel.ChosenAddress();
      ghost var k := kernel.View();
      locked := false;
      inside := inside - {k.chosen} + NextWaiter(k, queue.address);
      kernel.Wakeup(queue);
    }
  }
}
