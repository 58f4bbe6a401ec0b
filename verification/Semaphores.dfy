/** Semaphores over runs of the kernel: how values, waiting threads and calls add up, and who
    is woken. */
module Semaphores {
  import opened RankOrder
  import opened KernelModel
  import opened Words
  import opened KernelLaws
  import opened KernelSteps
  import opened KernelAdmin
  import opened KernelRuns

  /** Queue `q` is inside a semaphore: only `p` and `v` sleep and wake on it. */
  predicate Private(op: Op, q: Qid) {
    match op
    case SleepOp(p) => p != q
    case WakeupOp(p) => p != q
    case WakeupAllOp(p) => p != q
    case NewQueueOp(p) => p != q
    case NewSemaphoreOp(p, v) => p != q
    case DropQueueOp(p) => p != q
    case _ => true
  }

  /** A thread waiting on `q` is not deleted. */
  predicate KeepsWaiters(k: Kernel, op: Op, q: Qid) {
    op.DestroyOp? ==> op.thread !in QueueOf(k, q)
  }

  /** How many threads a value says are waiting. */
  function Waiters(value: int): nat {
    if value < 0 then -value else 0
  }

  ghost predicate Accounted(k: Kernel, q: Qid) {
    q in k.queues && q in k.value && |k.queues[q]| == Waiters(k.value[q])
  }

  // ----- What each operation does to the queue and the value.

  /** The queue after an operation. */
  function NextQueue(k: Kernel, op: Op, q: Qid): seq<Tid> {
    match op
    case POp(p) => if p == q && Value(k, q) < 1 then Enter(QueueOf(k, q), k.chosen, k.rank) else QueueOf(k, q)
    case VOp(p) => if p == q && Value(k, q) < 0 && QueueOf(k, q) != [] then QueueOf(k, q)[1..] else QueueOf(k, q)
    case DestroyOp(t) => Leave(QueueOf(k, q), t)
    case _ => QueueOf(k, q)
  }

  function NextValue(k: Kernel, op: Op, q: Qid): Int32 {
    match op
    case POp(p) => if p == q then Wrap(Value(k, q) - 1) else Value(k, q)
    case VOp(p) => if p == q then Wrap(Value(k, q) + 1) else Value(k, q)
    case _ => Value(k, q)
  }

  lemma DispatchQueues(k: Kernel, prev: Tid)
    ensures Dispatch(k, prev).queues == k.queues && Dispatch(k, prev).value == k.value
    ensures Dispatch(k, prev).rank == k.rank
  {}

  lemma RescheduleQueues(k: Kernel)
    ensures Reschedule(k).queues == k.queues && Reschedule(k).value == k.value && Reschedule(k).rank == k.rank
  {
    DispatchQueues(Choose(k), k.chosen);
  }

  lemma {:induction false} WakeEachQueues(k: Kernel, p: Qid)
    ensures forall q :: q in k.queues && q != p ==>
              q in WakeEach(k, p).queues && WakeEach(k, p).queues[q] == k.queues[q]
    ensures WakeEach(k, p).value == k.value
    decreases |QueueOf(k, p)|
  {
    if QueueOf(k, p) != [] {
      WakeEachQueues(WakeOne(k, p), p);
    }
  }

  lemma ExitQueues(k: Kernel)
    ensures Exit(k).queues == k.queues && Exit(k).value == k.value
  {
    var t := k.chosen;
    var d := Uncounted(SetState(Remove(k, t), t, FINISHING));
    DispatchQueues(Choose(ReleaseJoiner(d, t)), t);
  }

  lemma SleepQueueIs(k: Kernel, p: Qid)
    ensures Sleep(k, p).queues == k.queues[p := Enter(QueueOf(k, p), k.chosen, k.rank)]
    ensures Sleep(k, p).value == k.value
  {
    var t := k.chosen;
    var w := SetState(Remove(k, t), t, WAITING);
    DispatchQueues(SetWaiting(SetQueue(w, p, Enter(QueueOf(w, p), t, w.rank)), t, p), t);
  }

  lemma WakeupQueueIs(k: Kernel, p: Qid)
    requires p in k.queues
    ensures Wakeup(k, p).queues == k.queues[p := if k.queues[p] == [] then [] else k.queues[p][1..]]
    ensures Wakeup(k, p).value == k.value
  {
    RescheduleQueues(if QueueOf(k, p) == [] then k else WakeOne(k, p));
    assert k.queues == k.queues[p := k.queues[p]];
  }

  lemma DestroyQueues(k: Kernel, idle: Tid, t: Tid, q: Qid)
    requires Inv(k, idle) && t in k.threads && q in k.queues
    ensures q in Destroy(k, t).queues && Destroy(k, t).queues[q] == Leave(k.queues[q], t)
    ensures Destroy(k, t).value == k.value
  {
    hide Leave, Enter, Exit, NoDup, SortedBy;
    assert Placed(k, t) && QueueOk(k, q);
    var th := k.threads[t];
    if th.state != WAITING || th.waiting != q {
      LeaveAbsent(k.queues[q], t);
    }
    if th.state == RUNNING {
      ExitQueues(k);
    }
  }

  ghost predicate QueueIs(k: Kernel, q: Qid, s: seq<Tid>, v: Int32) {
    q in k.queues && k.queues[q] == s && q in k.value && k.value[q] == v
  }

  /** The queue and the value of a semaphore change only by `p`, `v` and the deletion of a
      waiting thread. */
  lemma QueueSteps(k: Kernel, idle: Tid, op: Op, q: Qid)
    requires Inv(k, idle) && Admitted(k, idle, op) && Private(op, q) && q in k.queues && q in k.value
    ensures QueueIs(Step(k, op), q, NextQueue(k, op, q), NextValue(k, op, q))
  {
    hide Inv, Step, NextQueue, NextValue, Guard;
    if OnThread(op) {
      ThreadQueueSteps(k, idle, op, q);
    } else {
      OtherQueueSteps(k, op, q);
    }
  }

  lemma ThreadQueueSteps(k: Kernel, idle: Tid, op: Op, q: Qid)
    requires Inv(k, idle) && Exists(k, op) && OnThread(op) && q in k.queues && q in k.value
    ensures QueueIs(Step(k, op), q, NextQueue(k, op, q), NextValue(k, op, q))
  {
    hide Inv, Enter, Leave, Requeue, Destroy, Dispatch, Reschedule;
    match op
    case CreateOp(t, s, r) =>
      var i := Insert(NewThread(k, t, s, r), t);
      RescheduleQueues(if s != READY && s != RUNNING then Remove(i, t) else i);
    case DestroyOp(t) => DestroyQueues(k, idle, t, q);
    case PriorityOp(t, p) => RescheduleQueues(Reranked(k, t, p));
    case JoinOp(t) =>
      var j := SetJoining(k, t, k.chosen);
      DispatchQueues(SetState(Remove(j, k.chosen), k.chosen, SUSPENDED), k.chosen);
    case PassOp(t) => if t in k.ready { DispatchQueues(ChooseThread(k, t), k.chosen); }
    case SuspendOp(t) => DispatchQueues(SetState(Remove(k, t), t, SUSPENDED), k.chosen);
    case ResumeOp(t) =>
      RescheduleQueues(if Get(k, t).state == SUSPENDED then Insert(SetState(k, t, READY), t) else k);
  }

  lemma OtherQueueSteps(k: Kernel, op: Op, q: Qid)
    requires Exists(k, op) && !OnThread(op) && Private(op, q) && q in k.queues && q in k.value
    ensures QueueIs(Step(k, op), q, NextQueue(k, op, q), NextValue(k, op, q))
  {
    hide Enter, Leave, Requeue, Sleep, Wakeup, WakeEach, Exit, Dispatch, Reschedule;
    match op
    case YieldOp => DispatchQueues(ChooseAnother(k), k.chosen);
    case ExitOp => ExitQueues(k);
    case TimeSliceOp => RescheduleQueues(k);
    case SleepOp(p) => SleepQueueIs(k, p);
    case WakeupOp(p) => WakeupQueueIs(k, p);
    case WakeupAllOp(p) => WakeEachQueues(k, p); RescheduleQueues(WakeEach(k, p));
    case POp(p) => SleepQueueIs(SetValue(k, p, Wrap(Value(k, p) - 1)), p);
    case VOp(p) => WakeupQueueIs(SetValue(k, p, Wrap(Value(k, p) + 1)), p);
    case NewQueueOp(p) =>
    case NewSemaphoreOp(p, v) =>
    case DropQueueOp(p) => WakeEachQueues(k, p); RescheduleQueues(WakeEach(k, p));
  }

  // ----- Accounting.

  /** The operation drives the counter out of its 32 bits. */
  predicate Overflows(k: Kernel, op: Op, q: Qid) {
    (op == VOp(q) && Value(k, q) == MAX) || (op == POp(q) && Value(k, q) == MIN)
  }

  /** The accounting survives every operation that keeps the kernel's invariant, except the deletion
      of a thread that waits on the semaphore, a `v` on the greatest value and a `p` on the least. */
  lemma AccountingIff(k: Kernel, idle: Tid, op: Op, q: Qid)
    requires Inv(k, idle) && Admitted(k, idle, op) && Private(op, q) && Accounted(k, q)
    ensures Accounted(Step(k, op), q) <==> KeepsWaiters(k, op, q) && !Overflows(k, op, q)
  {
    hide Step, Inv, Admitted;
    QueueSteps(k, idle, op, q);
    if op.DestroyOp? {
      WaitersOnce(k, idle, q);
      LeaveMembers(k.queues[q], op.thread);
    } else {
      NextAccounted(k, op, q);
    }
  }

  lemma NextAccounted(k: Kernel, op: Op, q: Qid)
    requires Accounted(k, q) && !op.DestroyOp?
    ensures |NextQueue(k, op, q)| == Waiters(NextValue(k, op, q)) <==> !Overflows(k, op, q)
  {
    if op.POp? {
      EnterMembers(k.queues[q], k.chosen, k.rank);
    }
  }

  /** A new semaphore is accounted for exactly when its initial value is not negative. */
  lemma InitialIff(k: Kernel, q: Qid, v: Int32)
    ensures Accounted(CreateSemaphore(k, q, v), q) <==> 0 <= v
  {}

  /** How many of the steps from `i` to before `j` are `p` and how many `v` on `q`. */
  function CountP(ops: seq<Op>, q: Qid, i: nat, j: nat): nat
    requires i <= j <= |ops|
  {
    if i == j then 0 else CountP(ops, q, i, j - 1) + if ops[j - 1] == POp(q) then 1 else 0
  }

  function CountV(ops: seq<Op>, q: Qid, i: nat, j: nat): nat
    requires i <= j <= |ops|
  {
    if i == j then 0 else CountV(ops, q, i, j - 1) + if ops[j - 1] == VOp(q) then 1 else 0
  }

  ghost predicate PrivateRun(trace: seq<Kernel>, ops: seq<Op>, q: Qid, i: nat, j: nat)
    requires i <= j <= |ops| < |trace|
  {
    forall n :: i <= n < j ==> Private(ops[n], q) && KeepsWaiters(trace[n], ops[n], q)
  }

  /** The initial value, the `v`s and the `p`s up to `n` add up to something of 32 bits. */
  predicate InRange(ops: seq<Op>, q: Qid, v: Int32, i: nat, n: nat)
    requires i < n <= |ops|
  {
    MIN <= v + CountV(ops, q, i + 1, n) - CountP(ops, q, i + 1, n) <= MAX
  }

  /** Over every run since the semaphore was created with `v` its value is the initial value plus
      the `v`s less the `p`s, as many threads wait as the value is below zero, and so as many `p`s
      have passed as there were units, never more than the initial value plus the `v`s: if and only
      if the calls never add up to more than 32 bits hold. */
  lemma SemaphoreAccounting(trace: seq<Kernel>, ops: seq<Op>, main: Tid, r: int, idle: Tid, low: int,
                            q: Qid, v: Int32, i: nat, j: nat)
    requires IsRun(trace, ops, main, r, idle, low) && i < j <= |ops|
    requires ops[i] == NewSemaphoreOp(q, v) && 0 <= v
    requires PrivateRun(trace, ops, q, i + 1, j)
    ensures (forall n :: i < n <= j ==> Balanced(trace[n], ops, q, v, i, n)) <==>
            (forall n :: i < n <= j ==> InRange(ops, q, v, i, n))
  {
    hide Admitted, Step, Boot, InRange, Balanced, PrivateRun;
    forall n | i < n <= j && Balanced(trace[n], ops, q, v, i, n)
      ensures InRange(ops, q, v, i, n)
    {
      BalancedInRange(trace[n], ops, q, v, i, n);
    }
    if forall n :: i < n <= j ==> InRange(ops, q, v, i, n) {
      forall n | i < n <= j
        ensures Balanced(trace[n], ops, q, v, i, n)
      {
        PrivateUpTo(trace, ops, q, i + 1, j, n);
        BalancedWhile(trace, ops, main, r, idle, low, q, v, i, n);
      }
    }
  }

  lemma BalancedInRange(k: Kernel, ops: seq<Op>, q: Qid, v: Int32, i: nat, n: nat)
    requires i < n <= |ops| && Balanced(k, ops, q, v, i, n)
    ensures InRange(ops, q, v, i, n)
  {}

  lemma PrivateUpTo(trace: seq<Kernel>, ops: seq<Op>, q: Qid, i: nat, j: nat, n: nat)
    requires i <= n <= j <= |ops| < |trace| && PrivateRun(trace, ops, q, i, j)
    ensures PrivateRun(trace, ops, q, i, n)
  {}

  lemma {:induction false} BalancedWhile(trace: seq<Kernel>, ops: seq<Op>, main: Tid, r: int, idle: Tid, low: int,
                                         q: Qid, v: Int32, i: nat, j: nat)
    requires IsRun(trace, ops, main, r, idle, low) && i < j <= |ops|
    requires ops[i] == NewSemaphoreOp(q, v) && 0 <= v
    requires PrivateRun(trace, ops, q, i + 1, j) && forall n :: i < n <= j ==> InRange(ops, q, v, i, n)
    ensures Balanced(trace[j], ops, q, v, i, j)
    decreases j
  {
    hide Step, Inv, Balanced, Admitted, Private, KeepsWaiters, Boot, InRange;
    assert trace[j] == Step(trace[j - 1], ops[j - 1]);
    if j == i + 1 {
      FreshSemaphore(trace[i], ops, q, v, i);
    } else {
      BalancedWhile(trace, ops, main, r, idle, low, q, v, i, j - 1);
      RunKeeps(trace, ops, main, r, idle, low, j - 1);
      BalancedNext(trace[j - 1], idle, ops, q, v, i, j - 1);
    }
  }

  ghost predicate Balanced(k: Kernel, ops: seq<Op>, q: Qid, v: Int32, i: nat, j: nat)
    requires i < j <= |ops|
  {
    var ps, vs := CountP(ops, q, i + 1, j), CountV(ops, q, i + 1, j);
    && Accounted(k, q)
    && k.value[q] == v + vs - ps
    && var passed := ps - |k.queues[q]|;
      passed == if ps <= v + vs then ps else v + vs
  }

  lemma BalancedNext(k: Kernel, idle: Tid, ops: seq<Op>, q: Qid, v: Int32, i: nat, j: nat)
    requires i < j < |ops| && Balanced(k, ops, q, v, i, j) && Inv(k, idle)
    requires Admitted(k, idle, ops[j]) && Private(ops[j], q) && KeepsWaiters(k, ops[j], q)
    requires InRange(ops, q, v, i, j + 1)
    ensures Balanced(Step(k, ops[j]), ops, q, v, i, j + 1)
  {
    hide Step, Inv, Admitted;
    AccountingIff(k, idle, ops[j], q);
    QueueSteps(k, idle, ops[j], q);
  }

  lemma FreshSemaphore(k: Kernel, ops: seq<Op>, q: Qid, v: Int32, i: nat)
    requires 0 <= v && i < |ops| && ops[i] == NewSemaphoreOp(q, v)
    ensures Balanced(Step(k, ops[i]), ops, q, v, i, i + 1)
  {}

  /** A `v` on the greatest value loses every unit there is: the next `p` blocks its caller. */
  lemma UnitsLost(k: Kernel, idle: Tid, q: Qid)
    requires Inv(k, idle) && Accounted(k, q) && k.value[q] == MAX && k.chosen != idle
    ensures var d := V(k, q);
      && Accounted(k, q) && k.queues[q] == [] && !Accounted(d, q)
      && d.chosen == k.chosen && QueueOf(P(d, q), q) == [k.chosen]
  {
    var d := V(k, q);
    assert d == SetValue(k, q, MIN);
    SleepQueueIs(SetValue(d, q, Wrap(MIN - 1)), q);
    assert Enter([], k.chosen, k.rank) == [k.chosen];
  }

  // ----- Who is woken.

  /** A `v` on a negative value takes exactly the head of the queue off it and makes it ready;
      no waiting thread ranks before it. */
  lemma WakesLowestRank(k: Kernel, idle: Tid, q: Qid)
    requires Inv(k, idle) && Accounted(k, q) && k.value[q] < 0
    ensures k.queues[q] != []
    ensures var (t, d) := (k.queues[q][0], V(k, q));
      && QueueOf(d, q) == k.queues[q][1..] && t !in QueueOf(d, q)
      && t in d.threads && (d.threads[t].state == READY || d.threads[t].state == RUNNING) && t in d.ready
    ensures forall u :: u in k.queues[q] ==> Lookup(k.rank, k.queues[q][0]) <= Lookup(k.rank, u)
  {
    assert QueueOk(k, q);
    HeadIsLeast(k.queues[q], k.rank);
    HeadOut(k.queues[q]);
    VThreads(k, idle, q);
    VKeeps(k, idle, q);
    VQueue(k, idle, q);
    hide V, Mid;
    OneList(V(k, q), idle, k.queues[q][0]);
  }

  lemma VQueue(k: Kernel, idle: Tid, q: Qid)
    requires Inv(k, idle) && Accounted(k, q) && k.value[q] < 0
    ensures QueueOf(V(k, q), q) == k.queues[q][1..]
  {
    hide Inv, V;
    QueueSteps(k, idle, VOp(q), q);
  }

  lemma HeadIsLeast(s: seq<Tid>, rank: map<Tid, int>)
    requires s != [] && SortedBy(s, rank)
    ensures forall u :: u in s ==> Lookup(rank, s[0]) <= Lookup(rank, u)
  {
    forall u | u in s
      ensures Lookup(rank, s[0]) <= Lookup(rank, u)
    {
      var i :| 0 <= i < |s| && s[i] == u;
    }
  }

  lemma VThreads(k: Kernel, idle: Tid, q: Qid)
    requires Inv(k, idle) && q in k.queues && k.queues[q] != [] && Value(k, q) < 0
    ensures var (t, d) := (k.queues[q][0], V(k, q));
      t in d.threads && (d.threads[t].state == READY || d.threads[t].state == RUNNING)
  {
    hide Enter, Leave, Requeue, SortedBy;
    var e := SetValue(k, q, Wrap(Value(k, q) + 1));
    ChosenIsThread(k, idle, k.chosen);
    assert QueueOk(k, q) && k.queues[q][0] in k.queues[q];
    var w := WakeOne(e, q);
    DispatchFrame(Choose(w), w.chosen);
  }

  lemma WaitersOnce(k: Kernel, idle: Tid, q: Qid)
    requires Inv(k, idle) && q in k.queues
    ensures NoDup(k.queues[q]) && SortedBy(k.queues[q], k.rank)
  {
    hide Placed, OnCpu, SavedOk, Live;
    assert QueueOk(k, q);
  }

  /** One operation: a thread in front stays in front, and one behind does not leave unless it is
      deleted. */
  lemma Fifo(k: Kernel, idle: Tid, op: Op, q: Qid, a: Tid, b: Tid)
    requires Inv(k, idle) && Admitted(k, idle, op) && Private(op, q) && q in k.queues && q in k.value
    requires Before(k.queues[q], a, b)
    ensures var s := QueueOf(Step(k, op), q);
      && (b in s || op == DestroyOp(b))
      && (a in s && b in s ==> Before(s, a, b))
  {
    hide Inv, Step, NextValue, Enter, Leave, Private, Admitted;
    QueueSteps(k, idle, op, q);
    var s := k.queues[q];
    var i, j :| 0 <= i < j < |s| && s[i] == a && s[j] == b;
    WaitersOnce(k, idle, q);
    match op
    case POp(p) => EnterKeepsBefore(s, k.chosen, k.rank, i, j);
    case VOp(p) => TailKeepsBefore(s, i, j);
    case DestroyOp(t) => LeaveKeepsBefore(s, t, i, j);
    case _ =>
  }

  lemma TailKeepsBefore(s: seq<Tid>, i: nat, j: nat)
    requires i < j < |s| && NoDup(s)
    ensures s[j] in s[1..]
    ensures s[i] in s[1..] ==> Before(s[1..], s[i], s[j])
  {
    HeadOut(s);
    assert s[1..][j - 1] == s[j];
    if i > 0 {
      assert s[1..][i - 1] == s[i];
    }
  }

  /** A newcomer waits behind all that rank no later than it does. */
  lemma NewcomerBehind(k: Kernel, idle: Tid, q: Qid, u: Tid)
    requires Inv(k, idle) && q in k.queues && q in k.value && k.value[q] < 1
    requires u in k.queues[q] && Lookup(k.rank, u) <= Lookup(k.rank, k.chosen)
    ensures Before(QueueOf(Step(k, POp(q)), q), u, k.chosen)
  {
    hide Inv, Step;
    OtherQueueSteps(k, POp(q), q);
    WaitersOnce(k, idle, q);
    EntersBehind(k.queues[q], k.chosen, u, k.rank);
  }

  /** The operations from `i` to before `j` leave the queue to its semaphore and do not delete `b`,
      and `a` waits all the while. */
  ghost predicate Waits(trace: seq<Kernel>, ops: seq<Op>, q: Qid, a: Tid, b: Tid, i: nat, j: nat)
    requires i <= j <= |ops| < |trace|
  {
    && (forall n :: i <= n < j ==> Private(ops[n], q) && ops[n] != DestroyOp(b))
    && (forall n :: i <= n <= j ==> a in QueueOf(trace[n], q))
  }

  /** Over every run nobody overtakes: a thread that waits behind another one still waits behind it
      for as long as that one waits. */
  lemma {:induction false} StillBehind(trace: seq<Kernel>, ops: seq<Op>, main: Tid, r: int, idle: Tid, low: int,
                                       q: Qid, a: Tid, b: Tid, i: nat, j: nat)
    requires IsRun(trace, ops, main, r, idle, low) && i <= j <= |ops| && Waits(trace, ops, q, a, b, i, j)
    requires q in trace[i].queues && q in trace[i].value && Before(QueueOf(trace[i], q), a, b)
    ensures q in trace[j].queues && q in trace[j].value && Before(QueueOf(trace[j], q), a, b)
    decreases j
  {
    hide Step, Inv, Admitted, Private, Boot, NextQueue, NextValue, Before;
    if i < j {
      StillBehind(trace, ops, main, r, idle, low, q, a, b, i, j - 1);
      RunKeeps(trace, ops, main, r, idle, low, j - 1);
      assert trace[j] == Step(trace[j - 1], ops[j - 1]);
      QueueSteps(trace[j - 1], idle, ops[j - 1], q);
      Fifo(trace[j - 1], idle, ops[j - 1], q, a, b);
    }
  }

  /** First come, first served: whoever calls `p` in vain waits behind each thread that waited
      before with the same or a lower rank, for as long as that one waits. */
  lemma FirstComeFirstServed(trace: seq<Kernel>, ops: seq<Op>, main: Tid, r: int, idle: Tid, low: int,
                             q: Qid, a: Tid, b: Tid, i: nat, j: nat)
    requires IsRun(trace, ops, main, r, idle, low) && i < j <= |ops| && Waits(trace, ops, q, a, b, i + 1, j)
    requires q in trace[i].queues && q in trace[i].value && trace[i].value[q] < 1
    requires ops[i] == POp(q) && b == trace[i].chosen
    requires a in trace[i].queues[q] && Lookup(trace[i].rank, a) <= Lookup(trace[i].rank, b)
    ensures Before(QueueOf(trace[j], q), a, b)
  {
    hide Step, Inv, Guard, Boot, NextQueue, NextValue, Before;
    RunKeeps(trace, ops, main, r, idle, low, i);
    assert trace[i + 1] == Step(trace[i], ops[i]) && Exists(trace[i], ops[i]);
    NewcomerBehind(trace[i], idle, q, a);
    QueueSteps(trace[i], idle, ops[i], q);
    StillBehind(trace, ops, main, r, idle, low, q, a, b, i + 1, j);
  }
}
