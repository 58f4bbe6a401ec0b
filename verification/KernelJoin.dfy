/** Joining: with one joiner a thread, whom nobody else resumes or deletes, a thread that exits
    always finds its joiner suspended and in no list. */
module KernelJoin {
  import opened RankOrder
  import opened KernelModel
  import opened Words
  import opened KernelLaws
  import opened KernelSteps
  import opened KernelAdmin
  import opened KernelRuns

  type Threads = map<Tid, Thread>

  ghost predicate IsJoiner(m: Threads, u: Tid) {
    u != 0 && exists t :: t in m && m[t].joining == u
  }

  ghost predicate Joined(m: Threads, t: Tid)
    requires t in m
  {
    m[t].joining != 0 ==>
      && m[t].state != FINISHING && m[t].joining in m && m[m[t].joining].state == SUSPENDED
      && forall u :: u in m && u != t ==> m[u].joining != m[t].joining
  }

  /** Joiners are suspended, nobody joins two threads, and the joined ones have not finished. */
  ghost predicate JoinersOk(m: Threads) {
    forall t :: t in m ==> Joined(m, t)
  }

  // ----- What a change of the threads does to joining.

  /** Threads only moved between the lists. */
  predicate Calm(m: Threads, d: Threads) {
    && d.Keys == m.Keys
    && forall u :: u in m ==>
         && d[u].joining == m[u].joining
         && (m[u].state == SUSPENDED ==> d[u].state == SUSPENDED)
         && (d[u].state == FINISHING ==> m[u].state == FINISHING)
  }

  lemma CalmKeeps(m: Threads, d: Threads)
    requires JoinersOk(m) && Calm(m, d)
    ensures JoinersOk(d)
  {
    forall t | t in d
      ensures Joined(d, t)
    {
      assert Joined(m, t);
    }
  }

  lemma RestateJoiners(m: Threads, t: Tid, th: Thread)
    requires JoinersOk(m) && t in m && th.joining == m[t].joining
    requires th.state == SUSPENDED || !IsJoiner(m, t)
    requires th.state != FINISHING || m[t].state == FINISHING
    requires 0 !in m
    ensures JoinersOk(m[t := th])
  {
    var d := m[t := th];
    forall u | u in d
      ensures Joined(d, u)
    {
      assert Joined(m, u);
    }
  }

  lemma NewJoiners(m: Threads, t: Tid, s: State)
    requires JoinersOk(m) && t !in m
    ensures JoinersOk(m[t := Thread(s, 0, 0)])
  {
    var d := m[t := Thread(s, 0, 0)];
    forall u | u in d
      ensures Joined(d, u)
    {
      assert u != t ==> Joined(m, u);
    }
  }

  lemma EraseJoiners(m: Threads, t: Tid)
    requires JoinersOk(m) && !IsJoiner(m, t)
    ensures JoinersOk(m - {t})
  {
    var d := m - {t};
    forall u | u in d
      ensures Joined(d, u)
    {
      assert Joined(m, u);
    }
  }

  /** `r` suspends itself to join `t`. */
  lemma JoinJoiners(m: Threads, t: Tid, r: Tid)
    requires JoinersOk(m) && t in m && r in m && r != 0 && !IsJoiner(m, r)
    requires m[t].joining == 0 && m[t].state != FINISHING
    ensures var j := m[t := m[t].(joining := r)];
      JoinersOk(j[r := j[r].(state := SUSPENDED)])
  {
    var j := m[t := m[t].(joining := r)];
    var d := j[r := j[r].(state := SUSPENDED)];
    assert forall u :: u in m ==> m[u].joining != r;
    forall u | u in d
      ensures Joined(d, u)
    {
      assert Joined(m, u);
    }
  }

  /** `t` has exited and released its joiner. */
  function Exited(m: Threads, t: Tid): Threads
    requires t in m
  {
    var d := m[t := m[t].(state := FINISHING)];
    var j := m[t].joining;
    if j == 0 || j !in d then d
    else
      var w := d[j := d[j].(state := READY)];
      w[t := w[t].(joining := 0)]
  }

  lemma ExitedJoiners(m: Threads, t: Tid)
    requires JoinersOk(m) && t in m && t != 0 && !IsJoiner(m, t)
    ensures JoinersOk(Exited(m, t))
  {
    var d := Exited(m, t);
    assert Joined(m, t);
    forall u | u in d
      ensures Joined(d, u)
    {
      assert Joined(m, u);
    }
  }

  // ----- Handing the CPU over.

  lemma DispatchCalm(k: Kernel, idle: Tid, prev: Tid)
    requires Mid(k, idle, prev) && prev in k.threads
    ensures Calm(k.threads, Dispatch(k, prev).threads)
  {
    hide QueueOk, SortedBy, NoDup, Live, SavedOk;
    ChosenIsThread(k, idle, prev);
  }

  lemma RescheduleCalm(k: Kernel, idle: Tid)
    requires Inv(k, idle)
    ensures Calm(k.threads, Reschedule(k).threads)
  {
    ChosenIsThread(k, idle, k.chosen);
    ChooseKeeps(k, idle, k.chosen);
    hide Mid, Placed, Dispatch, Calm, Choose;
    DispatchCalm(Choose(k), idle, k.chosen);
  }

  /** The running thread joins nobody. */
  lemma RunningJoinsNobody(k: Kernel, idle: Tid, u: Tid)
    requires Inv(k, idle) && JoinersOk(k.threads) && u in k.threads && k.threads[u].state != SUSPENDED
    ensures !IsJoiner(k.threads, u)
  {
    hide Mid;
    assert forall t :: t in k.threads ==> Joined(k.threads, t);
  }

  lemma NoNullThread(k: Kernel, idle: Tid, r: Tid)
    requires Mid(k, idle, r)
    ensures 0 !in k.threads
  {
    assert forall t :: t in k.threads ==> Placed(k, t);
  }

  // ----- Thread operations.

  lemma CreateJoiners(k: Kernel, idle: Tid, t: Tid, s: State, r: int)
    requires Inv(k, idle) && JoinersOk(k.threads) && t !in k.threads && t != 0
    requires s == BEGINNING || s == SUSPENDED || s == READY
    ensures JoinersOk(Create(k, t, s, r).threads)
  {
    NewJoiners(k.threads, t, s);
    ChosenIsThread(k, idle, k.chosen);
    assert t !in k.ready;
    var n := NewThread(k, t, s, r);
    var i := if s == READY then Insert(n, t) else n;
    hide Inv, Mid, JoinersOk, Calm, Reschedule, Enter, Leave;
    if s == READY {
      NewReadyKeeps(k, idle, t, r);
    } else {
      NewThreadKeeps(k, idle, t, s, r);
      NewThreadInv(k, idle, t, s, r);
      InsertRemove(n, t);
    }
    RescheduleCalm(i, idle);
    CalmKeeps(n.threads, Reschedule(i).threads);
  }

  lemma NewThreadInv(k: Kernel, idle: Tid, t: Tid, s: State, r: int)
    requires Mid(NewThread(k, t, s, r), idle, k.chosen)
    ensures Inv(NewThread(k, t, s, r), idle)
  {
    hide Mid;
  }

  lemma PriorityJoiners(k: Kernel, idle: Tid, t: Tid, p: int)
    requires Inv(k, idle) && JoinersOk(k.threads) && t in k.threads && k.threads[t].state == READY
    ensures JoinersOk(SetPriority(k, t, p).threads)
  {
    var i := Reranked(k, t, p);
    RerankedReady(k, idle, t, p);
    hide Enter, Leave, Mid, JoinersOk, Calm, Reschedule;
    RescheduleCalm(i, idle);
    CalmKeeps(i.threads, Reschedule(i).threads);
  }

  lemma PassJoiners(k: Kernel, idle: Tid, t: Tid)
    requires Inv(k, idle) && JoinersOk(k.threads)
    ensures JoinersOk(Pass(k, t).threads)
  {
    if t in k.ready {
      ChosenIsThread(k, idle, k.chosen);
      ChooseThreadKeeps(k, idle, k.chosen, t);
      hide Mid, Placed, JoinersOk, Calm, Dispatch;
      DispatchCalm(ChooseThread(k, t), idle, k.chosen);
      CalmKeeps(k.threads, Pass(k, t).threads);
    }
  }

  lemma YieldJoiners(k: Kernel, idle: Tid)
    requires Inv(k, idle) && JoinersOk(k.threads)
    ensures JoinersOk(Yield(k).threads)
  {
    ChosenIsThread(k, idle, k.chosen);
    ChooseAnotherKeeps(k, idle, k.chosen);
    hide Mid, Placed, JoinersOk, Calm, Dispatch, Enter, Leave;
    DispatchCalm(ChooseAnother(k), idle, k.chosen);
    CalmKeeps(k.threads, Yield(k).threads);
  }

  lemma SuspendJoiners(k: Kernel, idle: Tid, t: Tid)
    requires Inv(k, idle) && t in k.threads && SuspendOk(k, idle, t)
    requires JoinersOk(k.threads[t := k.threads[t].(state := SUSPENDED)])
    ensures JoinersOk(Suspend(k, t).threads)
  {
    var d := SetState(Remove(k, t), t, SUSPENDED);
    ChosenIsThread(k, idle, k.chosen);
    TakeOffKeeps(k, idle, k.chosen, t);
    hide Mid, Placed, JoinersOk, Calm, Dispatch, Enter, Leave;
    DispatchCalm(d, idle, k.chosen);
    CalmKeeps(d.threads, Suspend(k, t).threads);
  }

  lemma ResumeJoiners(k: Kernel, idle: Tid, t: Tid)
    requires Inv(k, idle) && JoinersOk(k.threads) && t in k.threads && !IsJoiner(k.threads, t)
    ensures JoinersOk(Resume(k, t).threads)
  {
    ChosenIsThread(k, idle, k.chosen);
    NoNullThread(k, idle, k.chosen);
    var i := if k.threads[t].state == SUSPENDED then Insert(SetState(k, t, READY), t) else k;
    if k.threads[t].state == SUSPENDED {
      PutOnKeeps(k, idle, k.chosen, t);
      RestateJoiners(k.threads, t, k.threads[t].(state := READY));
    }
    hide Mid, Placed, JoinersOk, Calm, Enter, Leave, Reschedule;
    RescheduleCalm(i, idle);
    CalmKeeps(i.threads, Reschedule(i).threads);
  }

  lemma JoinKeepsJoiners(k: Kernel, idle: Tid, t: Tid)
    requires Inv(k, idle) && JoinersOk(k.threads) && t in k.threads
    requires k.threads[t].state == FINISHING || (k.chosen != idle && k.threads[t].joining == 0)
    ensures JoinersOk(Join(k, t).threads)
  {
    if k.threads[t].state != FINISHING {
      var r, j := k.chosen, SetJoining(k, t, k.chosen);
      ChosenIsThread(k, idle, r);
      RunningJoinsNobody(k, idle, r);
      JoiningKeeps(k, idle, r, t, r);
      JoinJoiners(k.threads, t, r);
      hide Mid, Placed, JoinersOk, Suspend;
      SuspendJoiners(j, idle, r);
    }
  }

  lemma ExitJoiners(k: Kernel, idle: Tid)
    requires Inv(k, idle) && JoinersOk(k.threads) && k.chosen in k.threads && k.chosen != idle
    ensures JoinersOk(Exit(k).threads)
  {
    var t := k.chosen;
    var j := k.threads[t].joining;
    var d := Uncounted(SetState(Remove(k, t), t, FINISHING));
    ChosenIsThread(k, idle, t);
    RunningJoinsNobody(k, idle, t);
    NoNullThread(k, idle, t);
    FinishKeeps(k, idle);
    assert Joined(k.threads, t);
    ExitedJoiners(k.threads, t);
    hide Enter, Leave, Requeue, Mid, Placed, JoinersOk, Joined, IsJoiner, Calm, Choose, Dispatch;
    if j != 0 {
      assert t != j && d.threads[j].state == SUSPENDED;
      PutOnKeeps(d, idle, t, j);
      JoiningKeeps(Insert(SetState(d, j, READY), j), idle, t, t, 0);
    }
    var i := ReleaseJoiner(d, t);
    assert i.threads == Exited(k.threads, t);
    ChooseKeeps(i, idle, t);
    DispatchCalm(Choose(i), idle, t);
    CalmKeeps(i.threads, Exit(k).threads);
  }

  lemma DestroyJoiners(k: Kernel, idle: Tid, t: Tid)
    requires Inv(k, idle) && JoinersOk(k.threads) && t in k.threads && t != idle && !IsJoiner(k.threads, t)
    ensures JoinersOk(Destroy(k, t).threads)
  {
    OneList(k, idle, t);
    if t == k.chosen {
      hide Mid, JoinersOk, Exit;
      ExitJoiners(k, idle);
    } else {
      hide Mid, JoinersOk, IsJoiner, Enter, Leave;
      EraseJoiners(k.threads, t);
      DestroyThreads(k, t);
    }
  }

  lemma DestroyThreads(k: Kernel, t: Tid)
    requires t in k.threads && k.threads[t].state != RUNNING
    ensures Destroy(k, t).threads == k.threads - {t}
  {
    hide Enter, Leave;
  }

  // ----- Wait queues.

  lemma AsleepJoiners(k: Kernel, idle: Tid, q: Qid)
    requires Inv(k, idle) && JoinersOk(k.threads)
    ensures k.chosen in k.threads && JoinersOk(Asleep(k, q).threads)
  {
    var t := k.chosen;
    ChosenIsThread(k, idle, t);
    RunningJoinsNobody(k, idle, t);
    NoNullThread(k, idle, t);
    hide Inv, Mid, Placed, JoinersOk, IsJoiner, Asleep;
    RestateJoiners(k.threads, t, k.threads[t].(state := WAITING, waiting := q));
    AsleepThread(k, q);
  }

  lemma AsleepThread(k: Kernel, q: Qid)
    requires k.chosen in k.threads
    ensures Asleep(k, q).threads == k.threads[k.chosen := k.threads[k.chosen].(state := WAITING, waiting := q)]
  {
    hide Enter, Leave;
  }

  lemma SleepJoiners(k: Kernel, idle: Tid, q: Qid)
    requires Inv(k, idle) && JoinersOk(k.threads) && q in k.queues && k.chosen != idle
    ensures JoinersOk(Sleep(k, q).threads)
  {
    hide Inv, Mid, Enter, Leave, Placed, JoinersOk, Calm, Dispatch;
    AsleepKeeps(k, idle, q);
    AsleepJoiners(k, idle, q);
    DispatchCalm(Asleep(k, q), idle, k.chosen);
    CalmKeeps(Asleep(k, q).threads, Sleep(k, q).threads);
  }

  lemma WakeOneJoiners(k: Kernel, idle: Tid, r: Tid, q: Qid)
    requires Mid(k, idle, r) && JoinersOk(k.threads) && q in k.queues && k.queues[q] != []
    ensures JoinersOk(WakeOne(k, q).threads)
  {
    var t := k.queues[q][0];
    WaiterIsThread(k, idle, r, q, t);
    NoNullThread(k, idle, r);
    hide Mid, Insert;
    assert forall u :: u in k.threads ==> Joined(k.threads, u);
    RestateJoiners(k.threads, t, k.threads[t].(state := READY, waiting := 0));
    hide JoinersOk, Joined;
    WokenThread(k, q);
  }

  lemma WaiterIsThread(k: Kernel, idle: Tid, r: Tid, q: Qid, t: Tid)
    requires Mid(k, idle, r) && q in k.queues && t in k.queues[q]
    ensures t in k.threads && k.threads[t].state == WAITING
  {
    assert QueueOk(k, q);
  }

  lemma WokenThread(k: Kernel, q: Qid)
    requires q in k.queues && k.queues[q] != [] && k.queues[q][0] in k.threads
    ensures var t := k.queues[q][0];
      WakeOne(k, q).threads == k.threads[t := k.threads[t].(state := READY, waiting := 0)]
  {
    hide Enter;
  }

  lemma {:induction false} WakeEachJoiners(k: Kernel, idle: Tid, r: Tid, q: Qid)
    requires Mid(k, idle, r) && r in k.ready && JoinersOk(k.threads) && q in k.queues
    ensures JoinersOk(WakeEach(k, q).threads)
    decreases |QueueOf(k, q)|
  {
    if k.queues[q] != [] {
      hide Mid, JoinersOk;
      WakeOneKeeps(k, idle, r, q);
      WakeOneJoiners(k, idle, r, q);
      WakeEachJoiners(WakeOne(k, q), idle, r, q);
    }
  }

  lemma WakeupAllJoiners(k: Kernel, idle: Tid, q: Qid)
    requires Inv(k, idle) && JoinersOk(k.threads) && q in k.queues
    ensures JoinersOk(WakeupAll(k, q).threads)
  {
    WakeEachKeeps(k, idle, k.chosen, q);
    WakeEachJoiners(k, idle, k.chosen, q);
    hide Mid, JoinersOk, Calm, Reschedule;
    RescheduleCalm(WakeEach(k, q), idle);
    CalmKeeps(WakeEach(k, q).threads, WakeupAll(k, q).threads);
  }

  lemma WakeupJoiners(k: Kernel, idle: Tid, q: Qid)
    requires Inv(k, idle) && JoinersOk(k.threads) && q in k.queues
    ensures JoinersOk(Wakeup(k, q).threads)
  {
    var i := if k.queues[q] == [] then k else WakeOne(k, q);
    if k.queues[q] != [] {
      WakeOneKeeps(k, idle, k.chosen, q);
      WakeOneJoiners(k, idle, k.chosen, q);
    }
    hide Mid, JoinersOk, Calm, Reschedule, WakeOne;
    RescheduleCalm(i, idle);
    CalmKeeps(i.threads, Wakeup(k, q).threads);
  }

  // ----- Runs.

  /** What the kernel asks of the threads that call it, in terms they can check. */
  ghost predicate Polite(k: Kernel, idle: Tid, op: Op) {
    match op
    case CreateOp(t, s, r) => s == BEGINNING || s == SUSPENDED || s == READY
    case DestroyOp(t) => t != idle && !IsJoiner(k.threads, t)
    case PriorityOp(t, p) => Get(k, t).state == READY
    case JoinOp(t) => Get(k, t).state == FINISHING || (k.chosen != idle && Get(k, t).joining == 0)
    case SuspendOp(t) => t != idle && Get(k, t).state != WAITING && Get(k, t).state != FINISHING
    case ResumeOp(t) => !IsJoiner(k.threads, t)
    case ExitOp => k.chosen != idle
    case SleepOp(q) => k.chosen != idle
    case POp(q) => k.chosen != idle
    case _ => true
  }

  lemma PoliteIsGuarded(k: Kernel, idle: Tid, op: Op)
    requires Inv(k, idle) && Exists(k, op) && k.chosen in k.threads && JoinersOk(k.threads) && Polite(k, idle, op)
    ensures Guard(k, idle, op)
  {
    ChosenIsThread(k, idle, k.chosen);
    assert Joined(k.threads, k.chosen);
    if op.DestroyOp? {
      OneList(k, idle, op.thread);
      assert Joined(k.threads, op.thread);
    }
  }

  lemma PoliteThreadStep(k: Kernel, idle: Tid, op: Op)
    requires Inv(k, idle) && Exists(k, op) && k.chosen in k.threads && JoinersOk(k.threads) && Polite(k, idle, op)
    requires OnThread(op)
    ensures JoinersOk(Step(k, op).threads)
  {
    if op.SuspendOp? {
      NoNullThread(k, idle, k.chosen);
      RestateJoiners(k.threads, op.thread, k.threads[op.thread].(state := SUSPENDED));
    }
    hide Mid, JoinersOk, IsJoiner, Create, Destroy, SetPriority, Join, Pass, Suspend, Resume;
    match op
    case CreateOp(t, s, r) => CreateJoiners(k, idle, t, s, r);
    case DestroyOp(t) => DestroyJoiners(k, idle, t);
    case PriorityOp(t, p) => PriorityJoiners(k, idle, t, p);
    case JoinOp(t) => JoinKeepsJoiners(k, idle, t);
    case PassOp(t) => PassJoiners(k, idle, t);
    case SuspendOp(t) => SuspendJoiners(k, idle, t);
    case ResumeOp(t) => ResumeJoiners(k, idle, t);
  }

  lemma PoliteQueueStep(k: Kernel, idle: Tid, op: Op)
    requires Inv(k, idle) && Exists(k, op) && k.chosen in k.threads && JoinersOk(k.threads) && Polite(k, idle, op)
    requires !OnThread(op)
    ensures JoinersOk(Step(k, op).threads)
  {
    hide Inv, JoinersOk, IsJoiner, Yield, Exit, Reschedule, Sleep, Wakeup, WakeupAll, P, V, DestroyQueue, Calm;
    match op
    case YieldOp => YieldJoiners(k, idle);
    case ExitOp => ExitJoiners(k, idle);
    case TimeSliceOp => RescheduleCalm(k, idle); CalmKeeps(k.threads, Reschedule(k).threads);
    case SleepOp(q) => SleepJoiners(k, idle, q);
    case WakeupOp(q) => WakeupJoiners(k, idle, q);
    case WakeupAllOp(q) => WakeupAllJoiners(k, idle, q);
    case POp(q) => PJoiners(k, idle, q);
    case VOp(q) => VJoiners(k, idle, q);
    case NewQueueOp(q) =>
    case NewSemaphoreOp(q, v) =>
    case DropQueueOp(q) => DropJoiners(k, idle, q);
  }

  lemma PJoiners(k: Kernel, idle: Tid, q: Qid)
    requires Inv(k, idle) && JoinersOk(k.threads) && q in k.queues && k.chosen != idle
    ensures JoinersOk(P(k, q).threads)
  {
    hide Mid, JoinersOk, Sleep;
    var d := SetValue(k, q, Wrap(Value(k, q) - 1));
    ValueKeeps(k, idle, k.chosen, d.value);
    if Value(k, q) < 1 {
      SleepJoiners(d, idle, q);
    }
  }

  lemma VJoiners(k: Kernel, idle: Tid, q: Qid)
    requires Inv(k, idle) && JoinersOk(k.threads) && q in k.queues
    ensures JoinersOk(V(k, q).threads)
  {
    hide Mid, JoinersOk, Wakeup;
    var d := SetValue(k, q, Wrap(Value(k, q) + 1));
    ValueKeeps(k, idle, k.chosen, d.value);
    if Value(k, q) < 0 {
      WakeupJoiners(d, idle, q);
    }
  }

  lemma DropJoiners(k: Kernel, idle: Tid, q: Qid)
    requires Inv(k, idle) && JoinersOk(k.threads) && q in k.queues
    ensures JoinersOk(DestroyQueue(k, q).threads)
  {
    hide Inv, JoinersOk, WakeupAll;
    WakeupAllJoiners(k, idle, q);
  }

  lemma PoliteStep(k: Kernel, idle: Tid, op: Op)
    requires Inv(k, idle) && Exists(k, op) && JoinersOk(k.threads) && Polite(k, idle, op)
    ensures Inv(Step(k, op), idle) && JoinersOk(Step(k, op).threads)
  {
    StepIff(k, idle, op);
    PoliteIsGuarded(k, idle, op);
    hide Inv, JoinersOk, Polite, Exists, Guard, Step;
    if OnThread(op) {
      PoliteThreadStep(k, idle, op);
    } else {
      PoliteQueueStep(k, idle, op);
    }
  }

  ghost predicate IsPoliteRun(trace: seq<Kernel>, ops: seq<Op>, main: Tid, r: int, idle: Tid, low: int) {
    && |trace| == |ops| + 1
    && main != idle && main != 0 && idle != 0 && r < low
    && trace[0] == Boot(main, r, idle, low)
    && forall i :: 0 <= i < |ops| ==>
         Exists(trace[i], ops[i]) && Polite(trace[i], idle, ops[i]) && trace[i + 1] == Step(trace[i], ops[i])
  }

  /** Threads that keep to the joining discipline never drive the kernel out of its invariant,
      and every joiner sleeps until the thread it joins exits or is deleted. */
  lemma {:induction false} PoliteRunKeeps(trace: seq<Kernel>, ops: seq<Op>,
        main: Tid, r: int, idle: Tid, low: int, n: nat)
    requires IsPoliteRun(trace, ops, main, r, idle, low) && n < |trace|
    ensures Inv(trace[n], idle) && JoinersOk(trace[n].threads)
  {
    hide Inv, JoinersOk, Step, Exists, Polite;
    if n == 0 {
      BootIff(main, r, idle, low);
      BootJoiners(main, r, idle, low);
    } else {
      PoliteRunKeeps(trace, ops, main, r, idle, low, n - 1);
      PoliteStep(trace[n - 1], idle, ops[n - 1]);
    }
  }

  lemma BootJoiners(main: Tid, r: int, idle: Tid, low: int)
    requires main != idle && main != 0 && idle != 0 && r < low
    ensures JoinersOk(Boot(main, r, idle, low).threads)
  {
    hide Inv, Create;
    FirstThread(main, r);
    var first := Create(HALTED, main, RUNNING, r);
    IdleBehind(first, main, r, idle, low);
    CreateJoiners(Load(first, main), main, idle, READY, low);
  }
}
