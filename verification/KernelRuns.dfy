/** Runs of the kernel: what every sequence of operations keeps, and what it asks of the
    threads that call them. */
module KernelRuns {
  import opened RankOrder
  import opened KernelModel
  import opened Words
  import opened KernelLaws
  import opened KernelSteps
  import opened KernelAdmin

  datatype Op =
    | CreateOp(thread: Tid, state: State, rank: int)
    | DestroyOp(thread: Tid)
    | PriorityOp(thread: Tid, rank: int)
    | JoinOp(thread: Tid)
    | PassOp(thread: Tid)
    | SuspendOp(thread: Tid)
    | ResumeOp(thread: Tid)
    | YieldOp
    | ExitOp
    | TimeSliceOp
    | SleepOp(queue: Qid)
    | WakeupOp(queue: Qid)
    | WakeupAllOp(queue: Qid)
    | POp(queue: Qid)
    | VOp(queue: Qid)
    | NewQueueOp(queue: Qid)
    | NewSemaphoreOp(queue: Qid, initial: Int32)
    | DropQueueOp(queue: Qid)

  predicate OnThread(op: Op) {
    op.CreateOp? || op.DestroyOp? || op.PriorityOp? || op.JoinOp? ||
    op.PassOp? || op.SuspendOp? || op.ResumeOp?
  }

  function Step(k: Kernel, op: Op): Kernel {
    match op
    case CreateOp(t, s, r) => Create(k, t, s, r)
    case DestroyOp(t) => Destroy(k, t)
    case PriorityOp(t, p) => SetPriority(k, t, p)
    case JoinOp(t) => Join(k, t)
    case PassOp(t) => Pass(k, t)
    case SuspendOp(t) => Suspend(k, t)
    case ResumeOp(t) => Resume(k, t)
    case YieldOp => Yield(k)
    case ExitOp => Exit(k)
    case TimeSliceOp => Reschedule(k)
    case SleepOp(q) => Sleep(k, q)
    case WakeupOp(q) => Wakeup(k, q)
    case WakeupAllOp(q) => WakeupAll(k, q)
    case POp(q) => P(k, q)
    case VOp(q) => V(k, q)
    case NewQueueOp(q) => CreateQueue(k, q)
    case NewSemaphoreOp(q, v) => CreateSemaphore(k, q, v)
    case DropQueueOp(q) => DestroyQueue(k, q)
  }

  /** The objects an operation is called on exist, and those it creates are new. */
  predicate Exists(k: Kernel, op: Op) {
    match op
    case CreateOp(t, s, r) => t !in k.threads && t != 0
    case DestroyOp(t) => t in k.threads
    case PriorityOp(t, p) => t in k.threads
    case JoinOp(t) => t in k.threads
    case PassOp(t) => t in k.threads
    case SuspendOp(t) => t in k.threads
    case ResumeOp(t) => t in k.threads
    case YieldOp => true
    case ExitOp => true
    case TimeSliceOp => true
    case SleepOp(q) => q in k.queues
    case WakeupOp(q) => q in k.queues
    case WakeupAllOp(q) => q in k.queues
    case POp(q) => q in k.queues
    case VOp(q) => q in k.queues
    case NewQueueOp(q) => q !in k.queues && q != 0
    case NewSemaphoreOp(q, v) => q !in k.queues && q != 0
    case DropQueueOp(q) => q in k.queues
  }

  /** The condition of each operation. */
  predicate Guard(k: Kernel, idle: Tid, op: Op)
    requires Exists(k, op) && k.chosen in k.threads
  {
    match op
    case CreateOp(t, s, r) => CreateOk(k, s, r)
    case DestroyOp(t) => DestroyOk(k, idle, t)
    case PriorityOp(t, p) => PriorityOk(k, t, p)
    case JoinOp(t) => JoinOk(k, idle, t)
    case SuspendOp(t) => SuspendOk(k, idle, t)
    case ExitOp => ExitOk(k, idle)
    case SleepOp(q) => k.chosen != idle
    case POp(q) => 1 <= Value(k, q) || k.chosen != idle
    case _ => true
  }

  /** What threads that keep to the conditions call. */
  predicate Admitted(k: Kernel, idle: Tid, op: Op) {
    Exists(k, op) && (k.chosen in k.threads ==> Guard(k, idle, op))
  }

  lemma ValueKeeps(k: Kernel, idle: Tid, r: Tid, v: map<Qid, Int32>)
    requires Mid(k, idle, r)
    ensures Mid(k.(value := v), idle, r)
  {
    var d := k.(value := v);
    SameLive(k, d);
    assert forall u :: u in k.threads ==> Placed(k, u);
    assert forall u :: u in d.threads ==> Placed(d, u);
    assert forall q :: q in k.queues ==> QueueOk(k, q);
    assert forall q :: q in d.queues ==> QueueOk(d, q);
  }

  lemma NewQueueKeeps(k: Kernel, idle: Tid, q: Qid)
    requires Inv(k, idle) && q !in k.queues && q != 0
    ensures Inv(CreateQueue(k, q), idle)
  {
    var d := CreateQueue(k, q);
    SameLive(k, d);
    forall u | u in d.threads
      ensures Placed(d, u)
    {
      assert Placed(k, u);
    }
    forall p | p in d.queues
      ensures QueueOk(d, p)
    {
      assert p != q ==> QueueOk(k, p);
    }
  }

  lemma DropQueueKeeps(k: Kernel, idle: Tid, q: Qid)
    requires Inv(k, idle) && q in k.queues
    ensures Inv(DestroyQueue(k, q), idle)
  {
    WakeupAllKeeps(k, idle, q);
    DropEmptyKeeps(WakeupAll(k, q), idle, q);
  }

  lemma DropEmptyKeeps(k: Kernel, idle: Tid, q: Qid)
    requires Inv(k, idle) && q in k.queues && k.queues[q] == []
    ensures Inv(k.(queues := k.queues - {q}, value := k.value - {q}), idle)
  {
    var d := k.(queues := k.queues - {q}, value := k.value - {q});
    SameLive(k, d);
    forall u | u in d.threads
      ensures Placed(d, u)
    {
      assert Placed(k, u);
    }
    forall p | p in d.queues
      ensures QueueOk(d, p)
    {
      assert QueueOk(k, p);
    }
  }

  /** Every operation keeps the invariant exactly under its condition. */
  lemma StepIff(k: Kernel, idle: Tid, op: Op)
    requires Inv(k, idle) && Exists(k, op)
    ensures k.chosen in k.threads
    ensures Inv(Step(k, op), idle) <==> Guard(k, idle, op)
  {
    ChosenIsThread(k, idle, k.chosen);
    hide Inv;
    if OnThread(op) {
      ThreadStepIff(k, idle, op);
    } else {
      QueueStepIff(k, idle, op);
    }
  }

  lemma ThreadStepIff(k: Kernel, idle: Tid, op: Op)
    requires Inv(k, idle) && Exists(k, op) && k.chosen in k.threads
    requires OnThread(op)
    ensures Inv(Step(k, op), idle) <==> Guard(k, idle, op)
  {
    hide Inv, Create, Destroy, SetPriority, Join, Pass, Suspend, Resume,
      CreateOk, DestroyOk, PriorityOk, JoinOk, SuspendOk;
    match op
    case CreateOp(t, s, r) => CreateIff(k, idle, t, s, r);
    case DestroyOp(t) => DestroyIff(k, idle, t);
    case PriorityOp(t, p) => PriorityIff(k, idle, t, p);
    case JoinOp(t) => JoinIff(k, idle, t);
    case PassOp(t) => PassKeeps(k, idle, t);
    case SuspendOp(t) => SuspendIff(k, idle, t);
    case ResumeOp(t) => ResumeKeeps(k, idle, t);
  }

  lemma QueueStepIff(k: Kernel, idle: Tid, op: Op)
    requires Inv(k, idle) && Exists(k, op) && k.chosen in k.threads
    requires !OnThread(op)
    ensures Inv(Step(k, op), idle) <==> Guard(k, idle, op)
  {
    hide Inv, Yield, Exit, Reschedule, Sleep, Wakeup, WakeupAll, P, V, CreateQueue, CreateSemaphore, DestroyQueue,
      ExitOk;
    match op
    case YieldOp => YieldKeeps(k, idle);
    case ExitOp => ExitIff(k, idle);
    case TimeSliceOp => RescheduleKeeps(k, idle);
    case SleepOp(q) => SleepIff(k, idle, q);
    case WakeupOp(q) => WakeupKeeps(k, idle, q);
    case WakeupAllOp(q) => WakeupAllKeeps(k, idle, q);
    case POp(q) => PIff(k, idle, q);
    case VOp(q) => VKeeps(k, idle, q);
    case NewQueueOp(q) => NewQueueKeeps(k, idle, q);
    case NewSemaphoreOp(q, v) => NewSemaphoreKeeps(k, idle, q, v);
    case DropQueueOp(q) => DropQueueKeeps(k, idle, q);
  }

  lemma PIff(k: Kernel, idle: Tid, q: Qid)
    requires Inv(k, idle) && q in k.queues
    ensures Inv(P(k, q), idle) <==> 1 <= Value(k, q) || k.chosen != idle
  {
    hide Sleep;
    var d := SetValue(k, q, Wrap(Value(k, q) - 1));
    ValueKeeps(k, idle, k.chosen, d.value);
    SleepIff(d, idle, q);
  }

  lemma VKeeps(k: Kernel, idle: Tid, q: Qid)
    requires Inv(k, idle) && q in k.queues
    ensures Inv(V(k, q), idle)
  {
    hide Wakeup;
    var d := SetValue(k, q, Wrap(Value(k, q) + 1));
    ValueKeeps(k, idle, k.chosen, d.value);
    WakeupKeeps(d, idle, q);
  }

  lemma NewSemaphoreKeeps(k: Kernel, idle: Tid, q: Qid, v: Int32)
    requires Inv(k, idle) && q !in k.queues && q != 0
    ensures Inv(CreateSemaphore(k, q, v), idle)
  {
    NewQueueKeeps(k, idle, q);
    var d := CreateQueue(k, q);
    ValueKeeps(d, idle, d.chosen, d.value[q := v]);
  }

  // ----- Boot.

  /** `Thread::init`: the application's first thread, running, and then idle; then the boot code
      gives way to the first thread, never to be resumed. */
  function Boot(main: Tid, r: int, idle: Tid, low: int): Kernel {
    Load(Create(Create(HALTED, main, RUNNING, r), idle, READY, low), main)
  }

  /** The order of the two creations is not enough to keep the boot code from being taken for
      the first thread: idle must rank behind it. */
  lemma BootIff(main: Tid, r: int, idle: Tid, low: int)
    requires main != idle && main != 0 && idle != 0
    ensures Inv(Boot(main, r, idle, low), idle) <==> r < low
  {
    hide Create, Inv, Load;
    var first := Create(HALTED, main, RUNNING, r);
    FirstThread(main, r);
    if r < low {
      IdleBehind(first, main, r, idle, low);
      IdleAdded(Load(first, main), main, idle, low);
    } else {
      IdleAhead(first, main, r, idle, low);
    }
  }

  /** The kernel with the first thread in it. */
  ghost predicate Alone(k: Kernel, main: Tid, r: int) {
    k == Kernel(map[main := Thread(RUNNING, 0, 0)], map[main := r], [main], main, map[], map[], 1, 0, map[main := main])
  }

  /** Idle goes behind the first thread: whether it is created before or after the first thread's
      context is loaded makes no difference. */
  lemma IdleBehind(k: Kernel, main: Tid, r: int, idle: Tid, low: int)
    requires Alone(k, main, r) && main != idle && main != 0 && idle != 0 && r < low
    ensures Load(Create(k, idle, READY, low), main) == Create(Load(k, main), idle, READY, low)
    ensures idle !in Load(k, main).threads
  {
    hide Create, Choose, Insert;
    SecondChosen(k, main, r, idle, low);
    SecondChosen(Load(k, main), main, r, idle, low);
    assert k.context[idle := idle][main := 0] == k.context[main := 0][idle := idle];
  }

  lemma IdleAdded(k: Kernel, main: Tid, idle: Tid, low: int)
    requires Inv(k, main) && idle !in k.threads && idle != 0
    ensures Inv(Create(k, idle, READY, low), idle)
  {
    hide Create, Reschedule;
    CreateReady(k, main, idle, low);
    CreatedReady(k, main, idle, low);
  }

  /** Idle gets the CPU from the boot code, whose context is then taken for the first thread's. */
  lemma IdleAhead(k: Kernel, main: Tid, r: int, idle: Tid, low: int)
    requires Alone(k, main, r) && main != idle && main != 0 && idle != 0 && low <= r
    ensures !Inv(Load(Create(k, idle, READY, low), main), idle)
  {
    hide Create, Choose, Insert, Enter, Placed, QueueOk, Live, SortedBy, NoDup;
    SecondChosen(k, main, r, idle, low);
    var d := Create(k, idle, READY, low);
    assert d.chosen == idle && Context(d, main) == 0 && Load(d, main).cpu == 0;
  }

  lemma SecondChosen(k: Kernel, main: Tid, r: int, idle: Tid, low: int)
    requires k.ready == [main] && k.rank == map[main := r] && k.chosen == main
    requires main != idle && main != 0 && idle != 0
    ensures var (n, s) := (NewThread(k, idle, READY, low), if r < low then [main, idle] else [idle, main]);
      Create(k, idle, READY, low) == Dispatch(n.(ready := s, chosen := s[0]), main)
  {
    hide Enter, Requeue, Create, Dispatch, RanksOf;
    var rank: map<Tid, int> := map[main := r][idle := low];
    TwoThreads(main, r, idle, low);
    CreateReadyIs(k, idle, low, main, rank, Enter<Tid>([main], idle, rank));
  }

  /** Creating a ready thread, in terms of the ready list with it in. */
  lemma CreateReadyIs(k: Kernel, t: Tid, r: int, main: Tid, rank: map<Tid, int>, s: seq<Tid>)
    requires k.chosen == main != 0 && rank == k.rank[t := r] && s == Enter<Tid>(k.ready, t, rank)
    requires s != [] && Requeue<Tid>(s, main, rank) != []
    ensures var q := Requeue<Tid>(s, main, rank);
      Create(k, t, READY, r) == Dispatch(NewThread(k, t, READY, r).(ready := q, chosen := q[0]), main)
  {
    hide Enter, Requeue, Dispatch;
  }

  /** The ready list once idle is in, and once `main` has been queued again. */
  lemma TwoThreads(main: Tid, r: int, idle: Tid, low: int)
    requires main != idle
    ensures var rank: map<Tid, int> := map[main := r][idle := low];
      var s := Enter<Tid>([main], idle, rank);
      && s == (if low < r then [idle, main] else [main, idle])
      && Requeue<Tid>(s, main, rank) == (if r < low then [main, idle] else [idle, main])
  {
    var rank: map<Tid, int> := map[main := r][idle := low];
    assert RanksOf([main], rank) == [r] && RanksOf([idle], rank) == [low];
    assert Position([r], low) == (if low < r then 0 else 1) && Position([low], r) == (if r < low then 0 else 1);
    assert IndexOf([main, idle], main) == 0;
    assert [idle, main][1..] == [main];
    assert IndexOf([idle, main], main) == 1;
    assert Leave([main, idle], main) == [idle] && Leave([idle, main], main) == [idle];
  }

  lemma CreatedReady(k: Kernel, idle: Tid, t: Tid, r: int)
    requires Inv(k, idle) && t !in k.threads && t != 0
    ensures t in Create(k, t, READY, r).ready
  {
    hide Enter, Leave, Requeue;
    var n := NewThread(k, t, READY, r);
    ChosenIsThread(k, idle, k.chosen);
    EnterMembers(k.ready, t, n.rank);
    ChooseMembers(Insert(n, t));
    DispatchFrame(Choose(Insert(n, t)), k.chosen);
  }

  lemma FirstThread(main: Tid, r: int)
    requires main != 0
    ensures var k := Create(HALTED, main, RUNNING, r);
      Alone(k, main, r) && Inv(Load(k, main), main)
  {
    hide Enter, Requeue, Leave, NoDup, SortedBy;
    AloneAfter(main, map[main := r]);
    var k := Create(HALTED, main, RUNNING, r);
    assert Alone(k, main, r) && Live(k) == {main};
    OneSorted(main, k.rank);
  }

  lemma OneSorted(t: Tid, rank: map<Tid, int>)
    ensures NoDup([t]) && SortedBy([t], rank)
  {}

  // ----- Runs.

  ghost predicate IsRun(trace: seq<Kernel>, ops: seq<Op>, main: Tid, r: int, idle: Tid, low: int) {
    && |trace| == |ops| + 1
    && main != idle && main != 0 && idle != 0 && r < low
    && trace[0] == Boot(main, r, idle, low)
    && forall i :: 0 <= i < |ops| ==> Admitted(trace[i], idle, ops[i]) && trace[i + 1] == Step(trace[i], ops[i])
  }

  /** In every run each thread is in the list its state names and in no other, one thread
      runs, it is the chosen one, and there is always a thread to run. */
  lemma {:induction false} RunKeeps(trace: seq<Kernel>, ops: seq<Op>, main: Tid, r: int, idle: Tid, low: int, n: nat)
    requires IsRun(trace, ops, main, r, idle, low) && n < |trace|
    ensures Inv(trace[n], idle)
  {
    if n == 0 {
      BootIff(main, r, idle, low);
    } else {
      RunKeeps(trace, ops, main, r, idle, low, n - 1);
      StepIff(trace[n - 1], idle, ops[n - 1]);
    }
  }

  /** What the invariant says of a thread's one link, and of where it goes on. */
  lemma OneList(k: Kernel, idle: Tid, t: Tid)
    requires Inv(k, idle) && t in k.threads
    ensures t in k.ready <==> k.threads[t].state == READY || k.threads[t].state == RUNNING
    ensures forall q :: q in k.queues ==>
              (t in k.queues[q] <==> k.threads[t].state == WAITING && k.threads[t].waiting == q)
    ensures k.threads[t].state == RUNNING <==> t == k.chosen
    ensures k.cpu == k.chosen && (t != k.chosen ==> Context(k, t) == t)
  {
    assert Placed(k, t);
    ChosenIsThread(k, idle, k.chosen);
    assert forall q :: q in k.queues ==> QueueOk(k, q);
  }
}
