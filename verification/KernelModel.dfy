/** The thread scheduler and its wait queues as a state and the steps of its locked
    operations, on one CPU, with the preemptive priority criterion. */
module KernelModel {
  import opened RankOrder
  import opened Words

  /** Addresses of threads and of wait queues; 0 is the null pointer. */
  type Tid = nat
  type Qid = nat

  datatype State = BEGINNING | READY | RUNNING | SUSPENDED | WAITING | FINISHING

  datatype Thread = Thread(state: State, waiting: Qid, joining: Tid)

  /** `rank` is the rank in each thread's link, which the ready list and the wait queues
      share; `value` is the 32-bit counter of those queues that belong to a semaphore. `cpu` is the
      thread whose computation is on the CPU, 0 for the boot code and for one that has been
      restored from a context out of date; `context` says whose computation the context saved
      in each thread restores, 0 for one out of date. */
  datatype Kernel = Kernel(threads: map<Tid, Thread>, rank: map<Tid, int>, ready: seq<Tid>, chosen: Tid,
                           queues: map<Qid, seq<Tid>>, value: map<Qid, Int32>, count: int,
                           cpu: Tid, context: map<Tid, Tid>)

  const HALTED := Kernel(map[], map[], [], 0, map[], map[], 0, 0, map[])

  function Get(k: Kernel, t: Tid): Thread {
    if t in k.threads then k.threads[t] else Thread(BEGINNING, 0, 0)
  }

  function SetState(k: Kernel, t: Tid, s: State): Kernel {
    k.(threads := k.threads[t := Get(k, t).(state := s)])
  }

  function SetWaiting(k: Kernel, t: Tid, q: Qid): Kernel {
    k.(threads := k.threads[t := Get(k, t).(waiting := q)])
  }

  function SetJoining(k: Kernel, t: Tid, j: Tid): Kernel {
    k.(threads := k.threads[t := Get(k, t).(joining := j)])
  }

  function Context(k: Kernel, t: Tid): Tid {
    if t in k.context then k.context[t] else 0
  }

  function QueueOf(k: Kernel, q: Qid): seq<Tid> {
    if q in k.queues then k.queues[q] else []
  }

  function SetQueue(k: Kernel, q: Qid, s: seq<Tid>): Kernel {
    k.(queues := k.queues[q := s])
  }

  // ----- The scheduling list.

  function Head(s: seq<Tid>): Tid {
    if s == [] then 0 else s[0]
  }

  function Insert(k: Kernel, t: Tid): Kernel {
    var r := Enter(k.ready, t, k.rank);
    k.(ready := r, chosen := if k.chosen == 0 then Head(r) else k.chosen)
  }

  function Remove(k: Kernel, t: Tid): Kernel {
    var r := Leave(k.ready, t);
    k.(ready := r, chosen := if t in k.ready && k.chosen == t then Head(r) else k.chosen)
  }

  function Choose(k: Kernel): Kernel {
    if k.ready == [] then k
    else
      var r := Requeue(k.ready, k.chosen, k.rank);
      k.(ready := r, chosen := Head(r))
  }

  function ChooseAnother(k: Kernel): Kernel {
    if |k.ready| <= 1 then k
    else
      var others := Leave(k.ready, k.chosen);
      k.(ready := Enter(others, k.chosen, k.rank), chosen := Head(others))
  }

  function ChooseThread(k: Kernel, t: Tid): Kernel
    requires t in k.ready
  {
    k.(ready := Requeue(k.ready, k.chosen, k.rank), chosen := t)
  }

  // ----- The operations of `Thread`.

  /** What is on the CPU is saved in `t`. */
  function Save(k: Kernel, t: Tid): Kernel {
    k.(context := k.context[t := k.cpu])
  }

  /** The context of `t` is restored, and is out of date from then on. */
  function Load(k: Kernel, t: Tid): Kernel {
    k.(cpu := Context(k, t), context := k.context[t := 0])
  }

  function Switch(k: Kernel, prev: Tid, next: Tid): Kernel {
    Load(Save(k, prev), next)
  }

  function Dispatch(k: Kernel, prev: Tid): Kernel {
    if prev == k.chosen then k
    else
      var j := if Get(k, prev).state == RUNNING then SetState(k, prev, READY) else k;
      Switch(SetState(j, k.chosen, RUNNING), prev, k.chosen)
  }

  function Reschedule(k: Kernel): Kernel {
    Dispatch(Choose(k), k.chosen)
  }

  function Create(k: Kernel, t: Tid, s: State, r: int): Kernel {
    var n := k.(threads := k.threads[t := Thread(s, 0, 0)], rank := k.rank[t := r], count := k.count + 1,
                context := k.context[t := t]);
    var i := Insert(n, t);
    Reschedule(if s != READY && s != RUNNING then Remove(i, t) else i)
  }

  /** A running thread that deletes itself exits instead and keeps its memory. */
  function Destroy(k: Kernel, t: Tid): Kernel {
    match Get(k, t).state
    case RUNNING => Exit(k)
    case BEGINNING => Erase(Remove(Uncounted(Insert(k, t)), t), t)
    case SUSPENDED => Erase(Remove(Uncounted(Insert(k, t)), t), t)
    case READY => Erase(Remove(Uncounted(k), t), t)
    case WAITING =>
      var q := Get(k, t).waiting;
      Erase(Remove(Uncounted(Insert(SetQueue(k, q, Leave(QueueOf(k, q), t)), t)), t), t)
    case FINISHING => Erase(Remove(k, t), t)
  }

  function Uncounted(k: Kernel): Kernel {
    k.(count := k.count - 1)
  }

  function Erase(k: Kernel, t: Tid): Kernel {
    k.(threads := k.threads - {t}, rank := k.rank - {t}, context := k.context - {t})
  }

  function SetPriority(k: Kernel, t: Tid, p: int): Kernel {
    var r := Remove(k, t);
    Reschedule(Insert(r.(rank := r.rank[t := p]), t))
  }

  function Join(k: Kernel, t: Tid): Kernel {
    if Get(k, t).state != FINISHING then Suspend(SetJoining(k, t, k.chosen), k.chosen) else k
  }

  function Pass(k: Kernel, t: Tid): Kernel {
    if t in k.ready then Dispatch(ChooseThread(k, t), k.chosen) else k
  }

  function Suspend(k: Kernel, t: Tid): Kernel {
    Dispatch(SetState(Remove(k, t), t, SUSPENDED), k.chosen)
  }

  function Resume(k: Kernel, t: Tid): Kernel {
    Reschedule(if Get(k, t).state == SUSPENDED then Insert(SetState(k, t, READY), t) else k)
  }

  function Yield(k: Kernel): Kernel {
    Dispatch(ChooseAnother(k), k.chosen)
  }

  function Exit(k: Kernel): Kernel {
    var t := k.chosen;
    var d := Uncounted(SetState(Remove(k, t), t, FINISHING));
    Dispatch(Choose(ReleaseJoiner(d, t)), t)
  }

  function ReleaseJoiner(k: Kernel, t: Tid): Kernel {
    var j := Get(k, t).joining;
    if j == 0 then k else SetJoining(Insert(SetState(k, j, READY), j), t, 0)
  }

  function Sleep(k: Kernel, q: Qid): Kernel {
    var t := k.chosen;
    var w := SetState(Remove(k, t), t, WAITING);
    Dispatch(SetWaiting(SetQueue(w, q, Enter(QueueOf(w, q), t, w.rank)), t, q), t)
  }

  /** The head of the wait queue becomes ready. */
  function WakeOne(k: Kernel, q: Qid): Kernel
    requires QueueOf(k, q) != []
  {
    var t := QueueOf(k, q)[0];
    Insert(SetWaiting(SetState(SetQueue(k, q, QueueOf(k, q)[1..]), t, READY), t, 0), t)
  }

  function WakeEach(k: Kernel, q: Qid): Kernel
    decreases |QueueOf(k, q)|
  {
    if QueueOf(k, q) == [] then k else WakeEach(WakeOne(k, q), q)
  }

  function Wakeup(k: Kernel, q: Qid): Kernel {
    Reschedule(if QueueOf(k, q) == [] then k else WakeOne(k, q))
  }

  function WakeupAll(k: Kernel, q: Qid): Kernel {
    Reschedule(WakeEach(k, q))
  }

  // ----- Semaphores.

  function Value(k: Kernel, q: Qid): Int32 {
    if q in k.value then k.value[q] else 0
  }

  function SetValue(k: Kernel, q: Qid, v: Int32): Kernel {
    k.(value := k.value[q := v])
  }

  function P(k: Kernel, q: Qid): Kernel {
    var d := SetValue(k, q, Wrap(Value(k, q) - 1));
    if Value(k, q) < 1 then Sleep(d, q) else d
  }

  function V(k: Kernel, q: Qid): Kernel {
    var d := SetValue(k, q, Wrap(Value(k, q) + 1));
    if Value(k, q) < 0 then Wakeup(d, q) else d
  }

  function CreateQueue(k: Kernel, q: Qid): Kernel {
    SetQueue(k, q, [])
  }

  function CreateSemaphore(k: Kernel, q: Qid, v: Int32): Kernel {
    SetValue(SetQueue(k, q, []), q, v)
  }

  /** The destructor shared by all synchronizers wakes everybody up. */
  function DestroyQueue(k: Kernel, q: Qid): Kernel {
    var w := WakeupAll(k, q);
    w.(queues := w.queues - {q}, value := w.value - {q})
  }

  // ----- The invariant.

  /** A thread is in the ready list exactly when ready or running, and in a wait queue exactly
      when waiting, and then in the one it names. */
  predicate Placed(k: Kernel, t: Tid)
    requires t in k.threads
  {
    var th := k.threads[t];
    && t != 0
    && (t in k.ready <==> th.state == READY || th.state == RUNNING)
    && (th.state == WAITING ==> th.waiting in k.queues && t in k.queues[th.waiting])
    && (th.state != WAITING ==> th.waiting == 0)
  }

  ghost predicate ReadyOk(k: Kernel, idle: Tid) {
    && NoDup(k.ready) && SortedBy(k.ready, k.rank)
    && idle in k.ready && k.chosen in k.ready
    && forall t :: t in k.ready ==> t in k.threads
  }

  ghost predicate QueueOk(k: Kernel, q: Qid)
    requires q in k.queues
  {
    && q != 0
    && NoDup(k.queues[q]) && SortedBy(k.queues[q], k.rank)
    && forall t :: t in k.queues[q] ==>
         t in k.threads && k.threads[t].state == WAITING && k.threads[t].waiting == q
  }

  function Live(k: Kernel): set<Tid> {
    set t | t in k.threads && k.threads[t].state != FINISHING
  }

  /** Only `r` is on the CPU. */
  predicate OnCpu(k: Kernel, r: Tid) {
    && (forall t :: t in k.threads && k.threads[t].state == RUNNING ==> t == r)
    && (r in k.ready ==> Get(k, r).state == RUNNING)
  }

  /** `r` is on the CPU, and every other thread goes on where it left off. */
  predicate SavedOk(k: Kernel, r: Tid) {
    k.cpu == r && forall t :: t in k.threads ==> Context(k, t) == if t == r then 0 else t
  }

  /** What holds between the steps of an operation; `r` is the thread it runs on. */
  ghost predicate Mid(k: Kernel, idle: Tid, r: Tid) {
    && (forall t :: t in k.threads ==> Placed(k, t))
    && ReadyOk(k, idle)
    && (forall q :: q in k.queues ==> QueueOk(k, q))
    && k.count == |Live(k)|
    && OnCpu(k, r) && SavedOk(k, r)
  }

  /** What holds between operations: the thread on the CPU is the chosen one. */
  ghost predicate Inv(k: Kernel, idle: Tid) {
    Mid(k, idle, k.chosen)
  }
}
