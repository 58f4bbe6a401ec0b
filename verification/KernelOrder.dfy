/** Who gets the CPU. */
module KernelOrder {
  import opened RankOrder
  import opened KernelModel
  import opened Words
  import opened KernelLaws
  import opened KernelSteps
  import opened KernelAdmin
  import opened KernelRuns

  /** The running thread is first in the ready list, and no ready thread ranks before it. */
  ghost predicate Foremost(k: Kernel) {
    && k.ready != [] && k.chosen == k.ready[0]
    && forall u :: u in k.ready ==> Lookup(k.rank, k.chosen) <= Lookup(k.rank, u)
  }

  lemma HeadForemost(k: Kernel, idle: Tid)
    requires Inv(k, idle) && k.chosen == Head(k.ready)
    ensures Foremost(k)
  {
    forall u | u in k.ready
      ensures Lookup(k.rank, k.ready[0]) <= Lookup(k.rank, u)
    {
      var i :| 0 <= i < |k.ready| && k.ready[i] == u;
    }
  }

  lemma DispatchHead(k: Kernel, prev: Tid)
    ensures Dispatch(k, prev).ready == k.ready && Dispatch(k, prev).chosen == k.chosen
  {}

  lemma RescheduleHead(k: Kernel)
    requires k.ready != []
    ensures Reschedule(k).chosen == Head(Reschedule(k).ready)
  {
    DispatchHead(Choose(k), k.chosen);
  }

  /** The operations after which the highest-priority ready thread runs: a preemptive
      reschedule, and giving the CPU up by blocking or exiting. */
  predicate Reschedules(k: Kernel, op: Op) {
    match op
    case CreateOp(t, s, r) => true
    case PriorityOp(t, p) => true
    case ResumeOp(t) => true
    case TimeSliceOp => true
    case WakeupOp(q) => true
    case WakeupAllOp(q) => true
    case DropQueueOp(q) => true
    case ExitOp => true
    case SleepOp(q) => true
    case POp(q) => Value(k, q) < 1
    case VOp(q) => Value(k, q) < 0
    case SuspendOp(t) => t == k.chosen
    case JoinOp(t) => Get(k, t).state != FINISHING
    case DestroyOp(t) => Get(k, t).state == RUNNING
    case _ => false
  }

  lemma SuspendHead(k: Kernel)
    requires k.chosen in k.ready
    ensures Suspend(k, k.chosen).chosen == Head(Suspend(k, k.chosen).ready)
  {
    DispatchHead(SetState(Remove(k, k.chosen), k.chosen, SUSPENDED), k.chosen);
  }

  lemma SleepHead(k: Kernel, q: Qid)
    requires k.chosen in k.ready
    ensures Sleep(k, q).chosen == Head(Sleep(k, q).ready)
  {
    var t := k.chosen;
    var w := SetState(Remove(k, t), t, WAITING);
    DispatchHead(SetWaiting(SetQueue(w, q, Enter(QueueOf(w, q), t, w.rank)), t, q), t);
  }

  lemma ExitHead(k: Kernel, idle: Tid)
    requires Inv(k, idle)
    ensures Exit(k).ready != [] ==> Exit(k).chosen == Head(Exit(k).ready)
  {
    var t := k.chosen;
    var d := ReleaseJoiner(Uncounted(SetState(Remove(k, t), t, FINISHING)), t);
    DispatchHead(Choose(d), t);
  }

  lemma InsertNotEmpty(k: Kernel, t: Tid)
    ensures Insert(k, t).ready != []
  {
    EnterMembers(k.ready, t, k.rank);
  }

  /** After each of them the running thread is foremost. */
  lemma ForemostRuns(k: Kernel, idle: Tid, op: Op)
    requires Inv(k, idle) && Exists(k, op) && k.chosen in k.threads && Guard(k, idle, op)
    requires Reschedules(k, op)
    ensures Foremost(Step(k, op))
  {
    StepIff(k, idle, op);
    StepHead(k, idle, op);
    HeadForemost(Step(k, op), idle);
  }

  lemma ReadyHasChosen(k: Kernel, idle: Tid)
    requires Inv(k, idle)
    ensures k.chosen in k.ready && k.ready != [] && k.chosen != 0
    ensures forall t :: t in k.ready ==> t in k.threads
  {
    ChosenIsThread(k, idle, k.chosen);
  }

  lemma CreateHead(k: Kernel, t: Tid, s: State, r: int)
    requires k.ready != [] && t !in k.ready && k.chosen != 0 && k.chosen != t
    ensures Create(k, t, s, r).chosen == Head(Create(k, t, s, r).ready)
  {
    var n := NewThread(k, t, s, r);
    InsertNotEmpty(n, t);
    InsertRemove(n, t);
    RescheduleHead(if s != READY && s != RUNNING then n else Insert(n, t));
  }

  lemma WakeupHead(k: Kernel, q: Qid)
    requires k.ready != []
    ensures Wakeup(k, q).chosen == Head(Wakeup(k, q).ready)
  {
    if QueueOf(k, q) != [] {
      var t := QueueOf(k, q)[0];
      InsertNotEmpty(SetWaiting(SetState(SetQueue(k, q, QueueOf(k, q)[1..]), t, READY), t, 0), t);
    }
    RescheduleHead(if QueueOf(k, q) == [] then k else WakeOne(k, q));
  }

  lemma WakeupAllHead(k: Kernel, idle: Tid, q: Qid)
    requires Inv(k, idle) && q in k.queues
    ensures WakeupAll(k, q).chosen == Head(WakeupAll(k, q).ready)
  {
    WakeEachKeeps(k, idle, k.chosen, q);
    RescheduleHead(WakeEach(k, q));
  }

  lemma StepHead(k: Kernel, idle: Tid, op: Op)
    requires Inv(k, idle) && Exists(k, op) && k.chosen in k.threads
    requires Inv(Step(k, op), idle)
    requires Reschedules(k, op)
    ensures Step(k, op).chosen == Head(Step(k, op).ready)
  {
    hide Mid, Suspend, Sleep, Exit, Choose, Enter, Leave;
    ReadyHasChosen(k, idle);
    match op
    case CreateOp(t, s, r) => CreateHead(k, t, s, r);
    case PriorityOp(t, p) =>
      InsertNotEmpty(Remove(k, t).(rank := Remove(k, t).rank[t := p]), t);
      RescheduleHead(Reranked(k, t, p));
    case ResumeOp(t) =>
      InsertNotEmpty(SetState(k, t, READY), t);
      RescheduleHead(if Get(k, t).state == SUSPENDED then Insert(SetState(k, t, READY), t) else k);
    case TimeSliceOp => RescheduleHead(k);
    case WakeupOp(q) => WakeupHead(k, q);
    case WakeupAllOp(q) => WakeupAllHead(k, idle, q);
    case DropQueueOp(q) => WakeupAllHead(k, idle, q);
    case ExitOp => ExitHead(k, idle); ReadyHasChosen(Exit(k), idle);
    case DestroyOp(t) => ExitHead(k, idle); ReadyHasChosen(Exit(k), idle);
    case SleepOp(q) => SleepHead(k, q);
    case POp(q) => SleepHead(SetValue(k, q, Wrap(Value(k, q) - 1)), q);
    case VOp(q) => WakeupHead(SetValue(k, q, Wrap(Value(k, q) + 1)), q);
    case SuspendOp(t) => SuspendHead(k);
    case JoinOp(t) => SuspendHead(SetJoining(k, t, k.chosen));
  }

  // ----- Round robin among equals.

  /** The first `m` ready threads share a rank and all others rank behind. */
  ghost predicate TopGroup(s: seq<Tid>, m: nat, rank: map<Tid, int>) {
    && 1 <= m <= |s|
    && (forall i :: 0 <= i < m ==> Lookup(rank, s[i]) == Lookup(rank, s[0]))
    && (forall i :: m <= i < |s| ==> Lookup(rank, s[0]) < Lookup(rank, s[i]))
  }

  /** The first `m` of `s` turned by `p` places. */
  function Turned(s: seq<Tid>, m: nat, p: nat): seq<Tid>
    requires p <= m <= |s|
  {
    s[p..m] + s[..p] + s[m..]
  }

  /** Queueing the head again turns the group by one. */
  lemma RequeueTurns(s: seq<Tid>, m: nat, rank: map<Tid, int>)
    requires TopGroup(s, m, rank)
    ensures Requeue(s, s[0], rank) == s[1..m] + [s[0]] + s[m..]
  {
    var rest := s[1..];
    assert Leave(s, s[0]) == rest;
    HeadEnters(s, m, rank);
    assert rest[..m - 1] == s[1..m] && rest[m - 1..] == s[m..];
  }

  lemma HeadEnters(s: seq<Tid>, m: nat, rank: map<Tid, int>)
    requires TopGroup(s, m, rank)
    ensures Position(RanksOf(s[1..], rank), Lookup(rank, s[0])) == m - 1
  {
    var rs := RanksOf(s[1..], rank);
    assert forall i :: 0 <= i < |rs| ==> rs[i] == Lookup(rank, s[i + 1]);
    PositionIsFirst(rs, Lookup(rank, s[0]), m - 1);
  }

  lemma TurnedNext(s: seq<Tid>, m: nat, p: nat, rank: map<Tid, int>)
    requires TopGroup(s, m, rank) && p < m
    ensures TopGroup(Turned(s, m, p), m, rank)
    ensures Turned(s, m, p)[0] == s[p]
    ensures var r := Turned(s, m, p);
      r[1..m] + [r[0]] + r[m..] == Turned(s, m, if p + 1 == m then 0 else p + 1)
  {
    var r := Turned(s, m, p);
    assert forall i :: 0 <= i < m ==> r[i] == if i < m - p then s[p + i] else s[i - (m - p)];
    assert forall i :: m <= i < |s| ==> r[i] == s[i];
  }

  /** The kernel after `n` time slices with nothing else happening. */
  function Slices(k: Kernel, n: nat): Kernel {
    if n == 0 then k else Reschedule(Slices(k, n - 1))
  }

  lemma ModIs(n: int, m: int, q: int, p: int)
    requires 0 <= p < m && n == q * m + p
    ensures n % m == p
  {
    var d := n / m - q;
    assert n == (n / m) * m + n % m;
    assert d * m == p - n % m;
    if d >= 1 {
      Times(d, m);
    } else if d <= -1 {
      Times(-d, m);
    }
  }

  lemma Times(d: int, m: int)
    requires 1 <= d && 1 <= m
    ensures m <= d * m
  {}

  lemma NextIndex(n: nat, m: nat)
    requires 1 <= m && 1 <= n
    ensures n % m == if (n - 1) % m + 1 == m then 0 else (n - 1) % m + 1
  {
    var q, p := (n - 1) / m, (n - 1) % m;
    assert n - 1 == q * m + p;
    if p + 1 == m {
      ModIs(n, m, q + 1, 0);
    } else {
      ModIs(n, m, q, p + 1);
    }
  }

  /** The `m` foremost threads of equal rank take turns: the n-th slice runs the thread at
      place n modulo m, so any m slices in a row run each of them once. */
  lemma {:induction false} RoundRobin(k: Kernel, idle: Tid, m: nat, n: nat)
    requires Inv(k, idle) && k.ready != [] && k.chosen == k.ready[0] && TopGroup(k.ready, m, k.rank)
    ensures Inv(Slices(k, n), idle)
    ensures Slices(k, n).rank == k.rank && Slices(k, n).ready == Turned(k.ready, m, n % m)
    ensures Slices(k, n).chosen == k.ready[n % m]
  {
    hide Inv, Requeue;
    if n == 0 {
      assert Turned(k.ready, m, 0) == k.ready;
    } else {
      RoundRobin(k, idle, m, n - 1);
      var d, p := Slices(k, n - 1), (n - 1) % m;
      RescheduleKeeps(d, idle);
      TurnedNext(k.ready, m, p, k.rank);
      RequeueTurns(d.ready, m, k.rank);
      DispatchHead(Choose(d), d.chosen);
      NextIndex(n, m);
      TurnedNext(k.ready, m, n % m, k.rank);
    }
  }
}
