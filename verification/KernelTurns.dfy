/** Whose turn it is: which operations give the CPU up, what becomes of the order of the ready list,
    and who of several ready threads runs next. */
module KernelTurns {
  import opened RankOrder
  import opened KernelModel
  import opened Words
  import opened KernelLaws
  import opened KernelSteps
  import opened KernelAdmin
  import opened KernelRuns
  import opened KernelOrder

  /** The running thread has had its turn: it blocks, or goes behind its equals. */
  predicate EndsTurn(k: Kernel, op: Op) {
    Reschedules(k, op) || op.YieldOp? || (op.PassOp? && op.thread in k.ready)
  }

  /** The operation takes a thread that does not run off the ready list. */
  predicate TakesOff(op: Op, t: Tid) {
    op == SuspendOp(t) || op == DestroyOp(t)
  }

  // ----- Operations that do not end a turn.

  /** Suspending or deleting another thread, passing to one that is not ready, joining a finished
      one, a `p` that finds a unit, a `v` that nobody waits for and the construction of a queue leave
      the CPU to the thread that runs, and the ready list as it was but for the one taken off. */
  lemma TurnGoesOn(k: Kernel, idle: Tid, op: Op)
    requires Inv(k, idle) && Admitted(k, idle, op) && !EndsTurn(k, op)
    ensures var d := Step(k, op);
      && d.chosen == k.chosen && d.cpu == k.cpu && k.chosen in d.ready
      && (forall t :: t in d.ready <==> t in k.ready && !TakesOff(op, t))
      && (forall a, b :: Before(d.ready, a, b) <==>
                         Before(k.ready, a, b) && !TakesOff(op, a) && !TakesOff(op, b))
  {
    hide Before, Step, Leave, Mid, EndsTurn, Admitted;
    ReadyHasChosen(k, idle);
    ReadyOnce(k, idle);
    TurnGoesOnReady(k, idle, op);
    if op.SuspendOp? || op.DestroyOp? {
      OneOff(k.ready, op.thread);
    }
  }

  lemma TurnGoesOnReady(k: Kernel, idle: Tid, op: Op)
    requires Inv(k, idle) && Admitted(k, idle, op) && !EndsTurn(k, op)
    ensures var d := Step(k, op);
      && d.chosen == k.chosen && d.cpu == k.cpu
      && d.ready == (if op.SuspendOp? || op.DestroyOp? then Leave(k.ready, op.thread) else k.ready)
    ensures !TakesOff(op, k.chosen)
  {
    hide Leave, Inv, Guard, Destroy, Dispatch;
    match op
    case SuspendOp(t) => OffKeepsTurn(k, t);
    case DestroyOp(t) =>
      DestroyedReady(k, idle, t);
      OneList(k, idle, t);
    case _ =>
  }

  lemma OffKeepsTurn(k: Kernel, t: Tid)
    requires t != k.chosen
    ensures var d := Suspend(k, t);
      d.ready == Leave(k.ready, t) && d.chosen == k.chosen && d.cpu == k.cpu
  {
    hide Leave;
  }

  lemma ReadyOnce(k: Kernel, idle: Tid)
    requires Inv(k, idle)
    ensures NoDup(k.ready) && SortedBy(k.ready, k.rank)
  {}

  /** Taking one off leaves the order of the others. */
  lemma OneOff(s: seq<Tid>, t: Tid)
    requires NoDup(s)
    ensures forall u :: u in Leave(s, t) <==> u in s && u != t
    ensures forall a, b :: Before(Leave(s, t), a, b) <==> Before(s, a, b) && a != t && b != t
  {
    LeaveMembers(s, t);
    forall a, b | Before(s, a, b) && a != t && b != t
      ensures Before(Leave(s, t), a, b)
    {
      var i, j :| 0 <= i < j < |s| && s[i] == a && s[j] == b;
      LeaveKeepsBefore(s, t, i, j);
    }
    forall a, b | Before(Leave(s, t), a, b)
      ensures Before(s, a, b) && a != t && b != t
    {
      var r, k := Leave(s, t), IndexOf(s, t);
      var i, j :| 0 <= i < j < |r| && r[i] == a && r[j] == b;
      assert s[if i < k then i else i + 1] == a && s[if j < k then j else j + 1] == b;
    }
  }

  lemma DestroyedReady(k: Kernel, idle: Tid, t: Tid)
    requires Inv(k, idle) && t in k.threads && k.threads[t].state != RUNNING
    ensures var d := Destroy(k, t);
      && d.ready == Leave(k.ready, t) && d.chosen == k.chosen && d.cpu == k.cpu
  {
    ReadyHasChosen(k, idle);
    OneList(k, idle, t);
    if t !in k.ready {
      LeaveAbsent(k.ready, t);
      LeaveEnter(k.ready, t, k.rank);
    }
  }

  /** A thread that is deleted and does not run is forgotten, and counted out unless it had finished. */
  lemma DestroyForgets(k: Kernel, idle: Tid, t: Tid)
    requires Inv(k, idle) && t in k.threads && k.threads[t].state != RUNNING
    ensures var d := Destroy(k, t);
      && d.threads == k.threads - {t} && t !in d.ready && t !in d.rank && t !in d.context
      && d.count == if k.threads[t].state == FINISHING then k.count else k.count - 1
  {
    DestroyedReady(k, idle, t);
    ReadyOnce(k, idle);
    LeaveMembers(k.ready, t);
    hide Inv, Enter, Leave;
  }

  // ----- Operations that block the running thread.

  predicate Blocks(k: Kernel, op: Op) {
    match op
    case SuspendOp(t) => t == k.chosen
    case JoinOp(t) => Get(k, t).state != FINISHING
    case SleepOp(q) => true
    case POp(q) => Value(k, q) < 1
    case _ => false
  }

  /** When the running thread suspends itself, joins a thread or goes to sleep, the others keep their
      order and the first of them in the ready list runs. */
  lemma NextRuns(k: Kernel, idle: Tid, op: Op)
    requires Inv(k, idle) && Admitted(k, idle, op) && Blocks(k, op)
    ensures var (c, d) := (k.chosen, Step(k, op));
      && (forall t :: t in d.ready <==> t in k.ready && t != c)
      && (forall a, b :: Before(d.ready, a, b) <==> Before(k.ready, a, b) && a != c && b != c)
      && d.chosen in k.ready && d.chosen != c
      && (forall u :: u in k.ready && u != c && u != d.chosen ==> Before(k.ready, d.chosen, u))
  {
    hide Before, Step, Leave, Mid, Blocks, Admitted;
    ReadyHasChosen(k, idle);
    ReadyOnce(k, idle);
    OneOff(k.ready, k.chosen);
    BlockedReady(k, idle, op);
    var d := Step(k, op);
    forall u | u in d.ready && u != d.ready[0]
      ensures Before(d.ready, d.ready[0], u)
    {
      HeadBefore(d.ready, u);
    }
  }

  lemma HeadBefore(s: seq<Tid>, u: Tid)
    requires u in s && u != s[0]
    ensures Before(s, s[0], u)
  {}

  lemma BlockedReady(k: Kernel, idle: Tid, op: Op)
    requires Inv(k, idle) && Admitted(k, idle, op) && Blocks(k, op)
    ensures Step(k, op).ready == Leave(k.ready, k.chosen) != []
    ensures Step(k, op).chosen == Step(k, op).ready[0]
  {
    hide Mid, Suspend, Sleep, Leave;
    ReadyHasChosen(k, idle);
    IdleStays(k, idle);
    match op
    case SuspendOp(t) => SuspendedReady(k);
    case JoinOp(t) => SuspendedReady(SetJoining(k, t, k.chosen));
    case SleepOp(q) => AsleepReady(k, q);
    case POp(q) => AsleepReady(SetValue(k, q, Wrap(Value(k, q) - 1)), q);
  }

  lemma SuspendedReady(k: Kernel)
    requires k.chosen in k.ready
    ensures var d := Suspend(k, k.chosen);
      d.ready == Leave(k.ready, k.chosen) && d.chosen == Head(d.ready)
  {
    hide Leave;
    SuspendHead(k);
    DispatchHead(SetState(Remove(k, k.chosen), k.chosen, SUSPENDED), k.chosen);
  }

  lemma AsleepReady(k: Kernel, q: Qid)
    requires k.chosen in k.ready
    ensures var d := Sleep(k, q);
      d.ready == Leave(k.ready, k.chosen) && d.chosen == Head(d.ready)
  {
    hide Leave, Enter;
    SleepHead(k, q);
    DispatchHead(Asleep(k, q), k.chosen);
  }

  lemma IdleStays(k: Kernel, idle: Tid)
    requires Inv(k, idle) && k.chosen != idle
    ensures Leave(k.ready, k.chosen) != []
  {
    hide Leave;
    LeaveMembers(k.ready, k.chosen);
    assert idle in Leave(k.ready, k.chosen);
  }

  // ----- Turns over runs.

  /** The running thread exits. */
  predicate Exits(k: Kernel, op: Op) {
    op.ExitOp? || (op.DestroyOp? && Get(k, op.thread).state == RUNNING)
  }

  /** `t` is queued again behind its equals: its priority is set, or it has had its turn; but when
      the running thread exits it is the next one that is, before it has run. */
  predicate GivesPlace(k: Kernel, op: Op, t: Tid) {
    || (op.PriorityOp? && op.thread == t)
    || if Exits(k, op) then t == Head(Leave(k.ready, k.chosen)) else t == k.chosen && EndsTurn(k, op)
  }

  /** `a` is ready, does not run and keeps its place. */
  predicate Awaits(k: Kernel, op: Op, a: Tid) {
    a in k.ready && a != k.chosen && !GivesPlace(k, op, a)
  }

  /** One operation: a ready thread that keeps its place stays in front of each thread of its own or
      a higher rank that was behind it, gives its place up or was not ready, and none of these gets
      the CPU meanwhile, other than by `pass`. */
  lemma NoOvertaking(k: Kernel, idle: Tid, op: Op, a: Tid, b: Tid)
    requires Inv(k, idle) && Admitted(k, idle, op) && Awaits(k, op, a) && a != b
    requires Ahead(k.ready, a, b) || GivesPlace(k, op, b)
    requires var d := Step(k, op); a in d.ready && Lookup(d.rank, a) <= Lookup(d.rank, b)
    ensures Ahead(Step(k, op).ready, a, b)
    ensures Step(k, op).chosen == b ==> op == PassOp(b) || (k.chosen == b && !EndsTurn(k, op))
  {
    hide Mid, Step, Guard, Ahead, Before, Reschedules, Exists, Leave, Blocks;
    if Blocks(k, op) {
      BlockedAhead(k, idle, op, a, b);
      NotNext(k, idle, op, a, b);
    } else if EndsTurn(k, op) {
      TurnEnds(k, idle, op, a, b);
      NotNext(k, idle, op, a, b);
    } else {
      TurnGoesOn(k, idle, op);
      if GivesPlace(k, op, b) {
        PlaceEndsTurn(k, op, b);
      }
      StillAhead(k.ready, Step(k, op).ready, a, b);
    }
  }

  lemma PlaceEndsTurn(k: Kernel, op: Op, t: Tid)
    requires GivesPlace(k, op, t)
    ensures EndsTurn(k, op)
  {
    hide Leave;
  }

  lemma BlockedAhead(k: Kernel, idle: Tid, op: Op, a: Tid, b: Tid)
    requires Inv(k, idle) && Admitted(k, idle, op) && Blocks(k, op)
    requires Ahead(k.ready, a, b) || GivesPlace(k, op, b)
    ensures Ahead(Step(k, op).ready, a, b)
    ensures EndsTurn(k, op) && (Ahead(k.ready, a, b) || b == k.chosen)
  {
    hide Mid, Step, Admitted, Ahead, Before, Leave;
    ReadyOnce(k, idle);
    BlockedReady(k, idle, op);
    LeaveAhead(k.ready, k.chosen, a, b);
  }

  lemma StillAhead(s: seq<Tid>, r: seq<Tid>, a: Tid, b: Tid)
    requires Ahead(s, a, b) && (a in r ==> a in s) && (b in r ==> b in s)
    requires Before(s, a, b) && a in r && b in r ==> Before(r, a, b)
    ensures Ahead(r, a, b)
  {}

  /** Whoever has somebody in front is not the next to run. */
  lemma NotNext(k: Kernel, idle: Tid, op: Op, a: Tid, b: Tid)
    requires Inv(k, idle) && Admitted(k, idle, op) && EndsTurn(k, op) && Awaits(k, op, a) && a != b
    requires a in Step(k, op).ready && Ahead(Step(k, op).ready, a, b)
    requires op.YieldOp? ==> Ahead(k.ready, a, b) || b == k.chosen
    ensures Step(k, op).chosen == b ==> op == PassOp(b)
  {
    hide Mid, Step, Guard, Leave, Foremost, Before, Reschedules;
    ReadyHasChosen(k, idle);
    StepIff(k, idle, op);
    if Reschedules(k, op) {
      ForemostRuns(k, idle, op);
      ForemostAhead(Step(k, op), idle, a, b);
    } else if op.YieldOp? {
      YieldNext(k, idle, a, b);
    } else {
      PassedTo(k, op.thread);
    }
  }

  lemma ForemostAhead(d: Kernel, idle: Tid, a: Tid, b: Tid)
    requires Inv(d, idle) && Foremost(d) && a in d.ready && Ahead(d.ready, a, b)
    ensures d.chosen != b
  {
    hide Before, Placed, QueueOk, OnCpu, SavedOk, Live, SortedBy;
    HeadNotBehind(d.ready, a);
  }

  lemma PassedTo(k: Kernel, t: Tid)
    requires t in k.ready
    ensures Step(k, PassOp(t)).chosen == t
  {
    DispatchHead(ChooseThread(k, t), k.chosen);
  }

  lemma YieldNext(k: Kernel, idle: Tid, a: Tid, b: Tid)
    requires Inv(k, idle) && a in k.ready && a != k.chosen && k.chosen in k.ready && a != b
    requires Ahead(k.ready, a, b) || b == k.chosen
    ensures Step(k, YieldOp).chosen != b
  {
    hide Leave, Enter, Before;
    ReadyOnce(k, idle);
    LeaveMembers(k.ready, k.chosen);
    var others := Leave(k.ready, k.chosen);
    LeaveAhead(k.ready, k.chosen, a, b);
    HeadNotBehind(others, a);
    TwoReady(k.ready, a, k.chosen);
    DispatchHead(ChooseAnother(k), k.chosen);
  }

  lemma TwoReady(s: seq<Tid>, a: Tid, c: Tid)
    requires a in s && c in s && a != c
    ensures |s| > 1
  {
    var i :| 0 <= i < |s| && s[i] == a;
    var j :| 0 <= j < |s| && s[j] == c;
    assert i != j;
  }

  /** The list before the running thread is queued again. */
  ghost predicate Queued(k: Kernel, a: Tid, b: Tid, c: Tid) {
    && NoDup(k.ready) && SortedBy(k.ready, k.rank) && k.chosen == c && c != a
    && (Ahead(k.ready, a, b) || b == c)
  }

  lemma RequeuedAhead(i: Kernel, a: Tid, b: Tid)
    requires Queued(i, a, b, i.chosen) && Lookup(i.rank, a) <= Lookup(i.rank, b)
    ensures Ahead(Reschedule(i).ready, a, b)
  {
    hide Requeue, Before;
    DispatchHead(Choose(i), i.chosen);
    if i.ready != [] {
      RequeueAhead(i.ready, i.chosen, i.rank, a, b);
    }
  }

  /** A thread enters the ready list. */
  lemma EnteredQueued(k: Kernel, i: Kernel, t: Tid, a: Tid, b: Tid)
    requires NoDup(k.ready) && SortedBy(k.ready, i.rank) && k.chosen != 0 && k.chosen != a
    requires Ahead(k.ready, a, b) || b == k.chosen
    requires t !in k.ready && t != a && i.ready == Enter(k.ready, t, i.rank) && i.chosen == k.chosen
    requires Lookup(i.rank, a) <= Lookup(i.rank, b)
    ensures Queued(i, a, b, k.chosen)
  {
    hide Enter, Ahead, Before;
    EnterKeepsOrder(k.ready, t, i.rank);
    if Ahead(k.ready, a, b) {
      EnterAhead(k.ready, t, i.rank, a, b);
    }
  }

  lemma RescheduleRank(i: Kernel)
    ensures Reschedule(i).rank == i.rank
  {
    hide Requeue;
    DispatchFrame(Choose(i), i.chosen);
  }

  ghost predicate Contest(k: Kernel, idle: Tid, d: Kernel, a: Tid, b: Tid) {
    && Inv(k, idle) && a in k.ready && a != k.chosen && a != b
    && Lookup(d.rank, a) <= Lookup(d.rank, b)
  }

  lemma ResumeAhead(k: Kernel, idle: Tid, t: Tid, a: Tid, b: Tid)
    requires Contest(k, idle, Resume(k, t), a, b) && t in k.threads
    requires Ahead(k.ready, a, b) || b == k.chosen
    ensures Ahead(Resume(k, t).ready, a, b)
  {
    hide Enter, Ahead, Reschedule;
    ReadyHasChosen(k, idle);
    ReadyOnce(k, idle);
    OneList(k, idle, t);
    var i := if k.threads[t].state == SUSPENDED then Insert(SetState(k, t, READY), t) else k;
    RescheduleRank(i);
    if k.threads[t].state == SUSPENDED {
      EnteredQueued(k, i, t, a, b);
    }
    RequeuedAhead(i, a, b);
  }

  lemma CreateAhead(k: Kernel, idle: Tid, t: Tid, s: State, r: int, a: Tid, b: Tid)
    requires Contest(k, idle, Create(k, t, s, r), a, b) && t !in k.threads
    requires Ahead(k.ready, a, b) || b == k.chosen
    ensures Ahead(Create(k, t, s, r).ready, a, b)
  {
    hide Enter, Ahead, Reschedule, Leave;
    ReadyHasChosen(k, idle);
    ReadyOnce(k, idle);
    var n := NewThread(k, t, s, r);
    RankAbsent(k.ready, k.rank, t, r);
    InsertRemove(n, t);
    var i := if s != READY && s != RUNNING then n else Insert(n, t);
    RescheduleRank(i);
    if s == READY || s == RUNNING {
      EnteredQueued(k, i, t, a, b);
    }
    RequeuedAhead(i, a, b);
  }

  lemma PriorityAhead(k: Kernel, idle: Tid, t: Tid, p: int, a: Tid, b: Tid)
    requires Contest(k, idle, SetPriority(k, t, p), a, b) && t in k.threads && PriorityOk(k, t, p) && t != a
    requires Ahead(k.ready, a, b) || b == k.chosen || b == t
    ensures Ahead(SetPriority(k, t, p).ready, a, b)
  {
    hide Enter, Ahead, Reschedule, Leave;
    ReadyHasChosen(k, idle);
    ReadyOnce(k, idle);
    OneList(k, idle, t);
    LeaveMembers(k.ready, t);
    RankElsewhere(k, idle, t, p);
    if Ahead(k.ready, a, b) || b == t {
      LeaveAhead(k.ready, t, a, b);
    }
    var r, i := Remove(k, t), Reranked(k, t, p);
    RescheduleRank(i);
    assert r.ready == Leave(k.ready, t) && a in r.ready && r.chosen == k.chosen;
    EnteredQueued(r, i, t, a, b);
    RequeuedAhead(i, a, b);
  }

  lemma WakeupAhead(k: Kernel, idle: Tid, q: Qid, a: Tid, b: Tid)
    requires Contest(k, idle, Wakeup(k, q), a, b) && q in k.queues
    requires Ahead(k.ready, a, b) || b == k.chosen
    ensures Ahead(Wakeup(k, q).ready, a, b)
  {
    hide Enter, Ahead, Reschedule;
    ReadyHasChosen(k, idle);
    ReadyOnce(k, idle);
    var i := if k.queues[q] == [] then k else WakeOne(k, q);
    RescheduleRank(i);
    if k.queues[q] != [] {
      WokenAhead(k, idle, q, a, b);
    }
    RequeuedAhead(i, a, b);
  }

  lemma WokenAhead(k: Kernel, idle: Tid, q: Qid, a: Tid, b: Tid)
    requires Mid(k, idle, k.chosen) && q in k.queues && k.queues[q] != []
    requires a in k.ready && a != k.chosen && (Ahead(k.ready, a, b) || b == k.chosen)
    requires Lookup(k.rank, a) <= Lookup(k.rank, b)
    ensures var d := WakeOne(k, q);
      && Queued(d, a, b, k.chosen) && d.rank == k.rank && a in d.ready && d.queues[q] == k.queues[q][1..]
  {
    hide Enter, Ahead, OnCpu, SavedOk, Live, SortedBy, NoDup;
    var t := k.queues[q][0];
    ReadyHasChosen(k, idle);
    assert QueueOk(k, q) && t in k.queues[q] && Placed(k, t);
    EnterMembers(k.ready, t, k.rank);
    EnteredQueued(k, WakeOne(k, q), t, a, b);
  }

  lemma {:induction false} WakeEachAhead(k: Kernel, idle: Tid, q: Qid, a: Tid, b: Tid)
    requires Mid(k, idle, k.chosen) && q in k.queues
    requires a in k.ready && a != k.chosen && (Ahead(k.ready, a, b) || b == k.chosen)
    requires Lookup(k.rank, a) <= Lookup(k.rank, b)
    ensures Queued(WakeEach(k, q), a, b, k.chosen) && WakeEach(k, q).rank == k.rank
    decreases |QueueOf(k, q)|
  {
    hide Mid, Ahead, WakeOne;
    ReadyHasChosen(k, idle);
    ReadyOnce(k, idle);
    if k.queues[q] != [] {
      WokenAhead(k, idle, q, a, b);
      WakeOneKeeps(k, idle, k.chosen, q);
      WakeEachAhead(WakeOne(k, q), idle, q, a, b);
    }
  }

  lemma WakeupAllAhead(k: Kernel, idle: Tid, q: Qid, a: Tid, b: Tid)
    requires Contest(k, idle, WakeupAll(k, q), a, b) && q in k.queues
    requires Ahead(k.ready, a, b) || b == k.chosen
    ensures Ahead(WakeupAll(k, q).ready, a, b)
  {
    hide Ahead, Reschedule, WakeEach, Mid, SortedBy, NoDup;
    WakeEachRank(k, q);
    RescheduleRank(WakeEach(k, q));
    WakeEachAhead(k, idle, q, a, b);
    RequeuedAhead(WakeEach(k, q), a, b);
  }

  lemma {:induction false} WakeEachRank(k: Kernel, q: Qid)
    ensures WakeEach(k, q).rank == k.rank
    decreases |QueueOf(k, q)|
  {
    if QueueOf(k, q) != [] {
      WakeEachRank(WakeOne(k, q), q);
    }
  }

  lemma ExitAhead(k: Kernel, idle: Tid, a: Tid, b: Tid)
    requires Contest(k, idle, Exit(k), a, b) && k.chosen in k.threads && ExitOk(k, idle)
    requires a != Head(Leave(k.ready, k.chosen))
    requires Ahead(k.ready, a, b) || b == Head(Leave(k.ready, k.chosen))
    ensures Ahead(Exit(k).ready, a, b)
  {
    hide Inv, Ahead, ReleaseJoiner, Remove, Choose, Leave;
    var t := k.chosen;
    var i := ReleaseJoiner(Uncounted(SetState(Remove(k, t), t, FINISHING)), t);
    DispatchHead(Choose(i), t);
    DispatchFrame(Choose(i), t);
    ChooseRank(i);
    ReleasedRank(k);
    ExitQueued(k, idle, a, b);
    RequeuedAhead(i, a, b);
    DispatchHead(Choose(i), i.chosen);
  }

  lemma ChooseRank(i: Kernel)
    ensures Choose(i).rank == i.rank
  {
    hide Requeue;
  }

  lemma ReleasedRank(k: Kernel)
    ensures ReleaseJoiner(Uncounted(SetState(Remove(k, k.chosen), k.chosen, FINISHING)), k.chosen).rank == k.rank
  {
    hide Enter, Leave;
  }

  lemma ExitQueued(k: Kernel, idle: Tid, a: Tid, b: Tid)
    requires Contest(k, idle, k, a, b) && k.chosen in k.threads && ExitOk(k, idle)
    requires a != Head(Leave(k.ready, k.chosen))
    requires Ahead(k.ready, a, b) || b == Head(Leave(k.ready, k.chosen))
    ensures var i := ReleaseJoiner(Uncounted(SetState(Remove(k, k.chosen), k.chosen, FINISHING)), k.chosen);
      Queued(i, a, b, i.chosen)
  {
    hide Enter, Ahead, Leave, Mid, SortedBy, NoDup;
    var t, j := k.chosen, k.threads[k.chosen].joining;
    InvReady(k, idle);
    ReadyOnce(k, idle);
    IdleStays(k, idle);
    LeaveMembers(k.ready, t);
    LeaveKeepsOrder(k.ready, t, k.rank);
    if Ahead(k.ready, a, b) {
      LeaveAhead(k.ready, t, a, b);
    }
    var d := Uncounted(SetState(Remove(k, t), t, FINISHING));
    assert d.ready == Leave(k.ready, t) && d.chosen == Head(d.ready) && d.chosen != 0;
    if j != 0 {
      OneList(k, idle, j);
      EnteredQueued(d, ReleaseJoiner(d, t), j, a, b);
    }
  }

  lemma YieldAhead(k: Kernel, idle: Tid, a: Tid, b: Tid)
    requires Contest(k, idle, Yield(k), a, b)
    requires Ahead(k.ready, a, b) || b == k.chosen
    ensures Ahead(Yield(k).ready, a, b)
  {
    hide Enter, Leave, Ahead;
    ReadyHasChosen(k, idle);
    ReadyOnce(k, idle);
    DispatchFrame(ChooseAnother(k), k.chosen);
    TwoReady(k.ready, a, k.chosen);
    RequeueAhead(k.ready, k.chosen, k.rank, a, b);
  }

  lemma PassAhead(k: Kernel, idle: Tid, t: Tid, a: Tid, b: Tid)
    requires Contest(k, idle, Pass(k, t), a, b) && t in k.ready
    requires Ahead(k.ready, a, b) || b == k.chosen
    ensures Ahead(Pass(k, t).ready, a, b)
  {
    hide Requeue, Ahead;
    ReadyHasChosen(k, idle);
    ReadyOnce(k, idle);
    DispatchFrame(ChooseThread(k, t), k.chosen);
    RequeueAhead(k.ready, k.chosen, k.rank, a, b);
  }

  lemma TurnEnds(k: Kernel, idle: Tid, op: Op, a: Tid, b: Tid)
    requires Inv(k, idle) && Admitted(k, idle, op) && Awaits(k, op, a) && a != b
    requires EndsTurn(k, op) && !Blocks(k, op)
    requires Ahead(k.ready, a, b) || GivesPlace(k, op, b)
    requires var d := Step(k, op); a in d.ready && Lookup(d.rank, a) <= Lookup(d.rank, b)
    ensures Ahead(Step(k, op).ready, a, b)
  {
    hide Inv, Ahead, Create, SetPriority, Resume, Reschedule, Wakeup, WakeupAll, Exit, Yield, Pass, Leave,
      CreateOk, PriorityOk, ExitOk;
    ReadyHasChosen(k, idle);
    match op
    case CreateOp(t, s, r) => CreateAhead(k, idle, t, s, r, a, b);
    case PriorityOp(t, p) => PriorityAhead(k, idle, t, p, a, b);
    case ResumeOp(t) => ResumeAhead(k, idle, t, a, b);
    case TimeSliceOp => ReadyOnce(k, idle); RescheduleRank(k); RequeuedAhead(k, a, b);
    case WakeupOp(q) => WakeupAhead(k, idle, q, a, b);
    case WakeupAllOp(q) => WakeupAllAhead(k, idle, q, a, b);
    case DropQueueOp(q) => WakeupAllAhead(k, idle, q, a, b);
    case VOp(q) => VAhead(k, idle, q, a, b);
    case ExitOp => ExitAhead(k, idle, a, b);
    case DestroyOp(t) => ExitAhead(k, idle, a, b);
    case YieldOp => YieldAhead(k, idle, a, b);
    case PassOp(t) => PassAhead(k, idle, t, a, b);
  }

  lemma VAhead(k: Kernel, idle: Tid, q: Qid, a: Tid, b: Tid)
    requires Contest(k, idle, V(k, q), a, b) && q in k.queues && Value(k, q) < 0
    requires Ahead(k.ready, a, b) || b == k.chosen
    ensures Ahead(V(k, q).ready, a, b)
  {
    hide Mid, Ahead, Wakeup;
    var d := SetValue(k, q, Wrap(Value(k, q) + 1));
    ValueKeeps(k, idle, k.chosen, d.value);
    WakeupAhead(d, idle, q, a, b);
  }

  /** From `i` to `j` thread `a` is ready and keeps its place, and `b` does not rank before it. */
  ghost predicate Queues(trace: seq<Kernel>, ops: seq<Op>, a: Tid, b: Tid, i: nat, j: nat)
    requires i <= j <= |ops| < |trace|
  {
    && (forall n :: i <= n < j ==> Awaits(trace[n], ops[n], a))
    && (forall n :: i <= n <= j ==> a in trace[n].ready && Lookup(trace[n].rank, a) <= Lookup(trace[n].rank, b))
  }

  /** Over every run nobody overtakes among ready threads: whoever was behind, or not ready, when `a`
      took its place is behind it ever after, and until `a` has run gets the CPU only by `pass`. */
  lemma {:induction false} InTurn(trace: seq<Kernel>, ops: seq<Op>, main: Tid, r: int, idle: Tid, low: int,
                                  a: Tid, b: Tid, i: nat, j: nat)
    requires IsRun(trace, ops, main, r, idle, low) && i <= j <= |ops| && a != b
    requires Queues(trace, ops, a, b, i, j) && Ahead(trace[i].ready, a, b)
    ensures Ahead(trace[j].ready, a, b)
    ensures forall n :: i < n <= j && trace[n].chosen == b ==>
              ops[n - 1] == PassOp(b) || (trace[n - 1].chosen == b && !EndsTurn(trace[n - 1], ops[n - 1]))
    decreases j
  {
    hide Inv, Step, Admitted, Awaits, Ahead, EndsTurn, Boot;
    if i < j {
      InTurn(trace, ops, main, r, idle, low, a, b, i, j - 1);
      RunKeeps(trace, ops, main, r, idle, low, j - 1);
      assert trace[j] == Step(trace[j - 1], ops[j - 1]);
      NoOvertaking(trace[j - 1], idle, ops[j - 1], a, b);
    }
  }

  /** Who runs when a turn ends has been ready longest: it was ready before any other thread that is
      still waiting with the same or a lower rank took its place. */
  lemma LongestReadyRuns(trace: seq<Kernel>, ops: seq<Op>, main: Tid, r: int, idle: Tid, low: int,
                         a: Tid, i: nat, j: nat)
    requires IsRun(trace, ops, main, r, idle, low) && i < j <= |ops| && a != trace[j].chosen
    requires Queues(trace, ops, a, trace[j].chosen, i, j)
    requires EndsTurn(trace[j - 1], ops[j - 1]) && !ops[j - 1].PassOp?
    ensures Before(trace[i].ready, trace[j].chosen, a)
  {
    hide Inv, Step, Admitted, Awaits, Before, EndsTurn, Boot;
    var b := trace[j].chosen;
    if Ahead(trace[i].ready, a, b) {
      InTurn(trace, ops, main, r, idle, low, a, b, i, j);
      assert false;
    }
    OneInFront(trace[i].ready, a, b);
  }

  lemma OneInFront(s: seq<Tid>, a: Tid, b: Tid)
    requires a in s && b in s && a != b
    ensures Before(s, a, b) || Before(s, b, a)
  {
    var i :| 0 <= i < |s| && s[i] == a;
    var j :| 0 <= j < |s| && s[j] == b;
  }

  /** When the running thread exits, the next one in the ready list is queued again before it has
      run: it runs exactly if all others, the joiner too, rank behind it. */
  lemma ExitPassesOver(k: Kernel, idle: Tid)
    requires Inv(k, idle) && k.chosen in k.threads && ExitOk(k, idle)
    ensures var (next, d) := (Head(Leave(k.ready, k.chosen)), Exit(k));
      d.chosen == next <==> forall u :: u in d.ready && u != next ==> Lookup(k.rank, next) < Lookup(k.rank, u)
  {
    hide Mid, ReleaseJoiner, Remove, Choose, Leave, Enter;
    var t := k.chosen;
    var i := ReleaseJoiner(Uncounted(SetState(Remove(k, t), t, FINISHING)), t);
    DispatchHead(Choose(i), t);
    ReleasedRank(k);
    ReleasedHead(k, idle);
    LastOfEquals(i);
  }

  lemma ReleasedHead(k: Kernel, idle: Tid)
    requires Inv(k, idle) && k.chosen in k.threads && ExitOk(k, idle)
    ensures var i := ReleaseJoiner(Uncounted(SetState(Remove(k, k.chosen), k.chosen, FINISHING)), k.chosen);
      && i.chosen == Head(Leave(k.ready, k.chosen)) && i.chosen in i.ready
      && NoDup(i.ready) && SortedBy(i.ready, i.rank)
  {
    hide Enter, Leave, Mid, SortedBy, NoDup;
    var t, j, s := k.chosen, k.threads[k.chosen].joining, Leave(k.ready, k.chosen);
    InvReady(k, idle);
    ReadyOnce(k, idle);
    IdleStays(k, idle);
    LeaveMembers(k.ready, t);
    LeaveKeepsOrder(k.ready, t, k.rank);
    EnterMembers(s, j, k.rank);
    if j != 0 {
      OneList(k, idle, j);
      EnterKeepsOrder(s, j, k.rank);
    }
    assert Head(s) in s;
  }

  /** The chosen thread is still first once it has been queued again exactly if nobody shares its
      rank and it was first before. */
  lemma LastOfEquals(i: Kernel)
    requires NoDup(i.ready) && SortedBy(i.ready, i.rank) && i.chosen in i.ready
    ensures var d := Choose(i);
      d.chosen == i.chosen <==>
      forall u :: u in d.ready && u != i.chosen ==> Lookup(i.rank, i.chosen) < Lookup(i.rank, u)
  {
    hide Leave, Enter;
    var c, rest := i.chosen, Leave(i.ready, i.chosen);
    LeaveMembers(i.ready, c);
    LeaveKeepsOrder(i.ready, c, i.rank);
    EnterMembers(rest, c, i.rank);
    if rest == [] {
      assert Enter(rest, c, i.rank)[0] in Enter(rest, c, i.rank);
    } else {
      HeadOfEnter(rest, c, i.rank);
      assert rest[0] in rest;
      forall u | u in rest
        ensures Lookup(i.rank, rest[0]) <= Lookup(i.rank, u)
      {
        var n :| 0 <= n < |rest| && rest[n] == u;
      }
    }
  }
}
