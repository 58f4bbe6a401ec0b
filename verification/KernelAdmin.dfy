/** When creating a thread, deleting one and changing a priority keep the invariant. */
module KernelAdmin {
  import opened RankOrder
  import opened KernelModel
  import opened KernelLaws
  import opened KernelSteps

  // ----- Create.

  function NewThread(k: Kernel, t: Tid, s: State, r: int): Kernel {
    k.(threads := k.threads[t := Thread(s, 0, 0)], rank := k.rank[t := r], count := k.count + 1,
       context := k.context[t := t])
  }

  lemma NewThreadKeeps(k: Kernel, idle: Tid, t: Tid, s: State, r: int)
    requires Inv(k, idle) && t !in k.threads && t != 0 && (s == BEGINNING || s == SUSPENDED)
    ensures Mid(NewThread(k, t, s, r), idle, k.chosen)
  {
    hide SortedBy, NoDup, Placed, QueueOk, OnCpu, SavedOk, Live;
    var d := NewThread(k, t, s, r);
    assert t !in k.ready;
    NewThreadLists(k, d, t);
    NewThreadCounts(k, t, s, r);
    RankAbsent(k.ready, k.rank, t, r);
  }

  lemma NewThreadCounts(k: Kernel, t: Tid, s: State, r: int)
    requires t !in k.threads && t != k.chosen && t !in k.ready && (s == BEGINNING || s == SUSPENDED)
    requires OnCpu(k, k.chosen) && SavedOk(k, k.chosen)
    ensures var d := NewThread(k, t, s, r);
      |Live(d)| == |Live(k)| + 1 && OnCpu(d, k.chosen) && SavedOk(d, k.chosen)
  {
    assert Live(NewThread(k, t, s, r)) == Live(k) + {t};
  }

  lemma NewThreadLists(k: Kernel, d: Kernel, t: Tid)
    requires ThreadsOk(k) && QueuesOk(k) && t !in k.threads && t != 0 && t !in k.ready && t in d.threads
    requires d.threads == k.threads[t := d.threads[t]] && d.rank == k.rank[t := Lookup(d.rank, t)]
    requires d.queues == k.queues && d.ready == k.ready
    requires d.threads[t].waiting == 0 && d.threads[t].state in {BEGINNING, SUSPENDED}
    ensures ThreadsOk(d) && QueuesOk(d)
  {
    hide SortedBy, NoDup;
    forall u | u in d.threads
      ensures Placed(d, u)
    {
      assert u != t ==> Placed(k, u);
    }
    forall q | q in d.queues
      ensures QueueOk(d, q)
    {
      assert QueueOk(k, q);
      RankAbsent(k.queues[q], k.rank, t, Lookup(d.rank, t));
    }
  }

  predicate CreateOk(k: Kernel, s: State, r: int) {
    s == BEGINNING || s == SUSPENDED || s == READY || (s == RUNNING && TopOver(k.ready, k.chosen, r, k.rank))
  }

  /** A thread starts without harm blocked or ready; started as running it must come first in
      the ready list once the caller has been queued again. */
  lemma CreateIff(k: Kernel, idle: Tid, t: Tid, s: State, r: int)
    requires Inv(k, idle) && t !in k.threads && t != 0
    ensures Inv(Create(k, t, s, r), idle) <==> CreateOk(k, s, r)
  {
    ChosenIsThread(k, idle, k.chosen);
    match s
    case BEGINNING => CreateBlocked(k, idle, t, s, r);
    case SUSPENDED => CreateBlocked(k, idle, t, s, r);
    case READY => CreateReady(k, idle, t, r);
    case RUNNING => CreateRunning(k, idle, t, r);
    case WAITING => CreateBroken(k, idle, t, s, r);
    case FINISHING => CreateBroken(k, idle, t, s, r);
  }

  /** Inserted and taken out again, a blocked thread leaves the ready list as it was. */
  lemma InsertRemove(k: Kernel, t: Tid)
    requires t !in k.ready && k.chosen != 0 && k.chosen != t
    ensures Remove(Insert(k, t), t) == k
  {
    LeaveEnter(k.ready, t, k.rank);
  }

  lemma CreateBlocked(k: Kernel, idle: Tid, t: Tid, s: State, r: int)
    requires Inv(k, idle) && t !in k.threads && t != 0 && (s == BEGINNING || s == SUSPENDED)
    ensures Inv(Create(k, t, s, r), idle)
  {
    ChosenIsThread(k, idle, k.chosen);
    NewThreadKeeps(k, idle, t, s, r);
    assert t !in k.ready;
    InsertRemove(NewThread(k, t, s, r), t);
    RescheduleKeeps(NewThread(k, t, s, r), idle);
  }

  lemma NewReadyKeeps(k: Kernel, idle: Tid, t: Tid, r: int)
    requires Inv(k, idle) && t !in k.threads && t != 0
    ensures Inv(Insert(NewThread(k, t, READY, r), t), idle)
  {
    hide Enter, Leave, Requeue;
    var n := NewThread(k, t, SUSPENDED, r);
    ChosenIsThread(k, idle, k.chosen);
    NewThreadKeeps(k, idle, t, SUSPENDED, r);
    PutOnKeeps(n, idle, k.chosen, t);
    assert SetState(n, t, READY) == NewThread(k, t, READY, r);
  }

  lemma CreateReady(k: Kernel, idle: Tid, t: Tid, r: int)
    requires Inv(k, idle) && t !in k.threads && t != 0
    ensures Inv(Create(k, t, READY, r), idle)
  {
    hide Enter, Leave, Requeue;
    NewReadyKeeps(k, idle, t, r);
    RescheduleKeeps(Insert(NewThread(k, t, READY, r), t), idle);
  }

  /** Who comes first when `t` is inserted and the caller is queued again. */
  lemma HeadAfterInsert(k: Kernel, idle: Tid, n: Kernel, t: Tid)
    requires Inv(k, idle) && t !in k.ready && t != 0
    requires n.ready == k.ready && n.chosen == k.chosen && n.rank == k.rank[t := Lookup(n.rank, t)]
    ensures var i := Insert(n, t);
      && i.chosen == k.chosen && Choose(i).chosen == Choose(i).ready[0]
      && (Choose(i).chosen == t <==> TopOver(k.ready, k.chosen, Lookup(n.rank, t), k.rank))
  {
    hide Enter, Leave, Requeue, Placed, QueueOk, OnCpu, SavedOk, Live;
    ChosenIsThread(k, idle, k.chosen);
    assert forall u :: u in k.ready ==> Lookup(n.rank, u) == Lookup(k.rank, u);
    assert SortedBy(k.ready, n.rank);
    HeadAfter(k.ready, t, k.chosen, n.rank);
    EnterMembers(k.ready, t, n.rank);
  }

  lemma CreateRunning(k: Kernel, idle: Tid, t: Tid, r: int)
    requires Inv(k, idle) && t !in k.threads && t != 0
    ensures Inv(Create(k, t, RUNNING, r), idle) <==> TopOver(k.ready, k.chosen, r, k.rank)
  {
    hide Enter, Leave, Requeue;
    var n := NewThread(k, t, RUNNING, r);
    ChosenIsThread(k, idle, k.chosen);
    assert t !in k.ready;
    HeadAfterInsert(k, idle, n, t);
    var c := Choose(Insert(n, t));
    if c.chosen == t {
      CreateReady(k, idle, t, r);
      RunningFirst(k, t, r);
    } else {
      DispatchFrame(c, k.chosen);
      assert t in c.threads && t != k.chosen;
      assert Create(k, t, RUNNING, r).threads[t].state == RUNNING;
    }
  }

  lemma RunningFirst(k: Kernel, t: Tid, r: int)
    requires k.chosen in k.threads && t !in k.threads && k.chosen != 0
    requires Choose(Insert(NewThread(k, t, RUNNING, r), t)).chosen == t
    ensures Create(k, t, RUNNING, r) == Create(k, t, READY, r)
  {
    hide Enter, Leave, Requeue, Dispatch, SetState;
    var n := Insert(NewThread(k, t, RUNNING, r), t);
    var w := Insert(NewThread(k, t, READY, r), t);
    assert w.threads == n.threads[t := n.threads[t].(state := READY)];
    assert Choose(w) == Choose(n).(threads := w.threads);
    DispatchForgets(Choose(n), Choose(w), k.chosen, READY);
  }

  /** The thread that gets the CPU is running afterwards whatever it was before. */
  lemma DispatchForgets(n: Kernel, w: Kernel, prev: Tid, s: State)
    requires n.chosen in n.threads && prev in n.threads && prev != n.chosen
    requires w == n.(threads := n.threads[n.chosen := n.threads[n.chosen].(state := s)])
    ensures Dispatch(n, prev) == Dispatch(w, prev)
  {
    ForgetState(n.threads, w.threads, prev, n.chosen, s, Get(n, prev).(state := READY));
    assert Dispatch(n, prev).threads == Dispatch(w, prev).threads;
  }

  /** Writing a state twice, with another thread's in between. */
  lemma ForgetState(a: map<Tid, Thread>, b: map<Tid, Thread>, p: Tid, c: Tid, s: State, x: Thread)
    requires c in a && p in a && p != c && b == a[c := a[c].(state := s)]
    ensures a[c := a[c].(state := RUNNING)] == b[c := b[c].(state := RUNNING)]
    ensures a[p := x][c := a[c].(state := RUNNING)] == b[p := x][c := b[c].(state := RUNNING)]
  {}

  lemma CreateBroken(k: Kernel, idle: Tid, t: Tid, s: State, r: int)
    requires Inv(k, idle) && t !in k.threads && t != 0 && (s == WAITING || s == FINISHING)
    ensures !Inv(Create(k, t, s, r), idle)
  {
    hide Enter, Leave, Requeue, SortedBy, SavedOk;
    var n, e := NewThread(k, t, s, r), Create(k, t, s, r);
    ChosenIsThread(k, idle, k.chosen);
    InvReady(k, idle);
    assert t !in k.ready;
    InsertRemove(n, t);
    ChooseMembers(n);
    DispatchFrame(Choose(n), n.chosen);
    var c := Choose(n).chosen;
    assert c in k.ready && Placed(k, c) && c != t;
    assert e.threads[t] == Thread(s, 0, 0) && e.queues == k.queues;
    if s == WAITING {
      assert 0 in k.queues ==> !QueueOk(k, 0);
      assert !Placed(e, t);
    } else {
      assert Live(e) == Live(k);
    }
  }

  // ----- Destroy.

  predicate DestroyOk(k: Kernel, idle: Tid, t: Tid)
    requires t in k.threads && k.chosen in k.threads
  {
    if k.threads[t].state == RUNNING then ExitOk(k, idle) else t != idle
  }

  lemma DestroyIff(k: Kernel, idle: Tid, t: Tid)
    requires Inv(k, idle) && t in k.threads
    ensures k.chosen in k.threads
    ensures Inv(Destroy(k, t), idle) <==> DestroyOk(k, idle, t)
  {
    ChosenIsThread(k, idle, k.chosen);
    assert Placed(k, t);
    hide Inv;
    match k.threads[t].state
    case RUNNING => DestroyRunning(k, idle, t);
    case BEGINNING => DestroyBlocked(k, idle, t);
    case SUSPENDED => DestroyBlocked(k, idle, t);
    case FINISHING => DestroyBlocked(k, idle, t);
    case READY => DestroyReady(k, idle, t);
    case WAITING => DestroyWaiting(k, idle, t);
  }

  lemma DestroyRunning(k: Kernel, idle: Tid, t: Tid)
    requires Inv(k, idle) && t in k.threads && k.threads[t].state == RUNNING && k.chosen in k.threads
    ensures Inv(Destroy(k, t), idle) <==> ExitOk(k, idle)
  {
    hide Inv, Exit;
    ExitIff(k, idle);
  }

  lemma DestroyBlocked(k: Kernel, idle: Tid, t: Tid)
    requires Inv(k, idle) && t in k.threads
    requires k.threads[t].state == BEGINNING || k.threads[t].state == SUSPENDED || k.threads[t].state == FINISHING
    ensures Inv(Destroy(k, t), idle) && t != idle
  {
    hide Leave, Enter, QueueOk, SavedOk, SortedBy, NoDup, Live;
    ChosenIsThread(k, idle, k.chosen);
    assert Placed(k, t);
    hide Inv;
    EraseKeeps(k, idle, t);
    if k.threads[t].state == FINISHING {
      LeaveAbsent(k.ready, t);
    } else {
      InsertRemove(k, t);
    }
  }

  lemma LeaveAbsent(s: seq<Tid>, t: Tid)
    requires t !in s
    ensures Leave(s, t) == s
  {}

  /** A thread that is in no list is forgotten. */
  lemma EraseKeeps(k: Kernel, idle: Tid, t: Tid)
    requires Inv(k, idle) && t in k.threads
    requires k.threads[t].state == BEGINNING || k.threads[t].state == SUSPENDED || k.threads[t].state == FINISHING
    ensures Inv(Erase(if k.threads[t].state == FINISHING then k else Uncounted(k), t), idle)
    ensures t != idle
  {
    var d := Erase(if k.threads[t].state == FINISHING then k else Uncounted(k), t);
    assert Placed(k, t);
    ForgetKeeps(k, d, idle, t);
  }

  lemma ForgetKeeps(k: Kernel, d: Kernel, idle: Tid, t: Tid)
    requires ThreadsOk(k) && QueuesOk(k) && t in k.threads && OnCpu(k, k.chosen) && k.chosen != t && t != idle
    requires d.threads == k.threads - {t} && d.rank == k.rank - {t} && d.chosen == k.chosen
    requires k.count == |Live(k)| && d.count == if k.threads[t].state == FINISHING then k.count else k.count - 1
    requires SavedOk(k, k.chosen) && d.cpu == k.cpu && d.context == k.context - {t}
    requires d.queues.Keys == k.queues.Keys
    requires forall q :: q in k.queues ==> NoDup(d.queues[q]) && SortedBy(d.queues[q], k.rank)
    requires forall q, u :: q in k.queues ==> (u in d.queues[q] <==> u in k.queues[q] && u != t)
    requires NoDup(d.ready) && SortedBy(d.ready, k.rank)
    requires forall u :: u in d.ready <==> u in k.ready && u != t
    requires idle in k.ready && k.chosen in k.ready && forall u :: u in k.ready ==> u in k.threads
    ensures Inv(d, idle)
  {
    hide SortedBy, NoDup, Live, Placed, QueueOk, OnCpu, SavedOk;
    ForgetLive(k, d, t);
    ForgetCpu(k, d, t);
    RankDropped(d.ready, k.rank, t);
    forall u | u in d.threads
      ensures Placed(d, u)
    {
      ForgetPlaced(k, d, t, u);
    }
    forall q | q in d.queues
      ensures QueueOk(d, q)
    {
      RankDropped(d.queues[q], k.rank, t);
      ForgetQueue(k, d, t, q);
    }
  }

  lemma ForgetCpu(k: Kernel, d: Kernel, t: Tid)
    requires d.threads == k.threads - {t} && d.chosen == k.chosen != t && d.cpu == k.cpu && d.context == k.context - {t}
    requires OnCpu(k, k.chosen) && SavedOk(k, k.chosen) && (forall u :: u in d.ready ==> u in k.ready && u != t)
    requires forall u :: u in k.ready ==> u in k.threads
    ensures OnCpu(d, d.chosen) && SavedOk(d, d.chosen)
  {}

  lemma ForgetPlaced(k: Kernel, d: Kernel, t: Tid, u: Tid)
    requires d.threads == k.threads - {t} && u in d.threads && Placed(k, u)
    requires d.queues.Keys == k.queues.Keys && (u in d.ready <==> u in k.ready)
    requires forall q :: q in k.queues ==> (u in d.queues[q] <==> u in k.queues[q] && u != t)
    ensures Placed(d, u)
  {}

  lemma ForgetQueue(k: Kernel, d: Kernel, t: Tid, q: Qid)
    requires d.threads == k.threads - {t} && q in k.queues && q in d.queues && QueueOk(k, q)
    requires NoDup(d.queues[q]) && SortedBy(d.queues[q], d.rank)
    requires forall u :: u in d.queues[q] <==> u in k.queues[q] && u != t
    ensures QueueOk(d, q)
  {
    hide NoDup, SortedBy;
  }

  lemma ForgetLive(k: Kernel, d: Kernel, t: Tid)
    requires t in k.threads && d.threads == k.threads - {t}
    ensures |Live(d)| == if k.threads[t].state == FINISHING then |Live(k)| else |Live(k)| - 1
  {
    assert Live(d) == Live(k) - {t};
  }

  lemma RankDropped(s: seq<Tid>, rank: map<Tid, int>, t: Tid)
    requires t !in s && SortedBy(s, rank)
    ensures SortedBy(s, rank - {t})
  {
    assert forall i :: 0 <= i < |s| ==> Lookup(rank - {t}, s[i]) == Lookup(rank, s[i]);
  }

  lemma DestroyReady(k: Kernel, idle: Tid, t: Tid)
    requires Inv(k, idle) && t in k.threads && k.threads[t].state == READY
    ensures Inv(Destroy(k, t), idle) <==> t != idle
  {
    hide Enter, Leave, Requeue;
    LeaveMembers(k.ready, t);
    LeaveKeepsOrder(k.ready, t, k.rank);
    ChosenIsThread(k, idle, k.chosen);
    assert Placed(k, t) && Placed(k, k.chosen);
    if t != idle {
      assert forall q :: q in k.queues ==> QueueOk(k, q) && t !in k.queues[q];
      ForgetKeeps(k, Destroy(k, t), idle, t);
    }
  }

  lemma DestroyWaiting(k: Kernel, idle: Tid, t: Tid)
    requires Inv(k, idle) && t in k.threads && k.threads[t].state == WAITING
    ensures Inv(Destroy(k, t), idle) && t != idle
  {
    hide Enter, Leave, Requeue;
    var q := k.threads[t].waiting;
    ChosenIsThread(k, idle, k.chosen);
    assert Placed(k, t) && QueueOk(k, q);
    var s := Leave(k.queues[q], t);
    LeaveMembers(k.queues[q], t);
    LeaveKeepsOrder(k.queues[q], t, k.rank);
    InsertRemove(SetQueue(k, q, s), t);
    var d := Destroy(k, t);
    assert d == Erase(Uncounted(SetQueue(k, q, s)), t);
    forall p | p in k.queues
      ensures QueueOk(k, p) && (p != q ==> t !in k.queues[p])
    {}
    ForgetKeeps(k, d, idle, t);
  }

  // ----- SetPriority.

  /** What a new priority asks of the thread: that it is ready; or that it is the running one and
      nobody else can run; or that it is blocked in no list and so comes first that it starts
      running. */
  predicate PriorityOk(k: Kernel, t: Tid, p: int)
    requires t in k.threads
  {
    match k.threads[t].state
    case READY => true
    case RUNNING => Leave(k.ready, t) == []
    case BEGINNING => TopOver(k.ready, k.chosen, p, k.rank)
    case SUSPENDED => TopOver(k.ready, k.chosen, p, k.rank)
    case WAITING => false
    case FINISHING => false
  }

  lemma PriorityIff(k: Kernel, idle: Tid, t: Tid, p: int)
    requires Inv(k, idle) && t in k.threads
    ensures Inv(SetPriority(k, t, p), idle) <==> PriorityOk(k, t, p)
  {
    assert Placed(k, t);
    match k.threads[t].state
    case READY => PriorityReady(k, idle, t, p);
    case RUNNING => PriorityRunning(k, idle, t, p);
    case BEGINNING => PriorityBlocked(k, idle, t, p);
    case SUSPENDED => PriorityBlocked(k, idle, t, p);
    case WAITING => PriorityBreaks(k, idle, t, p);
    case FINISHING => PriorityBreaks(k, idle, t, p);
  }

  /** `_scheduler.remove(this); _link.rank(p); _scheduler.insert(this)` */
  function Reranked(k: Kernel, t: Tid, p: int): Kernel {
    var r := Remove(k, t);
    Insert(r.(rank := r.rank[t := p]), t)
  }

  lemma RankElsewhere(k: Kernel, idle: Tid, t: Tid, p: int)
    requires Inv(k, idle) && t in k.threads && k.threads[t].state != WAITING
    ensures forall q :: q in k.queues ==> SortedBy(k.queues[q], k.rank[t := p])
    ensures SortedBy(Leave(k.ready, t), k.rank[t := p])
  {
    LeaveMembers(k.ready, t);
    LeaveKeepsOrder(k.ready, t, k.rank);
    RankAbsent(Leave(k.ready, t), k.rank, t, p);
    forall q | q in k.queues
      ensures SortedBy(k.queues[q], k.rank[t := p])
    {
      assert QueueOk(k, q);
      RankAbsent(k.queues[q], k.rank, t, p);
    }
  }

  lemma RankAbsent(s: seq<Tid>, rank: map<Tid, int>, t: Tid, p: int)
    requires t !in s && SortedBy(s, rank)
    ensures SortedBy(s, rank[t := p])
  {
    assert forall i :: 0 <= i < |s| ==> Lookup(rank[t := p], s[i]) == Lookup(rank, s[i]);
  }

  lemma RerankedReady(k: Kernel, idle: Tid, t: Tid, p: int)
    requires Inv(k, idle) && t in k.threads && k.threads[t].state == READY
    ensures Inv(Reranked(k, t, p), idle) && Reranked(k, t, p).threads == k.threads
  {
    hide Enter, Leave, Requeue;
    var i, s := Reranked(k, t, p), Leave(k.ready, t);
    ChosenIsThread(k, idle, k.chosen);
    assert Placed(k, t) && Placed(k, k.chosen);
    RankElsewhere(k, idle, t, p);
    LeaveMembers(k.ready, t);
    EnterMembers(s, t, i.rank);
    EnterKeepsOrder(s, t, i.rank);
    RerankedKeeps(k, i, idle, t);
  }

  lemma PriorityReady(k: Kernel, idle: Tid, t: Tid, p: int)
    requires Inv(k, idle) && t in k.threads && k.threads[t].state == READY
    ensures Inv(SetPriority(k, t, p), idle)
  {
    hide Enter, Leave, Requeue;
    RerankedReady(k, idle, t, p);
    RescheduleKeeps(Reranked(k, t, p), idle);
  }

  lemma RerankedKeeps(k: Kernel, i: Kernel, idle: Tid, t: Tid)
    requires Inv(k, idle) && t in k.threads
    requires i == k.(ready := i.ready, rank := i.rank)
    requires forall q :: q in k.queues ==> SortedBy(k.queues[q], i.rank)
    requires NoDup(i.ready) && SortedBy(i.ready, i.rank)
    requires forall u :: u in i.ready <==> u in k.ready
    ensures Inv(i, idle)
  {
    SameLive(k, i);
    forall u | u in i.threads
      ensures Placed(i, u)
    {
      assert Placed(k, u);
    }
    forall q | q in i.queues
      ensures QueueOk(i, q)
    {
      assert QueueOk(k, q);
    }
  }

  lemma PriorityRunning(k: Kernel, idle: Tid, t: Tid, p: int)
    requires Inv(k, idle) && t in k.threads && k.threads[t].state == RUNNING
    ensures Inv(SetPriority(k, t, p), idle) <==> Leave(k.ready, t) == []
  {
    hide Enter, Leave, Requeue;
    var i, s := Reranked(k, t, p), Leave(k.ready, t);
    ChosenIsThread(k, idle, k.chosen);
    assert Placed(k, t) && k.chosen == t;
    RankElsewhere(k, idle, t, p);
    LeaveMembers(k.ready, t);
    EnterMembers(s, t, i.rank);
    EnterKeepsOrder(s, t, i.rank);
    RunningReranked(k, idle, t, p);
    if s == [] {
      var c := Choose(i);
      RequeueMembers(i.ready, i.chosen, i.rank);
      RerankedKeeps(k, c, idle, t);
      assert SetPriority(k, t, p) == c;
    } else {
      WrongSaved(k, i, idle, t);
    }
  }

  /** Once the running thread has left the list, the head of the others passes for it: unless that one
      is chosen again, in which case nothing is saved, what is on the CPU is saved in that thread's
      context, and where the caller itself is chosen a context out of date goes on the CPU. */
  lemma WrongSaved(k: Kernel, i: Kernel, idle: Tid, t: Tid)
    requires Inv(k, idle) && k.chosen == t && i.chosen != t && i.chosen in k.threads
    requires i == k.(ready := i.ready, rank := i.rank, chosen := i.chosen)
    ensures var (h, c, d) := (i.chosen, Choose(i).chosen, Reschedule(i));
      && d.chosen == c
      && (if c == h then d.cpu == t && Context(d, h) == h
          else Context(d, h) == t && d.cpu == Context(k, c) && (c == t ==> d.cpu == 0))
    ensures !Inv(Reschedule(i), idle)
  {
    var c := Choose(i);
    DispatchFrame(c, i.chosen);
    assert Reschedule(i) == Dispatch(c, i.chosen) && c.cpu == t && i.chosen in Dispatch(c, i.chosen).threads;
    ChosenIsThread(k, idle, t);
    assert Context(k, t) == 0 && Context(k, i.chosen) == i.chosen;
    hide Choose, Dispatch;
  }

  /** Who comes first when the running thread has left and entered with a new rank. */
  lemma RunningReranked(k: Kernel, idle: Tid, t: Tid, p: int)
    requires Inv(k, idle) && t in k.threads && k.chosen == t
    ensures var i, s := Reranked(k, t, p), Leave(k.ready, t);
      && i.chosen != 0 && i.chosen in i.ready && i.chosen in k.threads
      && i == k.(ready := i.ready, rank := i.rank, chosen := i.chosen)
      && (s == [] ==> i.chosen == t && Choose(i).chosen == t)
      && (s != [] ==> i.chosen == s[0] && i.chosen != t)
  {
    hide Enter, Leave, Requeue;
    var i, s := Reranked(k, t, p), Leave(k.ready, t);
    ChosenIsThread(k, idle, k.chosen);
    LeaveMembers(k.ready, t);
    RankElsewhere(k, idle, t, p);
    EnterMembers(s, t, i.rank);
    assert forall u :: u in s ==> u in k.threads && Placed(k, u) && Lookup(i.rank, u) == Lookup(k.rank, u);
    if s == [] {
      AloneAfter(t, i.rank);
    } else {
      assert s[0] in s;
    }
  }

  lemma AloneAfter(t: Tid, rank: map<Tid, int>)
    ensures Enter([], t, rank) == [t] && Requeue([t], t, rank) == [t]
  {
    assert RanksOf([], rank) == [];
    assert Leave([t], t) == [];
  }

  lemma PriorityBlocked(k: Kernel, idle: Tid, t: Tid, p: int)
    requires Inv(k, idle) && t in k.threads
    requires k.threads[t].state == BEGINNING || k.threads[t].state == SUSPENDED
    ensures Inv(SetPriority(k, t, p), idle) <==> TopOver(k.ready, k.chosen, p, k.rank)
  {
    hide Enter, Leave, Requeue;
    var n := k.(rank := k.rank[t := p]);
    ChosenIsThread(k, idle, k.chosen);
    assert Placed(k, t);
    LeaveAbsent(k.ready, t);
    RankElsewhere(k, idle, t, p);
    RerankedKeeps(k, n, idle, t);
    HeadAfterInsert(k, idle, n, t);
    var c := Choose(Insert(n, t));
    DispatchFrame(c, k.chosen);
    if c.chosen == t {
      PutOnKeeps(n, idle, k.chosen, t);
      RescheduleKeeps(Insert(SetState(n, t, READY), t), idle);
      BlockedFirst(n, t);
    } else {
      EnterMembers(k.ready, t, n.rank);
      ChooseMembers(Insert(n, t));
      var e := SetPriority(k, t, p);
      assert t in e.ready && e.threads[t].state == k.threads[t].state;
      assert !Placed(e, t);
    }
  }

  lemma BlockedFirst(n: Kernel, t: Tid)
    requires n.chosen in n.threads && t in n.threads && n.chosen != 0 && n.chosen != t
    requires Choose(Insert(n, t)).chosen == t
    ensures Reschedule(Insert(n, t)) == Reschedule(Insert(SetState(n, t, READY), t))
  {
    hide Enter, Leave, Requeue, Dispatch;
    var w := Insert(SetState(n, t, READY), t);
    assert Choose(w) == Choose(Insert(n, t)).(threads := w.threads);
    DispatchForgets(Choose(Insert(n, t)), Choose(w), n.chosen, READY);
  }

  lemma PriorityBreaks(k: Kernel, idle: Tid, t: Tid, p: int)
    requires Inv(k, idle) && t in k.threads
    requires k.threads[t].state == WAITING || k.threads[t].state == FINISHING
    ensures !Inv(SetPriority(k, t, p), idle)
  {
    hide Enter, Leave, Requeue;
    var n, e := k.(rank := k.rank[t := p]), SetPriority(k, t, p);
    ChosenIsThread(k, idle, k.chosen);
    assert Placed(k, t);
    LeaveAbsent(k.ready, t);
    EnterMembers(k.ready, t, n.rank);
    ChooseMembers(Insert(n, t));
    DispatchFrame(Choose(Insert(n, t)), k.chosen);
    if k.threads[t].state == WAITING {
      BothListsBreak(e, idle, t, k.threads[t].waiting);
    } else {
      FinishedReady(k, e, idle, t);
    }
  }

  lemma FinishedReady(k: Kernel, e: Kernel, idle: Tid, t: Tid)
    requires Inv(k, idle) && t in k.threads && k.threads[t].state == FINISHING
    requires t in e.ready && e.count == k.count && e.threads.Keys == k.threads.Keys
    requires forall u :: u in k.threads && k.threads[u].state != FINISHING ==> e.threads[u].state != FINISHING
    ensures !Inv(e, idle)
  {
    if e.threads[t].state == FINISHING {
      assert !Placed(e, t);
    } else {
      assert Live(k) + {t} <= Live(e);
      assert |Live(k) + {t}| == |Live(k)| + 1;
      SubsetSize(Live(k) + {t}, Live(e));
    }
  }

  lemma SubsetSize(a: set<Tid>, b: set<Tid>)
    requires a <= b
    ensures |a| <= |b|
  {
    assert b == a + (b - a);
  }
}
