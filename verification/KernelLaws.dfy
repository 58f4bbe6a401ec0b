/** Every operation of the kernel against the invariant. */
module KernelLaws {
  import opened RankOrder
  import opened KernelModel

  ghost predicate ThreadsOk(k: Kernel) {
    forall t :: t in k.threads ==> Placed(k, t)
  }

  ghost predicate QueuesOk(k: Kernel) {
    forall q :: q in k.queues ==> QueueOk(k, q)
  }

  lemma SameLive(k: Kernel, d: Kernel)
    requires forall t :: t in Live(k) <==> t in Live(d)
    ensures Live(k) == Live(d)
  {}

  lemma ChosenIsThread(k: Kernel, idle: Tid, r: Tid)
    requires Mid(k, idle, r)
    ensures k.chosen in k.threads && k.chosen != 0
    ensures Placed(k, k.chosen)
    ensures k.threads[k.chosen].state == READY || k.threads[k.chosen].state == RUNNING
  {}

  // ----- Steps inside an operation.

  /** Moving between ready and running keeps every thread where it is. */
  lemma RestateKeeps(k: Kernel, t: Tid, s: State)
    requires ThreadsOk(k) && QueuesOk(k) && t in k.threads && t in k.ready
    requires s == READY || s == RUNNING
    ensures ThreadsOk(SetState(k, t, s)) && QueuesOk(SetState(k, t, s))
    ensures Live(SetState(k, t, s)) == Live(k)
  {
    var d := SetState(k, t, s);
    assert Placed(k, t);
    SameLive(k, d);
    forall u | u in d.threads
      ensures Placed(d, u)
    {
      assert Placed(k, u);
    }
    forall q | q in d.queues
      ensures QueueOk(d, q)
    {
      assert QueueOk(k, q);
    }
  }

  /** The states when `prev` has handed over to the chosen thread. */
  function Handed(k: Kernel, prev: Tid): Kernel {
    SetState(if Get(k, prev).state == RUNNING then SetState(k, prev, READY) else k, k.chosen, RUNNING)
  }

  lemma HandedKeeps(k: Kernel, idle: Tid, prev: Tid)
    requires Mid(k, idle, prev) && prev in k.threads && prev != k.chosen
    ensures var d := Handed(k, prev);
      ThreadsOk(d) && QueuesOk(d) && Live(d) == Live(k) && OnCpu(d, k.chosen) && SavedOk(d, prev)
  {
    ChosenIsThread(k, idle, prev);
    var j := if k.threads[prev].state == RUNNING then SetState(k, prev, READY) else k;
    if k.threads[prev].state == RUNNING {
      assert Placed(k, prev);
      RestateKeeps(k, prev, READY);
    }
    RestateKeeps(j, k.chosen, RUNNING);
  }

  /** Handing the CPU over completes an operation. */
  lemma DispatchKeeps(k: Kernel, idle: Tid, prev: Tid)
    requires Mid(k, idle, prev) && prev in k.threads
    ensures Inv(Dispatch(k, prev), idle)
    ensures Dispatch(k, prev).ready == k.ready && Dispatch(k, prev).chosen == k.chosen
  {
    hide QueueOk, SortedBy, NoDup, Live;
    ChosenIsThread(k, idle, prev);
    if prev != k.chosen {
      HandedKeeps(k, idle, prev);
      SwitchFrame(Handed(k, prev), prev, k.chosen);
      SwitchedInv(k, Dispatch(k, prev), idle, prev);
    }
  }

  lemma SwitchedInv(k: Kernel, d: Kernel, idle: Tid, prev: Tid)
    requires Mid(k, idle, prev)
    requires d == k.(threads := d.threads, cpu := d.cpu, context := d.context)
    requires forall t :: t in k.threads ==> t in d.threads
    requires ThreadsOk(d) && QueuesOk(d) && Live(d) == Live(k) && OnCpu(d, k.chosen) && SavedOk(d, k.chosen)
    ensures Inv(d, idle)
  {
    hide Placed, QueueOk, OnCpu, SavedOk, Live, SortedBy, NoDup;
  }

  /** The switch moves nobody, and keeps track of who is where. */
  lemma SwitchFrame(k: Kernel, prev: Tid, next: Tid)
    requires prev in k.threads && next in k.threads && prev != next
    ensures var d := Switch(k, prev, next);
      && (ThreadsOk(k) ==> ThreadsOk(d)) && (QueuesOk(k) ==> QueuesOk(d)) && Live(d) == Live(k)
      && (SavedOk(k, prev) ==> SavedOk(d, next))
      && d == k.(cpu := d.cpu, context := d.context)
  {
    var d := Switch(k, prev, next);
    SameLive(k, d);
    assert ThreadsOk(k) ==> forall t :: t in d.threads ==> Placed(k, t);
    assert QueuesOk(k) ==> forall q :: q in d.queues ==> QueueOk(k, q);
  }

  /** Reordering the ready list moves nobody in or out. */
  lemma ReorderKeeps(k: Kernel, d: Kernel, idle: Tid, r: Tid)
    requires Mid(k, idle, r)
    requires d == k.(ready := d.ready, chosen := d.chosen)
    requires forall t :: t in d.ready <==> t in k.ready
    requires NoDup(d.ready) && SortedBy(d.ready, k.rank) && d.chosen in d.ready
    ensures Mid(d, idle, r)
  {
    forall u | u in d.threads
      ensures Placed(d, u)
    {
      assert Placed(k, u);
    }
    forall q | q in d.queues
      ensures QueueOk(d, q)
    {
      assert QueueOk(k, q);
    }
    SameLive(k, d);
  }

  lemma ChooseKeeps(k: Kernel, idle: Tid, r: Tid)
    requires Mid(k, idle, r)
    ensures Mid(Choose(k), idle, r)
    ensures Choose(k).threads == k.threads
  {
    RequeueMembers(k.ready, k.chosen, k.rank);
    ReorderKeeps(k, Choose(k), idle, r);
  }

  lemma ChooseAnotherKeeps(k: Kernel, idle: Tid, r: Tid)
    requires Mid(k, idle, r)
    ensures Mid(ChooseAnother(k), idle, r)
    ensures |k.ready| > 1 ==> ChooseAnother(k).chosen != k.chosen
  {
    RequeueMembers(k.ready, k.chosen, k.rank);
    LeaveMembers(k.ready, k.chosen);
    if |k.ready| > 1 {
      var others := Leave(k.ready, k.chosen);
      assert others[0] in others;
      ReorderKeeps(k, ChooseAnother(k), idle, r);
    }
  }

  lemma ChooseThreadKeeps(k: Kernel, idle: Tid, r: Tid, t: Tid)
    requires Mid(k, idle, r) && t in k.ready
    ensures Mid(ChooseThread(k, t), idle, r)
  {
    RequeueMembers(k.ready, k.chosen, k.rank);
    ReorderKeeps(k, ChooseThread(k, t), idle, r);
  }

  lemma RescheduleKeeps(k: Kernel, idle: Tid)
    requires Inv(k, idle)
    ensures Inv(Reschedule(k), idle)
  {
    ChosenIsThread(k, idle, k.chosen);
    ChooseKeeps(k, idle, k.chosen);
    DispatchKeeps(Choose(k), idle, k.chosen);
  }

  /** A blocked thread that is in no list joins the ready list. */
  lemma PutOnKeeps(k: Kernel, idle: Tid, r: Tid, t: Tid)
    requires Mid(k, idle, r) && t in k.threads && t != r
    requires k.threads[t].state == SUSPENDED || k.threads[t].state == BEGINNING
    ensures Mid(Insert(SetState(k, t, READY), t), idle, r)
    ensures Insert(SetState(k, t, READY), t).chosen == k.chosen
  {
    hide Enter, Leave;
    var d := Insert(SetState(k, t, READY), t);
    ChosenIsThread(k, idle, r);
    assert Placed(k, t);
    EnterMembers(k.ready, t, k.rank);
    EnterKeepsOrder(k.ready, t, k.rank);
    SameLive(k, d);
    OthersKeep(k, d, t);
  }

  /** What a change of one thread, in no wait queue before or after, leaves in place. */
  lemma OthersKeep(k: Kernel, d: Kernel, t: Tid)
    requires ThreadsOk(k) && QueuesOk(k) && t in k.threads && t in d.threads
    requires d.queues == k.queues && d.rank == k.rank
    requires k.threads[t].state != WAITING && d.threads[t].state != WAITING
    requires forall u :: u in d.threads <==> u in k.threads
    requires forall u :: u in k.threads && u != t ==> d.threads[u] == k.threads[u]
    requires forall u :: u in k.threads && u != t ==> (u in d.ready <==> u in k.ready)
    requires t in d.ready <==> d.threads[t].state == READY || d.threads[t].state == RUNNING
    requires d.threads[t].waiting == 0
    ensures ThreadsOk(d) && QueuesOk(d)
  {
    forall u | u in d.threads
      ensures Placed(d, u)
    {
      assert Placed(k, u);
    }
    forall q | q in d.queues
      ensures QueueOk(d, q)
    {
      assert QueueOk(k, q);
    }
  }

  /** A thread leaves the ready list, if it is there, and is suspended. */
  lemma TakeOffKeeps(k: Kernel, idle: Tid, r: Tid, t: Tid)
    requires Mid(k, idle, r) && t in k.threads && t != idle
    requires k.threads[t].state != WAITING && k.threads[t].state != FINISHING
    ensures Mid(SetState(Remove(k, t), t, SUSPENDED), idle, r)
  {
    hide Enter, Leave, SortedBy, NoDup;
    var d := SetState(Remove(k, t), t, SUSPENDED);
    assert Placed(k, t);
    LeaveMembers(k.ready, t);
    LeaveKeepsOrder(k.ready, t, k.rank);
    assert idle in d.ready && Head(d.ready) in d.ready;
    SameLive(k, d);
    OthersKeep(k, d, t);
  }

  /** The queues once its head has left queue `q`. */
  lemma HeadOut(s: seq<Tid>)
    requires s != [] && NoDup(s)
    ensures NoDup(s[1..]) && s[0] !in s[1..]
    ensures forall u :: u in s <==> u == s[0] || u in s[1..]
  {
    forall u | u in s && u != s[0]
      ensures u in s[1..]
    {
      var i :| 0 <= i < |s| && s[i] == u;
      assert s[1..][i - 1] == u;
    }
    forall i | 0 <= i < |s[1..]|
      ensures s[1..][i] == s[i + 1] != s[0]
    {}
  }

  lemma WakeOneKeeps(k: Kernel, idle: Tid, r: Tid, q: Qid)
    requires Mid(k, idle, r) && r in k.ready && q in k.queues && k.queues[q] != []
    ensures Mid(WakeOne(k, q), idle, r)
    ensures WakeOne(k, q).chosen == k.chosen && q in WakeOne(k, q).queues && r in WakeOne(k, q).ready
  {
    hide Enter, Leave, SortedBy;
    var t, d := k.queues[q][0], WakeOne(k, q);
    ChosenIsThread(k, idle, r);
    assert QueueOk(k, q) && t in k.queues[q] && Placed(k, t);
    EnterMembers(k.ready, t, k.rank);
    EnterKeepsOrder(k.ready, t, k.rank);
    HeadOut(k.queues[q]);
    SameLive(k, d);
    WokenThreads(k, d, q, t);
    WokenQueues(k, d, q, t);
  }

  lemma WokenThreads(k: Kernel, d: Kernel, q: Qid, t: Tid)
    requires ThreadsOk(k) && QueuesOk(k) && q in k.queues && t in k.queues[q]
    requires d.threads == k.threads[t := k.threads[t].(state := READY, waiting := 0)]
    requires q in d.queues && d.queues == k.queues[q := d.queues[q]]
    requires forall u :: u in k.queues[q] <==> u == t || u in d.queues[q]
    requires forall u :: u in d.ready <==> u == t || u in k.ready
    ensures ThreadsOk(d)
  {
    assert QueueOk(k, q) && Placed(k, t);
    forall u | u in d.threads
      ensures Placed(d, u)
    {
      assert Placed(k, u);
    }
  }

  lemma WokenQueues(k: Kernel, d: Kernel, q: Qid, t: Tid)
    requires QueuesOk(k) && q in k.queues && t in k.queues[q] && d.rank == k.rank
    requires d.threads == k.threads[t := k.threads[t].(state := READY, waiting := 0)]
    requires q in d.queues && d.queues == k.queues[q := d.queues[q]] && d.queues[q] == k.queues[q][1..]
    requires t !in d.queues[q]
    ensures QueuesOk(d)
  {
    assert QueueOk(k, q);
    forall p | p in d.queues
      ensures QueueOk(d, p)
    {
      assert QueueOk(k, p);
    }
  }
}
