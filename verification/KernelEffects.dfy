/** What each operation of the kernel is for: where the threads it is about end up. */
module KernelEffects {
  import opened RankOrder
  import opened KernelModel
  import opened KernelLaws
  import opened KernelSteps
  import opened KernelAdmin
  import opened KernelRuns

  lemma PassRuns(k: Kernel, idle: Tid, t: Tid)
    requires Inv(k, idle) && t in k.ready
    ensures Pass(k, t).chosen == t && t in Pass(k, t).threads && Pass(k, t).threads[t].state == RUNNING
  {
    PassKeeps(k, idle, t);
    ChosenIsThread(k, idle, k.chosen);
    DispatchFrame(ChooseThread(k, t), k.chosen);
    ChosenIsThread(Pass(k, t), idle, t);
    hide Pass, Mid;
    OneList(Pass(k, t), idle, t);
  }

  /** Somebody else runs if there is anybody else. */
  lemma YieldSwitches(k: Kernel, idle: Tid)
    requires Inv(k, idle)
    ensures Yield(k).chosen != k.chosen <==> |k.ready| > 1
  {
    ChosenIsThread(k, idle, k.chosen);
    ChooseAnotherKeeps(k, idle, k.chosen);
    DispatchFrame(ChooseAnother(k), k.chosen);
  }

  lemma SuspendBlocks(k: Kernel, idle: Tid, t: Tid)
    requires Inv(k, idle) && t in k.threads && SuspendOk(k, idle, t)
    ensures t in Suspend(k, t).threads && Suspend(k, t).threads[t].state == SUSPENDED
    ensures t !in Suspend(k, t).ready
  {
    hide Enter, Leave;
    var d := SetState(Remove(k, t), t, SUSPENDED);
    ChosenIsThread(k, idle, k.chosen);
    TakeOffKeeps(k, idle, k.chosen, t);
    ChosenIsThread(d, idle, k.chosen);
    assert d.threads[t].state == SUSPENDED && Placed(d, t);
    DispatchFrame(d, k.chosen);
    hide Mid;
    assert Dispatch(d, k.chosen).ready == d.ready;
  }

  /** A suspended thread can run again; any other is left where it was. */
  lemma ResumeReadies(k: Kernel, idle: Tid, t: Tid)
    requires Inv(k, idle) && t in k.threads
    ensures forall u :: u in Resume(k, t).ready <==> u in k.ready || (u == t && k.threads[t].state == SUSPENDED)
  {
    hide Enter, Leave, Requeue;
    var i := if k.threads[t].state == SUSPENDED then Insert(SetState(k, t, READY), t) else k;
    ChosenIsThread(k, idle, k.chosen);
    EnterMembers(k.ready, t, k.rank);
    RescheduledReady(i);
  }

  lemma RescheduledReady(i: Kernel)
    requires i.ready == [] || i.chosen in i.ready
    ensures forall u :: u in Reschedule(i).ready <==> u in i.ready
  {
    hide Choose;
    ChooseMembers(i);
    DispatchFrame(Choose(i), i.chosen);
  }

  /** The caller is blocked until the thread it joins exits. */
  lemma JoinBlocks(k: Kernel, idle: Tid, t: Tid)
    requires Inv(k, idle) && t in k.threads && k.threads[t].state != FINISHING && k.chosen != idle
    ensures var d := Join(k, t);
      && t in d.threads && d.threads[t].joining == k.chosen
      && k.chosen in d.threads && d.threads[k.chosen].state == SUSPENDED && k.chosen !in d.ready
  {
    var j := SetJoining(k, t, k.chosen);
    ChosenIsThread(k, idle, k.chosen);
    JoiningKeeps(k, idle, k.chosen, t, k.chosen);
    SuspendBlocks(j, idle, k.chosen);
    DispatchFrame(SetState(Remove(j, k.chosen), k.chosen, SUSPENDED), k.chosen);
  }

  /** The caller is finished, and its joiner can run. */
  lemma ExitReleases(k: Kernel, idle: Tid)
    requires Inv(k, idle) && k.chosen in k.threads && ExitOk(k, idle)
    ensures var (j, d) := (k.threads[k.chosen].joining, Exit(k));
      && k.chosen in d.threads && d.threads[k.chosen].state == FINISHING && d.count == k.count - 1
      && (forall u :: u in d.ready <==> (u in k.ready && u != k.chosen) || (u == j && j != 0))
  {
    var t := k.chosen;
    InvReady(k, idle);
    ExitShape(k);
    ChosenIsThread(k, idle, t);
    ExitKeeps(k, idle);
    ChosenIsThread(Exit(k), idle, Exit(k).chosen);
    ExitedHead(k, idle);
    ExitedFinished(k, idle);
  }

  lemma ExitedHead(k: Kernel, idle: Tid)
    requires Inv(Exit(k), idle)
    ensures Exit(k).chosen in Exit(k).ready
  {
    hide Exit;
  }

  lemma ExitedFinished(k: Kernel, idle: Tid)
    requires Inv(k, idle) && k.chosen in k.threads && ExitOk(k, idle)
    requires Exit(k).chosen in Exit(k).ready && k.chosen !in Exit(k).ready
    ensures k.chosen in Exit(k).threads && Exit(k).threads[k.chosen].state == FINISHING
  {
    var t := k.chosen;
    var d := Uncounted(SetState(Remove(k, t), t, FINISHING));
    ChosenIsThread(k, idle, t);
    assert k.threads[t].joining != t;
    hide Inv, Remove, Choose, ReleaseJoiner, Dispatch;
    ReleasedState(d, t);
    FinishedStays(ReleaseJoiner(d, t), t);
  }

  lemma ReleasedState(d: Kernel, t: Tid)
    requires t in d.threads && d.threads[t].joining != t
    ensures t in ReleaseJoiner(d, t).threads && ReleaseJoiner(d, t).threads[t].state == d.threads[t].state
  {
    hide Insert;
    InsertThreads();
  }

  lemma InsertThreads()
    ensures forall k: Kernel, u: Tid :: Insert(k, u).threads == k.threads
  {
    hide Enter;
  }

  lemma FinishedStays(i: Kernel, t: Tid)
    requires t in i.threads && i.threads[t].state == FINISHING && Choose(i).chosen != t
    ensures var d := Dispatch(Choose(i), t); t in d.threads && d.threads[t].state == FINISHING
  {
    hide Requeue;
  }

  /** The caller waits in the queue, and only there. */
  lemma SleepWaits(k: Kernel, idle: Tid, q: Qid)
    requires Inv(k, idle) && q in k.queues && k.chosen != idle
    ensures var d := Sleep(k, q);
      && k.chosen in d.threads && d.threads[k.chosen].state == WAITING && d.threads[k.chosen].waiting == q
      && q in d.queues && d.queues[q] == Enter(k.queues[q], k.chosen, k.rank)
      && k.chosen !in d.ready
  {
    AsleepKeeps(k, idle, q);
    var t, a := k.chosen, Asleep(k, q);
    ChosenIsThread(k, idle, t);
    ChosenIsThread(a, idle, t);
    hide Enter, Leave, SortedBy, NoDup;
    assert a.threads[t].state == WAITING && Placed(a, t);
    DispatchFrame(a, t);
    assert Dispatch(a, t).threads[t] == a.threads[t];
  }

  /** Everybody that waited can run. */
  lemma WakeupAllReadies(k: Kernel, idle: Tid, q: Qid)
    requires Inv(k, idle) && q in k.queues
    ensures forall u :: u in WakeupAll(k, q).ready <==> u in k.ready || u in k.queues[q]
  {
    WakeEachReady(k, idle, k.chosen, q);
    WakeEachKeeps(k, idle, k.chosen, q);
    RescheduledReady(WakeEach(k, q));
  }

  lemma {:induction false} WakeEachReady(k: Kernel, idle: Tid, r: Tid, q: Qid)
    requires Mid(k, idle, r) && r in k.ready && q in k.queues
    ensures forall u :: u in WakeEach(k, q).ready <==> u in k.ready || u in k.queues[q]
    decreases |QueueOf(k, q)|
  {
    if k.queues[q] != [] {
      var w := WakeOne(k, q);
      WakeOneKeeps(k, idle, r, q);
      WokenReady(k, q);
      hide Mid, WakeOne;
      WakeEachReady(w, idle, r, q);
    }
  }

  lemma WokenReady(k: Kernel, q: Qid)
    requires q in k.queues && k.queues[q] != []
    ensures var d := WakeOne(k, q);
      && q in d.queues && d.queues[q] == k.queues[q][1..]
      && forall u :: u in d.ready || u in d.queues[q] <==> u in k.ready || u in k.queues[q]
  {
    hide Enter;
    EnterMembers(k.ready, k.queues[q][0], k.rank);
    assert k.queues[q] == [k.queues[q][0]] + k.queues[q][1..];
  }

  /** The head of the queue, and nobody else, can run; the others go on waiting. */
  lemma WakeupReadies(k: Kernel, idle: Tid, q: Qid)
    requires Inv(k, idle) && q in k.queues
    ensures var (s, d) := (k.queues[q], Wakeup(k, q));
      && (forall u :: u in d.ready <==> u in k.ready || (s != [] && u == s[0]))
      && d.queues == k.queues[q := if s == [] then [] else s[1..]]
  {
    hide Enter, Mid;
    ChosenIsThread(k, idle, k.chosen);
    var i := if k.queues[q] == [] then k else WakeOne(k, q);
    if k.queues[q] != [] {
      EnterMembers(k.ready, k.queues[q][0], k.rank);
    } else {
      assert k.queues == k.queues[q := []];
    }
    ChosenReady(k, idle);
    RescheduledReady(i);
    ChooseMembers(i);
    DispatchFrame(Choose(i), i.chosen);
  }

  lemma ChosenReady(k: Kernel, idle: Tid)
    requires Inv(k, idle)
    ensures k.chosen in k.ready && k.chosen != 0
  {
    ChosenIsThread(k, idle, k.chosen);
  }

  /** A synchronizer that is deleted leaves nobody waiting, and nothing of itself. */
  lemma DropReadies(k: Kernel, idle: Tid, q: Qid)
    requires Inv(k, idle) && q in k.queues
    ensures var d := DestroyQueue(k, q);
      && (forall u :: u in d.ready <==> u in k.ready || u in k.queues[q])
      && q !in d.queues && q !in d.value
      && (forall u :: u in d.threads ==> d.threads[u].waiting != q)
  {
    hide Mid, WakeupAll;
    WakeupAllReadies(k, idle, q);
    DropQueueKeeps(k, idle, q);
    QueueNamed(k, idle, q);
    NobodyWaits(DestroyQueue(k, q), idle, q);
  }

  lemma QueueNamed(k: Kernel, idle: Tid, q: Qid)
    requires Inv(k, idle) && q in k.queues
    ensures q != 0
  {
    assert QueueOk(k, q);
  }

  lemma NobodyWaits(d: Kernel, idle: Tid, q: Qid)
    requires Inv(d, idle) && q !in d.queues && q != 0
    ensures forall u :: u in d.threads ==> d.threads[u].waiting != q
  {
    forall u | u in d.threads
      ensures d.threads[u].waiting != q
    {
      assert Placed(d, u);
    }
  }

  /** The thread has its new rank, and stays in the ready list. */
  lemma PriorityRanks(k: Kernel, idle: Tid, t: Tid, p: int)
    requires Inv(k, idle) && t in k.threads && k.threads[t].state == READY
    ensures var d := SetPriority(k, t, p);
      && d.rank == k.rank[t := p] && (forall u :: u in d.ready <==> u in k.ready)
  {
    RerankedReady(k, idle, t, p);
    var i := Reranked(k, t, p);
    hide Enter, Leave, Choose;
    ChosenIsThread(i, idle, i.chosen);
    assert Placed(k, t);
    LeaveMembers(k.ready, t);
    EnterMembers(Leave(k.ready, t), t, i.rank);
    RescheduledReady(i);
    ChooseMembers(i);
    DispatchFrame(Choose(i), i.chosen);
  }
}
