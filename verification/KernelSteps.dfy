/** When each operation keeps the invariant: exactly under a condition on the state it is
    called in. */
module KernelSteps {
  import opened RankOrder
  import opened KernelModel
  import opened KernelLaws

  // ----- What an operation does not touch.

  lemma DispatchFrame(k: Kernel, prev: Tid)
    ensures var d := Dispatch(k, prev);
      && d == k.(threads := d.threads, cpu := d.cpu, context := d.context)
      && (if prev == k.chosen then d == k else d.cpu == Context(k, k.chosen) && Context(d, prev) == k.cpu)
      && (forall t :: t in k.threads ==> t in d.threads)
      && (forall t :: t in k.threads && t != prev && t != k.chosen ==> d.threads[t] == k.threads[t])
      && (forall t :: t in k.threads ==>
            d.threads[t].waiting == k.threads[t].waiting && d.threads[t].joining == k.threads[t].joining)
      && (forall t :: t in d.threads ==> t in k.threads || t == prev || t == k.chosen)
  {}

  lemma JoiningKeeps(k: Kernel, idle: Tid, r: Tid, t: Tid, j: Tid)
    requires Mid(k, idle, r) && t in k.threads
    ensures Mid(SetJoining(k, t, j), idle, r)
  {
    var d := SetJoining(k, t, j);
    SameLive(k, d);
    forall u | u in d.threads
      ensures Placed(d, u)
    {
      assert Placed(k, u);
    }
    forall q | q in d.queues
      ensures QueueOk(d, q)
    {
      assert QueueOk(k, q);
    }
  }

  // ----- Suspend and join.

  predicate SuspendOk(k: Kernel, idle: Tid, t: Tid)
    requires t in k.threads
  {
    t != idle && k.threads[t].state != WAITING && k.threads[t].state != FINISHING
  }

  lemma SuspendIff(k: Kernel, idle: Tid, t: Tid)
    requires Inv(k, idle) && t in k.threads
    ensures Inv(Suspend(k, t), idle) <==> SuspendOk(k, idle, t)
  {
    var d := SetState(Remove(k, t), t, SUSPENDED);
    ChosenIsThread(k, idle, k.chosen);
    if SuspendOk(k, idle, t) {
      TakeOffKeeps(k, idle, k.chosen, t);
      DispatchKeeps(d, idle, k.chosen);
    } else {
      DispatchFrame(d, k.chosen);
      LeaveMembers(k.ready, t);
      if t != idle {
        assert Placed(k, t) && t !in k.ready;
        SuspendBreaks(k, idle, t);
      }
    }
  }

  lemma SuspendBreaks(k: Kernel, idle: Tid, t: Tid)
    requires Inv(k, idle) && t in k.threads && t !in k.ready
    requires k.threads[t].state == WAITING || k.threads[t].state == FINISHING
    ensures !Inv(Suspend(k, t), idle)
  {
    var d, e := SetState(Remove(k, t), t, SUSPENDED), Suspend(k, t);
    DispatchFrame(d, k.chosen);
    ChosenIsThread(k, idle, k.chosen);
    assert Placed(k, t) && k.chosen in k.ready && Leave(k.ready, t) == k.ready;
    assert e == d && e.threads[t].state == SUSPENDED;
    if k.threads[t].state == WAITING {
      assert !Placed(e, t);
    } else {
      assert Live(e) == Live(k) + {t};
    }
  }

  predicate JoinOk(k: Kernel, idle: Tid, t: Tid)
    requires t in k.threads
  {
    k.threads[t].state == FINISHING || k.chosen != idle
  }

  lemma JoinIff(k: Kernel, idle: Tid, t: Tid)
    requires Inv(k, idle) && t in k.threads
    ensures Inv(Join(k, t), idle) <==> JoinOk(k, idle, t)
  {
    ChosenIsThread(k, idle, k.chosen);
    JoiningKeeps(k, idle, k.chosen, t, k.chosen);
    SuspendIff(SetJoining(k, t, k.chosen), idle, k.chosen);
  }

  // ----- Operations that always keep the invariant.

  lemma PassKeeps(k: Kernel, idle: Tid, t: Tid)
    requires Inv(k, idle)
    ensures Inv(Pass(k, t), idle)
  {
    if t in k.ready {
      ChosenIsThread(k, idle, k.chosen);
      ChooseThreadKeeps(k, idle, k.chosen, t);
      DispatchKeeps(ChooseThread(k, t), idle, k.chosen);
    }
  }

  lemma YieldKeeps(k: Kernel, idle: Tid)
    requires Inv(k, idle)
    ensures Inv(Yield(k), idle)
  {
    ChosenIsThread(k, idle, k.chosen);
    ChooseAnotherKeeps(k, idle, k.chosen);
    DispatchKeeps(ChooseAnother(k), idle, k.chosen);
  }

  lemma ResumeKeeps(k: Kernel, idle: Tid, t: Tid)
    requires Inv(k, idle) && t in k.threads
    ensures Inv(Resume(k, t), idle)
  {
    ChosenIsThread(k, idle, k.chosen);
    if k.threads[t].state == SUSPENDED {
      PutOnKeeps(k, idle, k.chosen, t);
      RescheduleKeeps(Insert(SetState(k, t, READY), t), idle);
    } else {
      RescheduleKeeps(k, idle);
    }
  }

  lemma WakeupKeeps(k: Kernel, idle: Tid, q: Qid)
    requires Inv(k, idle) && q in k.queues
    ensures Inv(Wakeup(k, q), idle)
  {
    if k.queues[q] == [] {
      RescheduleKeeps(k, idle);
    } else {
      WakeOneKeeps(k, idle, k.chosen, q);
      RescheduleKeeps(WakeOne(k, q), idle);
    }
  }

  lemma {:induction false} WakeEachKeeps(k: Kernel, idle: Tid, r: Tid, q: Qid)
    requires Mid(k, idle, r) && r in k.ready && q in k.queues
    ensures Mid(WakeEach(k, q), idle, r)
    ensures WakeEach(k, q).chosen == k.chosen
    ensures q in WakeEach(k, q).queues && WakeEach(k, q).queues[q] == []
    decreases |QueueOf(k, q)|
  {
    if k.queues[q] != [] {
      WakeOneKeeps(k, idle, r, q);
      WakeEachKeeps(WakeOne(k, q), idle, r, q);
    }
  }

  lemma WakeupAllKeeps(k: Kernel, idle: Tid, q: Qid)
    requires Inv(k, idle) && q in k.queues
    ensures Inv(WakeupAll(k, q), idle)
    ensures q in WakeupAll(k, q).queues && WakeupAll(k, q).queues[q] == []
  {
    WakeEachKeeps(k, idle, k.chosen, q);
    var d := WakeEach(k, q);
    RescheduleKeeps(d, idle);
    DispatchFrame(Choose(d), d.chosen);
  }

  // ----- Exit.

  /** The joiner, if there is one, is another thread that is blocked and in no list. */
  predicate ExitOk(k: Kernel, idle: Tid)
    requires k.chosen in k.threads
  {
    var j := k.threads[k.chosen].joining;
    && k.chosen != idle
    && (j != 0 ==> j in k.threads && (k.threads[j].state == SUSPENDED || k.threads[j].state == BEGINNING))
  }

  lemma FinishKeeps(k: Kernel, idle: Tid)
    requires Inv(k, idle) && k.chosen != idle
    ensures Mid(Uncounted(SetState(Remove(k, k.chosen), k.chosen, FINISHING)), idle, k.chosen)
  {
    hide Enter, Leave;
    var t := k.chosen;
    var d := Uncounted(SetState(Remove(k, t), t, FINISHING));
    ChosenIsThread(k, idle, t);
    LeaveMembers(k.ready, t);
    LeaveKeepsOrder(k.ready, t, k.rank);
    assert idle in d.ready && Head(d.ready) in d.ready;
    assert Live(d) == Live(k) - {t};
    OthersKeep(k, d, t);
  }

  lemma ExitKeeps(k: Kernel, idle: Tid)
    requires Inv(k, idle) && k.chosen in k.threads && ExitOk(k, idle)
    ensures Inv(Exit(k), idle)
  {
    var t := k.chosen;
    var j := k.threads[t].joining;
    var d := Uncounted(SetState(Remove(k, t), t, FINISHING));
    ChosenIsThread(k, idle, t);
    FinishKeeps(k, idle);
    if j != 0 {
      PutOnKeeps(d, idle, t, j);
      JoiningKeeps(Insert(SetState(d, j, READY), j), idle, t, t, 0);
    }
    ChooseKeeps(ReleaseJoiner(d, t), idle, t);
    DispatchKeeps(Choose(ReleaseJoiner(d, t)), idle, t);
  }

  // ----- Sleep.

  /** The caller moved to a wait queue, before the CPU is handed over. */
  function Asleep(k: Kernel, q: Qid): Kernel {
    var t := k.chosen;
    var w := SetState(Remove(k, t), t, WAITING);
    SetWaiting(SetQueue(w, q, Enter(QueueOf(w, q), t, w.rank)), t, q)
  }

  lemma AsleepKeeps(k: Kernel, idle: Tid, q: Qid)
    requires Inv(k, idle) && q in k.queues && k.chosen != idle
    ensures Mid(Asleep(k, q), idle, k.chosen)
  {
    hide Enter, Leave, NoDup, SortedBy, Placed, QueueOk;
    var t, d := k.chosen, Asleep(k, q);
    ChosenIsThread(k, idle, t);
    LeaveMembers(k.ready, t);
    LeaveKeepsOrder(k.ready, t, k.rank);
    assert idle in d.ready && Head(d.ready) in d.ready;
    SameLive(k, d);
    SleepQueues(k, d, q, t);
  }

  lemma SleepKeeps(k: Kernel, idle: Tid, q: Qid)
    requires Inv(k, idle) && q in k.queues && k.chosen != idle
    ensures Inv(Sleep(k, q), idle)
  {
    hide Enter, Leave;
    ChosenIsThread(k, idle, k.chosen);
    AsleepKeeps(k, idle, q);
    DispatchKeeps(Asleep(k, q), idle, k.chosen);
  }

  lemma SleepQueues(k: Kernel, d: Kernel, q: Qid, t: Tid)
    requires ThreadsOk(k) && QueuesOk(k) && q in k.queues && t in k.threads && k.threads[t].state == RUNNING
    requires d.rank == k.rank && d.threads == k.threads[t := k.threads[t].(state := WAITING, waiting := q)]
    requires d.queues == k.queues[q := Enter(k.queues[q], t, k.rank)]
    requires forall u :: u in d.ready <==> u in k.ready && u != t
    ensures ThreadsOk(d) && QueuesOk(d)
  {
    EnterMembers(k.queues[q], t, k.rank);
    assert QueueOk(k, q) && Placed(k, t);
    EnterKeepsOrder(k.queues[q], t, k.rank);
    forall u | u in d.threads
      ensures Placed(d, u)
    {
      assert Placed(k, u);
    }
    forall p | p in d.queues
      ensures QueueOk(d, p)
    {
      assert QueueOk(k, p);
    }
  }

  lemma SleepIff(k: Kernel, idle: Tid, q: Qid)
    requires Inv(k, idle) && q in k.queues
    ensures Inv(Sleep(k, q), idle) <==> k.chosen != idle
  {
    if k.chosen != idle {
      SleepKeeps(k, idle, q);
    } else {
      LeaveMembers(k.ready, k.chosen);
      DispatchFrame(Asleep(k, q), k.chosen);
      assert idle !in Sleep(k, q).ready;
    }
  }

  // ----- Exit, when the joiner is not as expected.

  lemma ExitIff(k: Kernel, idle: Tid)
    requires Inv(k, idle)
    ensures k.chosen in k.threads
    ensures Inv(Exit(k), idle) <==> ExitOk(k, idle)
  {
    ChosenIsThread(k, idle, k.chosen);
    if ExitOk(k, idle) {
      ExitKeeps(k, idle);
    } else {
      ExitBreaks(k, idle);
    }
  }

  ghost predicate ReadyFacts(k: Kernel) {
    NoDup(k.ready) && k.chosen in k.ready && 0 !in k.ready && k.chosen in k.threads
  }

  lemma InvReady(k: Kernel, idle: Tid)
    requires Inv(k, idle)
    ensures ReadyFacts(k)
  {
    assert forall u :: u in k.ready ==> Placed(k, u);
  }

  /** The lists and the count that `Exit` leaves, whatever the joiner is. */
  lemma ExitShape(k: Kernel)
    requires ReadyFacts(k)
    ensures var j, e := k.threads[k.chosen].joining, Exit(k);
      && e.count == k.count - 1 && e.queues == k.queues
      && (forall u :: u in e.ready <==> (u in k.ready && u != k.chosen) || (u == j && j != 0))
      && (j != 0 && j in k.ready && j != k.chosen ==> multiset(e.ready)[j] >= 2)
      && (e.ready != [] ==> e.chosen in e.ready)
  {
    hide Uncounted, SetState, Remove, Enter, Leave, Requeue, NoDup, Choose, Dispatch, ReleaseJoiner;
    var t := k.chosen;
    var d := Uncounted(SetState(Remove(k, t), t, FINISHING));
    FinishedShape(k);
    ReleaseShape(d, t);
    ChooseMembers(ReleaseJoiner(d, t));
    DispatchFrame(Choose(ReleaseJoiner(d, t)), t);
  }

  lemma FinishedShape(k: Kernel)
    requires ReadyFacts(k)
    ensures var d := Uncounted(SetState(Remove(k, k.chosen), k.chosen, FINISHING));
      && d.count == k.count - 1 && d.queues == k.queues && Get(d, k.chosen).joining == k.threads[k.chosen].joining
      && (forall u :: u in d.ready <==> u in k.ready && u != k.chosen)
      && (if d.ready == [] then d.chosen == 0 else d.chosen in d.ready && d.chosen != 0)
  {
    hide Leave, NoDup;
    LeaveMembers(k.ready, k.chosen);
    var d := Uncounted(SetState(Remove(k, k.chosen), k.chosen, FINISHING));
    assert d.ready != [] ==> d.ready[0] in d.ready && d.chosen == d.ready[0];
  }

  lemma ReleaseShape(d: Kernel, t: Tid)
    requires if d.ready == [] then d.chosen == 0 else d.chosen in d.ready && d.chosen != 0
    ensures var j, i := Get(d, t).joining, ReleaseJoiner(d, t);
      && i == d.(threads := i.threads, ready := i.ready, chosen := i.chosen)
      && (forall u :: u in i.ready <==> u in d.ready || (u == j && j != 0))
      && (j != 0 && j in d.ready ==> multiset(i.ready)[j] >= 2)
      && (i.ready != [] ==> i.chosen in i.ready)
  {
    hide Enter;
    var j := Get(d, t).joining;
    if j != 0 {
      EnterMembers(d.ready, j, d.rank);
      EnterMultiset(d.ready, j, d.rank);
      assert j in d.ready ==> j in multiset(d.ready);
      var r := Enter(d.ready, j, d.rank);
      assert r[0] in r;
    }
  }

  lemma ExitBreaks(k: Kernel, idle: Tid)
    requires Inv(k, idle) && k.chosen in k.threads && !ExitOk(k, idle)
    ensures !Inv(Exit(k), idle)
  {
    hide Exit, Inv;
    InvReady(k, idle);
    ExitShape(k);
    var t, e := k.chosen, Exit(k);
    var j := k.threads[t].joining;
    if j != 0 && (j == t || j !in k.threads || k.threads[j].state == FINISHING) {
      JoinerMiscounted(k, idle, j);
    } else if j != 0 && k.threads[j].state == WAITING {
      JoinerInTwoLists(k, idle, j);
    } else if j != 0 && k.threads[j].state == READY {
      JoinerTwice(k, idle, j);
    } else {
      NoIdle(k, idle);
    }
  }

  lemma NoIdle(k: Kernel, idle: Tid)
    requires Inv(k, idle) && k.chosen in k.threads && !ExitOk(k, idle)
    requires var j := k.threads[k.chosen].joining;
      j == 0 || (j != k.chosen && j in k.threads && k.threads[j].state !in {FINISHING, WAITING, READY})
    ensures !Inv(Exit(k), idle)
  {
    InvReady(k, idle);
    ExitShape(k);
    assert k.chosen == idle;
  }

  lemma JoinerInTwoLists(k: Kernel, idle: Tid, j: Tid)
    requires Inv(k, idle) && k.chosen in k.threads && j == k.threads[k.chosen].joining && j != 0
    requires j in k.threads && k.threads[j].state == WAITING
    ensures !Inv(Exit(k), idle)
  {
    InvReady(k, idle);
    ExitShape(k);
    assert Placed(k, j);
    BothListsBreak(Exit(k), idle, j, k.threads[j].waiting);
  }

  lemma JoinerTwice(k: Kernel, idle: Tid, j: Tid)
    requires Inv(k, idle) && k.chosen in k.threads && j == k.threads[k.chosen].joining && j != 0
    requires j in k.threads && j != k.chosen && k.threads[j].state == READY
    ensures !Inv(Exit(k), idle)
  {
    InvReady(k, idle);
    ExitShape(k);
    assert Placed(k, j);
    TwiceIsDup(Exit(k).ready, j);
  }

  lemma ChooseMembers(k: Kernel)
    requires k.ready == [] || k.chosen in k.ready
    ensures forall u :: u in Choose(k).ready <==> u in k.ready
    ensures Choose(k) == k.(ready := Choose(k).ready, chosen := Choose(k).chosen)
    ensures multiset(Choose(k).ready) == multiset(k.ready)
    ensures k.ready != [] ==> Choose(k).chosen in Choose(k).ready
  {
    if k.ready != [] {
      RequeueMultiset(k.ready, k.chosen, k.rank);
      assert forall u :: u in Choose(k).ready <==> u in multiset(Choose(k).ready);
      assert forall u :: u in k.ready <==> u in multiset(k.ready);
      assert k.chosen in Choose(k).ready;
    }
  }

  lemma BothListsBreak(k: Kernel, idle: Tid, t: Tid, q: Qid)
    requires q in k.queues && t in k.queues[q] && t in k.ready
    ensures !Inv(k, idle)
  {
    assert t in k.threads ==> !QueueOk(k, q) || !Placed(k, t);
  }

  lemma JoinerMiscounted(k: Kernel, idle: Tid, j: Tid)
    requires Inv(k, idle) && k.chosen in k.threads && j == k.threads[k.chosen].joining && j != 0
    requires j == k.chosen || j !in k.threads || k.threads[j].state == FINISHING
    ensures !Inv(Exit(k), idle)
  {
    var t, e := k.chosen, Exit(k);
    InvReady(k, idle);
    ExitShape(k);
    ExitLive(k, idle, j);
    assert |Live(e)| == |Live(k)| && k.count == |Live(k)| && e.count == k.count - 1;
  }

  lemma ExitLive(k: Kernel, idle: Tid, j: Tid)
    requires Inv(k, idle) && k.chosen in k.threads && j == k.threads[k.chosen].joining && j != 0
    requires j == k.chosen || j !in k.threads || k.threads[j].state == FINISHING
    ensures |Live(Exit(k))| == |Live(k)|
  {
    hide Exit, SortedBy, NoDup, QueueOk, SavedOk;
    var t, e := k.chosen, Exit(k);
    InvReady(k, idle);
    assert forall u :: u in k.ready ==> u in k.threads && Placed(k, u);
    ExitThreads(k, j);
    SwapOne(Live(k), Live(e), t, j);
  }

  lemma SwapOne(a: set<Tid>, b: set<Tid>, t: Tid, j: Tid)
    requires t in a && (j == t || j !in a)
    requires forall u :: u in b <==> (u in a && u != t) || u == j
    ensures |b| == |a|
  {
    assert b == a - {t} + {j};
  }

  lemma ExitThreads(k: Kernel, j: Tid)
    requires ReadyFacts(k) && j == k.threads[k.chosen].joining && j != 0
    requires forall u :: u in k.ready ==> u in k.threads && k.threads[u].state != FINISHING
    requires j == k.chosen || j !in k.threads || k.threads[j].state == FINISHING
    ensures forall u :: u in Live(Exit(k)) <==> (u in Live(k) && u != k.chosen) || u == j
  {
    var t := k.chosen;
    var d := Uncounted(SetState(Remove(k, t), t, FINISHING));
    var i := ReleaseJoiner(d, t);
    hide Enter, Leave, Requeue, NoDup, Choose;
    var c := Choose(i);
    FinishedShape(k);
    ReleaseShape(d, t);
    ChooseMembers(i);
    ExitShape(k);
    assert c.threads == i.threads && c.threads[j].state == READY;
    assert c.chosen in Exit(k).ready;
    assert forall u :: u in c.threads && u != t && u != j ==> u in k.threads && c.threads[u] == k.threads[u];
    assert t != j ==> t in c.threads && c.threads[t].state == FINISHING;
    DispatchLive(c, t);
    hide Exit, Dispatch, ReleaseJoiner, Remove;
  }

  /** Dispatching leaves alive who is, if the chosen thread is. */
  lemma DispatchLive(c: Kernel, prev: Tid)
    requires c.chosen in c.threads && c.threads[c.chosen].state != FINISHING
    ensures Live(Dispatch(c, prev)) == Live(c)
  {
    assert forall u :: u in Live(Dispatch(c, prev)) <==> u in Live(c);
  }
}
