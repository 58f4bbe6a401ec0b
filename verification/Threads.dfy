/** `Thread`, its scheduler and its wait queues as objects updated in place, the lists built from the
    link of each thread. Every operation is tied to the step of `KernelModel` that it takes. */
module Threads {
  import opened RankOrder
  import opened Lists
  import opened KernelModel
  import opened Words
  import opened KernelAdmin
  import opened KernelRuns
  import opened ThreadLinks

  class ThreadObject {
    const address: Tid
    const link: Link
    var state: State
    var waiting: Queue?
    var joining: ThreadObject?
    var context: Tid

    constructor (address: Tid, state: State, rank: int)
      ensures this.address == address && this.state == state
      ensures fresh(link) && link.owner == address && link.key == rank
      ensures waiting == null && joining == null && context == address
    {
      this.address, this.state, waiting, joining := address, state, null, null;
      link := new Element<Tid>(address, rank);
      context := address;
    }

    ghost function View(): Thread
      reads this`state, this`waiting, this`joining
    {
      Thread(state, if waiting == null then 0 else waiting.address, if joining == null then 0 else joining.address)
    }
  }

  class Queue {
    const address: Qid
    const list: List<Tid>

    constructor (address: Qid)
      ensures this.address == address && fresh(list) && list.Valid() && list.elems == [] && !list.relative
    {
      this.address := address;
      list := new List<Tid>(false);
    }
  }

  class Semaphore {
    const queue: Queue
    var value: Int32

    constructor (queue: Queue, value: Int32)
      ensures this.queue == queue && this.value == value
    {
      this.queue, this.value := queue, value;
    }
  }

  function AddressOf(t: ThreadObject?): Tid {
    if t == null then 0 else t.address
  }

  /** Another thread than `t` can run. */
  predicate SomebodyElse(k: Kernel, t: Tid) {
    exists u :: u in k.ready && u != t
  }

  lemma OthersStay(k: Kernel, t: Tid)
    requires SomebodyElse(k, t)
    ensures KernelModel.Remove(k, t).ready != []
  {
    var u :| u in k.ready && u != t;
    var i :| 0 <= i < |k.ready| && k.ready[i] == u;
    var j := IndexOf(k.ready, t);
    assert j < |k.ready| ==> k.ready[j] == t;
  }

  lemma ChooseEmpty(k: Kernel)
    ensures KernelModel.Choose(k).ready == [] <==> k.ready == []
    ensures KernelModel.ChooseAnother(k).ready == [] <==> k.ready == []
  {
    hide Leave;
  }

  lemma InsertNonEmpty(k: Kernel, t: Tid)
    ensures KernelModel.Insert(k, t).ready != []
  {}

  lemma StateFree(k: Kernel, t: Tid, s: State, u: Tid)
    ensures LinkFree(KernelModel.SetState(k, t, s), u) <==> LinkFree(k, u)
  {}

  /** Where `exit` inserts the joiner. */
  lemma JoinerFree(k: Kernel)
    requires ExitInsertsFree(k)
    ensures var (t, j) := (k.chosen, Get(k, k.chosen).joining);
      j != 0 ==> LinkFree(Uncounted(KernelModel.SetState(KernelModel.Remove(k, t), t, FINISHING)), j)
  {
    hide KernelModel.Remove;
  }

  lemma BothGrow(m: map<Tid, Link>, n: map<Tid, ThreadObject>, t: ThreadObject)
    requires m.Keys == n.Keys && forall a :: a in n ==> m[a] == n[a].link
    ensures var (x, y) := (m[t.address := t.link], n[t.address := t]);
      && x.Keys == y.Keys && (forall a :: a in y ==> x[a] == y[a].link)
      && forall u :: u in y.Values ==> u == t || u in n.Values
  {}

  /** The class attributes of `Thread`, what is on the CPU, and which objects exist. A link names its
      thread by the address. */
  class KernelObject {
    const lists: ThreadLists
    var threads: map<Tid, ThreadObject>
    var threadCount: int
    var cpu: Tid
    ghost var queues: map<Qid, Queue>
    ghost var semaphores: map<Qid, Semaphore>

    ghost function Records(): map<Tid, Thread>
      reads this`threads, threads.Values`state, threads.Values`waiting, threads.Values`joining
    {
      map t | t in threads :: threads[t].View()
    }

    ghost function Values(): map<Qid, Int32>
      reads this`semaphores, semaphores.Values`value
    {
      map q | q in semaphores :: semaphores[q].value
    }

    ghost function Contexts(): map<Tid, Tid>
      reads this`threads, threads.Values`context
    {
      map t | t in threads :: threads[t].context
    }

    ghost function View(): Kernel
      reads this, lists, lists.scheduler, lists.scheduler.base, lists.links.Values, lists.queues.Values,
        threads.Values, semaphores.Values
    {
      var l := lists.View();
      Kernel(Records(), l.rank, l.ready, l.chosen, l.queues, Values(), threadCount, cpu, Contexts())
    }

    ghost predicate Known(t: ThreadObject)
      reads this`threads
    {
      t.address in threads && threads[t.address] == t && t in threads.Values
    }

    ghost predicate Shape()
      reads this`threads, this`queues, this`semaphores, lists
    {
      && (forall a :: a in threads ==> a != 0 && threads[a].address == a && threads[a].link.owner == a)
      && lists.links.Keys == threads.Keys && (forall a :: a in threads ==> lists.links[a] == threads[a].link)
      && (forall q :: q in queues ==> q != 0 && queues[q].address == q)
      && lists.queues.Keys == queues.Keys && (forall q :: q in queues ==> lists.queues[q] == queues[q].list)
      && (forall q :: q in semaphores ==> q in queues && semaphores[q].queue == queues[q])
    }

    ghost predicate Valid()
      reads this`threads, this`queues, this`semaphores,
        lists, lists.scheduler, lists.scheduler.base, lists.links.Values, lists.queues.Values
    {
      Shape() && lists.Valid()
    }

    constructor ()
      ensures Valid() && View() == HALTED
    {
      lists := new ThreadLists();
      threadCount, cpu := 0, 0;
      threads, queues, semaphores := map[], map[], map[];
    }

    // ----- Fields of a thread.

    lemma ShapeOf()
      requires Valid()
      ensures Shape() && lists.Valid()
    {}

    twostate lemma Changed(t: ThreadObject)
      requires old(Shape()) && old(Known(t)) && threads == old(threads)
      requires forall a :: a in threads && threads[a] != t ==> threads[a].View() == old(threads[a].View())
      ensures t.address in old(Records()) && old(Records())[t.address] == old(t.View())
      ensures Records() == old(Records())[t.address := t.View()]
    {
      forall a | a in threads
        ensures Records()[a] == old(Records())[t.address := t.View()][a]
      {
        assert threads[a] == t ==> a == t.address;
      }
    }

    method SetState(t: ThreadObject, s: State)
      requires Valid() && Known(t)
      modifies t`state
      ensures Valid() && t.state == s
      ensures View() == KernelModel.SetState(old(View()), t.address, s)
    {
      hide Records, Values, Contexts, ThreadLists.View, ThreadLists.Valid;
      t.state := s;
      Changed(t);
    }

    method SetWaiting(t: ThreadObject, q: Queue?)
      requires Valid() && Known(t)
      modifies t`waiting
      ensures Valid() && t.waiting == q
      ensures View() == KernelModel.SetWaiting(old(View()), t.address, if q == null then 0 else q.address)
    {
      hide Records, Values, Contexts, ThreadLists.View, ThreadLists.Valid;
      t.waiting := q;
      Changed(t);
    }

    method SetJoining(t: ThreadObject, j: ThreadObject?)
      requires Valid() && Known(t)
      modifies t`joining
      ensures Valid() && t.joining == j
      ensures View() == KernelModel.SetJoining(old(View()), t.address, AddressOf(j))
    {
      hide Records, Values, Contexts, ThreadLists.View, ThreadLists.Valid;
      t.joining := j;
      Changed(t);
    }

    // ----- The scheduling list.

    /** The thread whose link is chosen. */
    function Chosen(): ThreadObject?
      requires Valid()
      reads this`threads, this`queues, this`semaphores,
        lists, lists.scheduler, lists.scheduler.base, lists.links.Values, lists.queues.Values
    {
      ChosenExists();
      if lists.scheduler.chosen == null then null else threads[lists.scheduler.chosen.owner]
    }

    lemma ChosenExists()
      requires Valid()
      ensures lists.scheduler.chosen != null ==>
                && lists.scheduler.chosen.owner in threads && lists.scheduler.chosen.owner in lists.View().ready
      ensures lists.scheduler.chosen == null <==> lists.View().ready == []
      ensures lists.View().chosen == OwnerOf(lists.scheduler.chosen)
    {
      hide List.Valid;
      if lists.scheduler.chosen != null {
        var i :| 0 <= i < |lists.scheduler.base.elems| && lists.scheduler.base.elems[i] == lists.scheduler.chosen;
        assert Owners(lists.scheduler.base.elems)[i] == lists.scheduler.chosen.owner;
      }
    }

    lemma ChosenAddress()
      requires Valid()
      ensures View().chosen == AddressOf(Chosen())
      ensures Chosen() != null ==> Known(Chosen()) && Chosen().address != 0 && Chosen().address in View().ready
      ensures Chosen() == null <==> View().ready == []
    {
      hide ThreadLists.View, ThreadLists.Valid;
      ChosenExists();
    }

    /** What the lists know of a thread. */
    lemma LinkOf(t: ThreadObject)
      requires Valid() && Known(t)
      ensures lists.Known(t.link) && t.link.owner == t.address && t.address in lists.links
      ensures lists.Free(t.link) <==> LinkFree(View(), t.address)
    {
      hide ThreadLists.Valid, ThreadLists.Free;
      assert lists.links[t.address] == t.link;
      lists.FreeIff(t.link);
    }

    /** Insertion by rank; into an empty list it also chooses. */
    method Insert(t: ThreadObject)
      requires Valid() && Known(t) && LinkFree(View(), t.address)
      modifies lists.scheduler, lists.scheduler.base, lists.links.Values, lists.queues.Values
      ensures Valid() && View() == KernelModel.Insert(old(View()), t.address)
    {
      hide ThreadLists.Valid, ThreadLists.View, ThreadLists.Free, Enter, Records, Values, Contexts;
      LinkOf(t);
      ListedLinks();
      lists.Insert(t.link);
    }

    lemma ListedLinks()
      requires Valid()
      ensures forall e :: e in lists.scheduler.base.elems ==> e in lists.links.Values
      ensures forall q, e :: q in queues && e in queues[q].list.elems ==> e in lists.links.Values
    {
      hide SchedulingList.Valid, List.Valid;
    }

    method Remove(t: ThreadObject)
      requires Valid() && Known(t)
      modifies lists.scheduler, lists.scheduler.base, lists.links.Values, lists.queues.Values
      ensures Valid() && View() == KernelModel.Remove(old(View()), t.address)
    {
      hide ThreadLists.Valid, ThreadLists.View, ThreadLists.Free, Leave, Records, Values, Contexts;
      LinkOf(t);
      ListedLinks();
      lists.Remove(t.address);
    }

    /** The chosen thread queues again behind its equals and the head is chosen. */
    method Choose() returns (next: ThreadObject?)
      requires Valid()
      modifies lists.scheduler, lists.scheduler.base, lists.links.Values, lists.queues.Values
      ensures Valid() && View() == KernelModel.Choose(old(View())) && next == Chosen()
      ensures next == null <==> old(View()).ready == []
    {
      hide ThreadLists.Valid, ThreadLists.View, ThreadLists.Free, Requeue, Records, Values, Contexts;
      ListedLinks();
      ChooseEmpty(View());
      var e := lists.Choose();
      next := Chosen();
      ChosenAddress();
    }

    method ChooseAnother() returns (next: ThreadObject?)
      requires Valid()
      modifies lists.scheduler, lists.scheduler.base, lists.links.Values, lists.queues.Values
      ensures Valid() && View() == KernelModel.ChooseAnother(old(View())) && next == Chosen()
      ensures next == null <==> old(View()).ready == []
    {
      hide ThreadLists.Valid, ThreadLists.View, ThreadLists.Free, Enter, Leave, Records, Values, Contexts;
      ListedLinks();
      ChooseEmpty(View());
      var e := lists.ChooseAnother();
      next := Chosen();
      ChosenAddress();
    }

    /** Null when `t` is not in the list. */
    method ChooseThread(t: ThreadObject) returns (next: ThreadObject?)
      requires Valid() && Known(t)
      modifies lists.scheduler, lists.scheduler.base, lists.links.Values, lists.queues.Values
      ensures Valid() && next == if t.address in old(View()).ready then t else null
      ensures next != null ==> next == Chosen()
      ensures View() == if t.address in old(View()).ready then KernelModel.ChooseThread(old(View()), t.address)
                        else old(View())
    {
      hide ThreadLists.Valid, ThreadLists.View, ThreadLists.Free, Requeue, Records, Values, Contexts;
      LinkOf(t);
      ListedLinks();
      var e := lists.ChooseThread(t.address);
      next := if e == null then null else t;
      ChosenAddress();
    }

    // ----- The operations of `Thread`.

    lemma KnownThread(t: ThreadObject)
      requires Known(t)
      ensures t.address in View().threads && Get(View(), t.address) == t.View()
    {
      hide ThreadLists.View, Values, Contexts;
    }

    /** Two existing threads at one address are one. */
    lemma KnownAreOne(t: ThreadObject)
      requires Valid() && Known(t)
      ensures forall u :: Known(u) && u.address == t.address ==> u == t
    {
      hide ThreadLists.Valid;
    }

    /** `next` gets the CPU. */
    method Dispatch(prev: ThreadObject?, next: ThreadObject?)
      requires Valid() && next == Chosen() && (prev != next ==> prev != null && next != null && Known(prev))
      modifies threads.Values`state, threads.Values`context, this`cpu
      ensures Valid() && View() == KernelModel.Dispatch(old(View()), AddressOf(prev))
    {
      hide View, Valid, KernelModel.SetState, KernelModel.Switch;
      ChosenAddress();
      if prev != next {
        KnownThread(prev);
        KnownAreOne(next);
        if prev.state == RUNNING {
          SetState(prev, READY);
        }
        SetState(next, RUNNING);
        SwitchContext(prev, next);
      }
    }

    /** What is on the CPU is saved in `prev` and what `next` has saved goes on. */
    method SwitchContext(prev: ThreadObject, next: ThreadObject)
      requires Valid() && Known(prev) && Known(next)
      modifies this`cpu, prev`context, next`context
      ensures Valid() && View() == KernelModel.Switch(old(View()), prev.address, next.address)
    {
      hide Valid, View, KernelModel.Save, KernelModel.Load;
      SaveContext(prev);
      LoadContext(next);
    }

    method SaveContext(t: ThreadObject)
      requires Valid() && Known(t)
      modifies t`context
      ensures Valid() && View() == KernelModel.Save(old(View()), t.address)
    {
      hide Records, Values, Contexts, ThreadLists.View, ThreadLists.Valid, Valid;
      ShapeOf();
      t.context := cpu;
      Stored(t);
    }

    /** `t` gets the CPU; also the last step of `Thread::init`. */
    method LoadContext(t: ThreadObject)
      requires Valid() && Known(t)
      modifies this`cpu, t`context
      ensures Valid() && View() == KernelModel.Load(old(View()), t.address)
    {
      hide Records, Values, Contexts, ThreadLists.View, ThreadLists.Valid, Valid;
      ShapeOf();
      cpu := t.context;
      t.context := 0;
      Stored(t);
    }

    twostate lemma Stored(t: ThreadObject)
      requires old(Shape()) && old(Known(t)) && threads == old(threads)
      requires forall a :: a in threads && threads[a] != t ==> threads[a].context == old(threads[a].context)
      ensures Context(old(View()), t.address) == old(t.context)
      ensures Contexts() == old(Contexts())[t.address := t.context]
    {
      hide ThreadLists.View, Records, Values;
      forall a | a in threads
        ensures Contexts()[a] == old(Contexts())[t.address := t.context][a]
      {
        assert threads[a] == t ==> a == t.address;
      }
    }

    method Reschedule()
      requires Valid()
      modifies lists.scheduler, lists.scheduler.base, lists.links.Values, lists.queues.Values, this`cpu,
        threads.Values`state, threads.Values`context
      ensures Valid() && View() == KernelModel.Reschedule(old(View()))
    {
      hide View, Valid, KernelModel.Choose, KernelModel.Dispatch;
      ChosenAddress();
      var prev := Chosen();
      var next := Choose();
      Dispatch(prev, next);
    }

    /** The part all constructors share; `t` has its initial state and rank. */
    method CommonConstructor(t: ThreadObject)
      requires Valid() && t.address != 0 && t.address !in threads && t.link.owner == t.address
      requires t.waiting == null && t.joining == null && t.context == t.address
      modifies this`threads, this`threadCount, this`cpu, lists, t.link,
        lists.scheduler, lists.scheduler.base, lists.links.Values, lists.queues.Values,
        threads.Values`state, threads.Values`context, t`state, t`context
      ensures Valid() && threads == old(threads)[t.address := t]
      ensures View() == KernelModel.Create(old(View()), t.address, old(t.state), old(t.link.key))
    {
      hide View, Valid, KernelModel.Insert, KernelModel.Remove, KernelModel.Reschedule;
      Register(t);
      assert threads[t.address] == t;
      Admit(t);
    }

    method Admit(t: ThreadObject)
      requires Valid() && Known(t) && LinkFree(View(), t.address)
      modifies lists.scheduler, lists.scheduler.base, lists.links.Values, lists.queues.Values, this`cpu,
        threads.Values`state, threads.Values`context
      ensures Valid()
      ensures var k := KernelModel.Insert(old(View()), t.address);
        View() == KernelModel.Reschedule(
                    if old(t.state) != READY && old(t.state) != RUNNING then KernelModel.Remove(k, t.address) else k)
    {
      hide View, Valid, LinkFree, KernelModel.Insert, KernelModel.Remove, KernelModel.Reschedule;
      Insert(t);
      if t.state != READY && t.state != RUNNING {
        Remove(t);
      }
      Reschedule();
    }

    method Register(t: ThreadObject)
      requires Valid() && t.address != 0 && t.address !in threads && t.link.owner == t.address
      requires t.waiting == null && t.joining == null && t.context == t.address
      modifies this`threads, this`threadCount, lists
      ensures Valid() && threads == old(threads)[t.address := t] && LinkFree(View(), t.address)
      ensures forall u :: u in threads.Values ==> u == t || u in old(threads.Values)
      ensures lists.links == old(lists.links)[t.address := t.link] && lists.queues == old(lists.queues)
      ensures View() == NewThread(old(View()), t.address, t.state, t.link.key)
    {
      hide View, Records, Values, Contexts, ThreadLists.View, ThreadLists.Valid, LinkFree, Shape;
      NotLinked(t);
      lists.Adopt(t.link);
      threadCount := threadCount + 1;
      threads := threads[t.address := t];
      Enlarged(t);
      Registered(t);
      PartFree(t.address);
    }

    lemma NotLinked(t: ThreadObject)
      requires Shape() && t.address !in threads
      ensures t.address !in lists.links
    {}

    twostate lemma Enlarged(t: ThreadObject)
      requires old(Shape()) && t.address != 0 && t.address !in old(threads) && t.link.owner == t.address
      requires threads == old(threads)[t.address := t] && lists.links == old(lists.links)[t.address := t.link]
      requires queues == old(queues) && semaphores == old(semaphores) && lists.queues == old(lists.queues)
      ensures Shape() && forall u :: u in threads.Values ==> u == t || u in old(threads.Values)
    {
      BothGrow(old(lists.links), old(threads), t);
    }

    lemma PartFree(t: Tid)
      ensures LinkFree(lists.View(), t) <==> LinkFree(View(), t)
    {
      hide ThreadLists.View;
    }

    twostate lemma Registered(t: ThreadObject)
      requires threads == old(threads)[t.address := t] && threadCount == old(threadCount) + 1
      requires t.waiting == null && t.joining == null && t.context == t.address
      requires queues == old(queues) && semaphores == old(semaphores) && cpu == old(cpu)
      requires forall a :: a in old(threads) ==> threads[a].View() == old(threads[a].View()) || a == t.address
      requires forall a :: a in old(threads) ==> threads[a].context == old(threads[a].context) || a == t.address
      requires forall q :: q in semaphores ==> semaphores[q].value == old(semaphores[q].value)
      requires lists.View() == old(lists.View()).(rank := old(lists.View()).rank[t.address := t.link.key])
      ensures View() == NewThread(old(View()), t.address, t.state, t.link.key)
    {
      hide Records, Values, Contexts, ThreadLists.View, ThreadObject.View;
      Grown(t);
      GrownContexts(t);
      SameValues();
      FreshView(t);
    }

    lemma FreshView(t: ThreadObject)
      requires t.waiting == null && t.joining == null
      ensures t.View() == Thread(t.state, 0, 0)
    {}

    twostate lemma SameValues()
      requires semaphores == old(semaphores)
      requires forall q :: q in semaphores ==> semaphores[q].value == old(semaphores[q].value)
      ensures Values() == old(Values())
    {}

    twostate lemma Grown(t: ThreadObject)
      requires threads == old(threads)[t.address := t]
      requires forall a :: a in old(threads) ==> threads[a].View() == old(threads[a].View()) || a == t.address
      ensures Records() == old(Records())[t.address := t.View()]
    {}

    twostate lemma GrownContexts(t: ThreadObject)
      requires threads == old(threads)[t.address := t]
      requires forall a :: a in old(threads) ==> threads[a].context == old(threads[a].context) || a == t.address
      ensures Contexts() == old(Contexts())[t.address := t.context]
    {
      hide ThreadObject.View;
    }

    /** The thread's link is in no wait queue. */
    method SetPriority(t: ThreadObject, p: int)
      requires Valid() && Known(t) && LinkFree(KernelModel.Remove(View(), t.address), t.address)
      modifies lists.scheduler, lists.scheduler.base, lists.links.Values, lists.queues.Values, this`cpu,
        threads.Values`state, threads.Values`context
      ensures Valid() && View() == KernelModel.SetPriority(old(View()), t.address, p)
    {
      hide View, Valid, KernelModel.Insert, KernelModel.Remove, KernelModel.Reschedule;
      LinkAmong(t);
      Remove(t);
      SetRank(t, p);
      Insert(t);
      Reschedule();
    }

    lemma LinkAmong(t: ThreadObject)
      requires Valid() && Known(t)
      ensures t.link in lists.links.Values
    {
      hide ThreadLists.Valid;
      assert lists.links[t.address] == t.link;
    }

    method SetRank(t: ThreadObject, p: int)
      requires Valid() && Known(t) && LinkFree(View(), t.address)
      modifies t.link`key
      ensures Valid() && View() == old(View()).(rank := old(View()).rank[t.address := p])
    {
      hide ThreadLists.Valid, ThreadLists.View, ThreadLists.Free, Records, Values, Contexts;
      LinkOf(t);
      lists.SetRank(t.link, p);
    }

    method Join(t: ThreadObject)
      requires Valid() && Known(t) && Chosen() != null
      requires t.state != FINISHING ==> SomebodyElse(View(), Chosen().address)
      modifies lists.scheduler, lists.scheduler.base, lists.links.Values, lists.queues.Values, this`cpu,
        threads.Values`state, threads.Values`context, t`joining
      ensures Valid() && View() == KernelModel.Join(old(View()), t.address)
    {
      hide View, Valid, KernelModel.Suspend;
      KnownThread(t);
      ChosenAddress();
      if t.state != FINISHING {
        var caller := Chosen();
        SetJoining(t, caller);
        ChosenAddress();
        Suspend(caller);
      }
    }

    method Pass(t: ThreadObject)
      requires Valid() && Known(t)
      modifies lists.scheduler, lists.scheduler.base, lists.links.Values, lists.queues.Values, this`cpu,
        threads.Values`state, threads.Values`context
      ensures Valid() && View() == KernelModel.Pass(old(View()), t.address)
    {
      hide View, Valid, KernelModel.ChooseThread, KernelModel.Dispatch;
      ChosenAddress();
      var prev := Chosen();
      var next := ChooseThread(t);
      if next != null {
        Dispatch(prev, next);
      }
    }

    method Suspend(t: ThreadObject)
      requires Valid() && Known(t) && SomebodyElse(View(), t.address)
      modifies lists.scheduler, lists.scheduler.base, lists.links.Values, lists.queues.Values, this`cpu,
        threads.Values`state, threads.Values`context
      ensures Valid() && View() == KernelModel.Suspend(old(View()), t.address)
    {
      hide View, Valid, KernelModel.Remove, KernelModel.SetState, KernelModel.Dispatch;
      ChosenAddress();
      var prev := Chosen();
      Block(t, SUSPENDED);
      ChosenAddress();
      Dispatch(prev, Chosen());
    }

    /** The link of a suspended thread is in no list. */
    method Resume(t: ThreadObject)
      requires Valid() && Known(t) && (t.state == SUSPENDED ==> LinkFree(View(), t.address))
      modifies lists.scheduler, lists.scheduler.base, lists.links.Values, lists.queues.Values, this`cpu,
        threads.Values`state, threads.Values`context
      ensures Valid() && View() == KernelModel.Resume(old(View()), t.address)
    {
      hide View, Valid, KernelModel.Insert, KernelModel.Reschedule;
      KnownThread(t);
      if t.state == SUSPENDED {
        SetState(t, READY);
        Insert(t);
      }
      Reschedule();
    }

    method Yield()
      requires Valid()
      modifies lists.scheduler, lists.scheduler.base, lists.links.Values, lists.queues.Values, this`cpu,
        threads.Values`state, threads.Values`context
      ensures Valid() && View() == KernelModel.Yield(old(View()))
    {
      hide View, Valid, KernelModel.ChooseAnother, KernelModel.Dispatch;
      ChosenAddress();
      var prev := Chosen();
      var next := ChooseAnother();
      Dispatch(prev, next);
    }

    /** The link of the joiner, if there is one, is in no list. */
    method Exit()
      requires Valid() && Chosen() != null && SomebodyElse(View(), Chosen().address) && ExitInsertsFree(View())
      requires Chosen().joining != null ==> Known(Chosen().joining)
      modifies lists.scheduler, lists.scheduler.base, lists.links.Values, lists.queues.Values, this`threadCount,
        this`cpu, threads.Values`state, threads.Values`context, threads.Values`joining
      ensures Valid() && View() == KernelModel.Exit(old(View()))
    {
      hide View, Valid, KernelModel.Choose, KernelModel.Remove, KernelModel.Dispatch, ReleaseJoiner, ExitInsertsFree,
        LinkFree, SomebodyElse;
      ChosenAddress();
      var thr := Chosen();
      KnownThread(thr);
      AddressNonZero(thr);
      JoinerFree(View());
      Block(thr, FINISHING);
      Discount();
      Release(thr);
      Switch(thr);
    }

    /** `thr` hands the CPU over to the thread that comes first. */
    method Switch(thr: ThreadObject)
      requires Valid() && Known(thr) && View().ready != []
      modifies lists.scheduler, lists.scheduler.base, lists.links.Values, lists.queues.Values, this`cpu,
        threads.Values`state, threads.Values`context
      ensures Valid() && View() == KernelModel.Dispatch(KernelModel.Choose(old(View())), thr.address)
    {
      hide View, Valid, KernelModel.Choose, KernelModel.Dispatch;
      var next := Choose();
      Dispatch(thr, next);
    }

    /** The thread leaves the ready list and somebody else is chosen. */
    method Block(thr: ThreadObject, s: State)
      requires Valid() && Known(thr) && SomebodyElse(View(), thr.address)
      modifies lists.scheduler, lists.scheduler.base, lists.links.Values, lists.queues.Values, thr`state
      ensures Valid() && Chosen() != null && View().ready != []
      ensures View() == KernelModel.SetState(KernelModel.Remove(old(View()), thr.address), thr.address, s)
    {
      hide View, Valid, KernelModel.Remove, SomebodyElse;
      OthersStay(View(), thr.address);
      Remove(thr);
      SetState(thr, s);
      ChosenAddress();
    }

    method Discount()
      requires Valid()
      modifies this`threadCount
      ensures Valid() && View() == Uncounted(old(View()))
    {
      hide Records, Values, Contexts, ThreadLists.View, ThreadLists.Valid;
      threadCount := threadCount - 1;
    }

    method Release(thr: ThreadObject)
      requires Valid() && Known(thr) && (thr.joining != null ==> Known(thr.joining))
      requires thr.joining != null ==> LinkFree(View(), thr.joining.address)
      modifies lists.scheduler, lists.scheduler.base, lists.links.Values, lists.queues.Values,
        threads.Values`state, threads.Values`joining
      ensures Valid() && View() == ReleaseJoiner(old(View()), thr.address)
      ensures View().ready != [] || old(View()).ready == []
    {
      hide View, Valid, KernelModel.Insert, LinkFree;
      KnownThread(thr);
      AddressNonZero(thr);
      if thr.joining != null {
        InsertNonEmpty(KernelModel.SetState(View(), thr.joining.address, READY), thr.joining.address);
        StateFree(View(), thr.joining.address, READY, thr.joining.address);
        SetState(thr.joining, READY);
        Insert(thr.joining);
        SetJoining(thr, null);
      }
    }

    lemma AddressNonZero(thr: ThreadObject)
      requires Valid() && Known(thr) && (thr.joining != null ==> Known(thr.joining))
      ensures thr.joining != null ==> thr.joining.address != 0
    {
      hide ThreadLists.Valid;
    }

    // ----- Wait queues.

    ghost predicate KnownQueue(q: Queue)
      reads this`queues
    {
      q.address in queues && queues[q.address] == q
    }

    lemma LineOf(q: Queue)
      requires Valid() && KnownQueue(q)
      ensures lists.KnownQueue(q.address, q.list) && q.list in lists.queues.Values && q.list.Valid()
      ensures QueueOf(View(), q.address) == [] <==> q.list.elems == []
      ensures forall e :: e in q.list.elems ==> e in lists.links.Values
    {
      hide List.Valid, SchedulingList.Valid;
      lists.LineIs(q.address, q.list);
    }

    lemma ReadyOnly(t: ThreadObject)
      requires Valid() && Known(t) && t.address in View().ready
      ensures LinkFree(KernelModel.Remove(View(), t.address), t.address)
    {
      hide ThreadLists.Valid, ThreadLists.View, Leave;
      lists.ReadyOnly(t.address);
    }

    method Sleep(q: Queue)
      requires Valid() && KnownQueue(q) && Chosen() != null && SomebodyElse(View(), Chosen().address)
      modifies lists.scheduler, lists.scheduler.base, lists.links.Values, lists.queues.Values, this`cpu,
        threads.Values`state, threads.Values`context, threads.Values`waiting
      ensures Valid() && View() == KernelModel.Sleep(old(View()), q.address)
    {
      hide View, Valid, KernelModel.Remove, KernelModel.SetWaiting, KernelModel.Dispatch, Enter, LinkFree;
      ChosenAddress();
      LineOf(q);
      var thr := Chosen();
      ReadyOnly(thr);
      StateFree(KernelModel.Remove(View(), thr.address), thr.address, WAITING, thr.address);
      Block(thr, WAITING);
      LineUp(thr, q);
      SetWaiting(thr, q);
      ChosenAddress();
      Dispatch(thr, Chosen());
    }

    method LineUp(thr: ThreadObject, q: Queue)
      requires Valid() && Known(thr) && KnownQueue(q) && LinkFree(View(), thr.address)
      modifies q.list, lists.links.Values
      ensures Valid()
      ensures var k := old(View()); View() == SetQueue(k, q.address, Enter(QueueOf(k, q.address), thr.address, k.rank))
    {
      hide ThreadLists.Valid, ThreadLists.View, ThreadLists.Free, List.Valid, Enter, Records, Values, Contexts;
      LinkOf(thr);
      LinkAmong(thr);
      LineOf(q);
      lists.LineUp(q.address, q.list, thr.link);
    }

    /** The head of the queue, whose link is in no list any more. */
    method TakeNext(q: Queue) returns (t: ThreadObject)
      requires Valid() && KnownQueue(q) && QueueOf(View(), q.address) != []
      modifies q.list, lists.links.Values
      ensures Valid() && Known(t) && t.address == QueueOf(old(View()), q.address)[0] && LinkFree(View(), t.address)
      ensures View() == SetQueue(old(View()), q.address, QueueOf(old(View()), q.address)[1..])
    {
      hide ThreadLists.Valid, ThreadLists.View, ThreadLists.Free, List.Valid, LinkFree, Records, Values, Contexts;
      LineOf(q);
      var e := lists.Next(q.address, q.list);
      t := threads[e.owner];
      LinkOf(t);
    }

    method WakeOne(q: Queue)
      requires Valid() && KnownQueue(q) && QueueOf(View(), q.address) != []
      modifies lists.scheduler, lists.scheduler.base, lists.links.Values, lists.queues.Values,
        threads.Values`state, threads.Values`waiting
      ensures Valid() && View() == KernelModel.WakeOne(old(View()), q.address)
    {
      hide View, Valid, KernelModel.Insert;
      LineOf(q);
      var t := TakeNext(q);
      SetState(t, READY);
      SetWaiting(t, null);
      Insert(t);
    }

    method Nobody(q: Queue) returns (empty: bool)
      requires Valid() && KnownQueue(q)
      ensures empty <==> QueueOf(View(), q.address) == []
    {
      hide View, Valid, List.Valid;
      LineOf(q);
      empty := q.list.Empty();
    }

    method Wakeup(q: Queue)
      requires Valid() && KnownQueue(q)
      modifies lists.scheduler, lists.scheduler.base, lists.links.Values, lists.queues.Values, this`cpu,
        threads.Values`state, threads.Values`context, threads.Values`waiting
      ensures Valid() && View() == KernelModel.Wakeup(old(View()), q.address)
    {
      hide View, Valid, KernelModel.WakeOne, KernelModel.Reschedule;
      var empty := Nobody(q);
      if !empty {
        WakeOne(q);
      }
      Reschedule();
    }

    method WakeupAll(q: Queue)
      requires Valid() && KnownQueue(q)
      modifies lists.scheduler, lists.scheduler.base, lists.links.Values, lists.queues.Values, this`cpu,
        threads.Values`state, threads.Values`context, threads.Values`waiting
      ensures Valid() && View() == KernelModel.WakeupAll(old(View()), q.address)
    {
      hide View, Valid, KernelModel.Reschedule, WakeEach;
      EmptyQueue(q);
      Reschedule();
    }

    /** The loop of `wakeup_all`. */
    method EmptyQueue(q: Queue)
      requires Valid() && KnownQueue(q)
      modifies lists.scheduler, lists.scheduler.base, lists.links.Values, lists.queues.Values,
        threads.Values`state, threads.Values`waiting
      ensures Valid() && View() == WakeEach(old(View()), q.address)
    {
      hide View, Valid, KernelModel.WakeOne, WakeEach, QueueOf;
      var empty := Nobody(q);
      while !empty
        invariant Valid() && (empty <==> QueueOf(View(), q.address) == [])
        invariant WakeEach(View(), q.address) == WakeEach(old(View()), q.address)
        decreases |QueueOf(View(), q.address)|
      {
        empty := WakeAnother(q);
      }
      NoneToWake(View(), q.address);
    }

    method WakeAnother(q: Queue) returns (empty: bool)
      requires Valid() && KnownQueue(q) && QueueOf(View(), q.address) != []
      modifies lists.scheduler, lists.scheduler.base, lists.links.Values, lists.queues.Values,
        threads.Values`state, threads.Values`waiting
      ensures Valid() && (empty <==> QueueOf(View(), q.address) == [])
      ensures WakeEach(View(), q.address) == WakeEach(old(View()), q.address)
      ensures |QueueOf(View(), q.address)| < |QueueOf(old(View()), q.address)|
    {
      hide View, Valid, KernelModel.WakeOne, WakeEach, QueueOf;
      Shorter(View(), q.address);
      WakeOne(q);
      empty := Nobody(q);
    }

    // ----- Deleting a thread.

    /** The destructor; a running thread exits instead and keeps its memory. */
    method Destroy(t: ThreadObject, ghost idle: Tid)
      requires Valid() && Known(t) && Inv(View(), idle) && View().chosen in View().threads
      requires DestroyOk(View(), idle, t.address)
      requires t.state == RUNNING && t.joining != null ==> Known(t.joining)
      requires t.waiting != null ==> KnownQueue(t.waiting)
      modifies this, lists, lists.scheduler, lists.scheduler.base, lists.links.Values, lists.queues.Values,
        threads.Values`state, threads.Values`context, threads.Values`joining
      ensures Valid() && View() == KernelModel.Destroy(old(View()), t.address)
    {
      hide View, Valid, Inv, DestroyOk, KernelModel.Remove, KernelModel.Exit, KernelModel.Destroy, KernelModel.Erase,
        ExitInsertsFree, LinkFree, SomebodyElse;
      KnownThread(t);
      DestroyIff(View(), idle, t.address);
      DestroyLinks(View(), idle, t.address);
      DestroyShape(t, idle);
      if t.state == RUNNING {
        Exit();
        return;
      }
      Unblock(t);
      Delete(t, idle);
    }

    method Delete(t: ThreadObject, ghost idle: Tid)
      requires Valid() && Known(t)
      requires Inv(KernelModel.Erase(KernelModel.Remove(View(), t.address), t.address), idle)
      modifies this`threads, lists, lists.scheduler, lists.scheduler.base, lists.links.Values, lists.queues.Values
      ensures Valid()
      ensures View() == KernelModel.Erase(KernelModel.Remove(old(View()), t.address), t.address)
    {
      hide View, Valid, Inv, KernelModel.Remove, KernelModel.Erase, LinkFree;
      Remove(t);
      ErasedNowhere(View(), t.address, idle);
      Erase(t);
    }

    /** The thread is put where the scheduler can find it, and no longer counts. */
    method Unblock(t: ThreadObject)
      requires Valid() && Known(t) && t.state != RUNNING && Get(View(), t.address) == t.View()
      requires DestroyInsertsFree(View(), t.address)
      requires t.state == WAITING ==> t.waiting != null && KnownQueue(t.waiting)
      modifies lists.scheduler, lists.scheduler.base, lists.links.Values, lists.queues.Values, this`threadCount
      ensures Valid()
      ensures KernelModel.Destroy(old(View()), t.address) ==
              KernelModel.Erase(KernelModel.Remove(View(), t.address), t.address)
    {
      hide View, Valid, KernelModel.Remove, KernelModel.Insert, KernelModel.Erase, KernelModel.Exit, Leave,
        SetQueue, Uncounted, LinkFree;
      match t.state {
        case BEGINNING =>
          Insert(t);
          Discount();
        case READY =>
          Discount();
        case SUSPENDED =>
          Insert(t);
          Discount();
        case WAITING =>
          Quit(t.waiting, t);
          Insert(t);
          Discount();
        case FINISHING =>
      }
    }

    method Quit(q: Queue, t: ThreadObject)
      requires Valid() && Known(t) && KnownQueue(q)
      modifies lists.links.Values, lists.queues.Values
      ensures Valid() && View() == SetQueue(old(View()), q.address, Leave(QueueOf(old(View()), q.address), t.address))
    {
      hide ThreadLists.Valid, ThreadLists.View, ThreadLists.Free, List.Valid, Leave, Records, Values, Contexts;
      LinkOf(t);
      LineOf(q);
      lists.Quit(q.address, q.list, t.address);
    }

    lemma DestroyShape(t: ThreadObject, idle: Tid)
      requires Valid() && Known(t) && Inv(View(), idle) && View().chosen in View().threads
      requires DestroyOk(View(), idle, t.address)
      ensures Get(View(), t.address) == t.View()
      ensures t.state == RUNNING ==> t == Chosen() && SomebodyElse(View(), t.address)
      ensures t.state == RUNNING ==> KernelModel.Destroy(View(), t.address) == KernelModel.Exit(View())
      ensures t.state == WAITING ==> t.waiting != null
    {
      hide View, Valid, SavedOk, Live, SortedBy, NoDup, KernelModel.Exit;
      KnownThread(t);
      OneList(View(), idle, t.address);
      assert Placed(View(), t.address);
      ChosenAddress();
      KnownAreOne(t);
      if t.state == RUNNING {
        assert idle in View().ready;
      } else if t.state == WAITING {
        assert QueueOk(View(), Get(View(), t.address).waiting);
      }
    }

    method Erase(t: ThreadObject)
      requires Valid() && Known(t) && LinkFree(View(), t.address)
      modifies this`threads, lists
      ensures Valid() && View() == KernelModel.Erase(old(View()), t.address)
    {
      hide View, Records, Values, Contexts, ThreadLists.View, ThreadLists.Valid, ThreadLists.Free, LinkFree, Shape;
      LinkOf(t);
      PartFree(t.address);
      lists.Forget(t.link);
      threads := threads - {t.address};
      Reduced(t);
      Unregistered(t);
    }

    twostate lemma Reduced(t: ThreadObject)
      requires old(Shape())
      requires threads == old(threads) - {t.address} && lists.links == old(lists.links) - {t.address}
      requires queues == old(queues) && semaphores == old(semaphores) && lists.queues == old(lists.queues)
      ensures Shape()
    {}

    twostate lemma Unregistered(t: ThreadObject)
      requires threads == old(threads) - {t.address} && threadCount == old(threadCount)
      requires queues == old(queues) && semaphores == old(semaphores) && cpu == old(cpu)
      requires forall a :: a in threads ==> threads[a].View() == old(threads[a].View())
      requires forall a :: a in threads ==> threads[a].context == old(threads[a].context)
      requires forall q :: q in semaphores ==> semaphores[q].value == old(semaphores[q].value)
      requires lists.View() == old(lists.View()).(rank := old(lists.View()).rank - {t.address})
      ensures View() == KernelModel.Erase(old(View()), t.address)
    {
      hide Values, ThreadLists.View, ThreadObject.View;
      SameValues();
      assert Records() == old(Records()) - {t.address} && Contexts() == old(Contexts()) - {t.address};
    }

    // ----- Synchronizers.

    method NewQueue(q: Queue)
      requires Valid() && q.address != 0 && q.address !in queues
      requires q.list.Valid() && q.list.elems == [] && !q.list.relative
      requires q.list != lists.scheduler.base && q.list !in lists.queues.Values
      modifies this`queues, lists
      ensures Valid() && queues == old(queues)[q.address := q]
      ensures View() == CreateQueue(old(View()), q.address)
    {
      hide Records, Values, Contexts, ThreadLists.View, ThreadLists.Valid, List.Valid, Shape;
      NotQueued(q.address);
      lists.AddQueue(q.address, q.list);
      queues := queues[q.address := q];
      Widened(q);
    }

    lemma NotQueued(q: Qid)
      requires Shape() && q !in queues
      ensures q !in lists.queues
    {}

    twostate lemma Widened(q: Queue)
      requires old(Shape()) && q.address != 0 && q.address !in old(queues)
      requires queues == old(queues)[q.address := q] && lists.queues == old(lists.queues)[q.address := q.list]
      requires threads == old(threads) && lists.links == old(lists.links) && semaphores == old(semaphores)
      ensures Shape()
    {}

    method NewSemaphore(s: Semaphore)
      requires Valid() && s.queue.address != 0 && s.queue.address !in queues
      requires s.queue.list.Valid() && s.queue.list.elems == [] && !s.queue.list.relative
      requires s.queue.list != lists.scheduler.base && s.queue.list !in lists.queues.Values
      modifies this`queues, this`semaphores, lists
      ensures Valid() && queues == old(queues)[s.queue.address := s.queue]
      ensures semaphores == old(semaphores)[s.queue.address := s]
      ensures View() == CreateSemaphore(old(View()), s.queue.address, s.value)
    {
      hide View, Valid;
      NewQueue(s.queue);
      Attach(s);
    }

    method Attach(s: Semaphore)
      requires Valid() && KnownQueue(s.queue)
      modifies this`semaphores
      ensures Valid() && semaphores == old(semaphores)[s.queue.address := s]
      ensures View() == KernelModel.SetValue(old(View()), s.queue.address, s.value)
    {
      hide Records, Contexts, ThreadLists.View, ThreadLists.Valid, Shape;
      semaphores := semaphores[s.queue.address := s];
      Attached(s);
      assert Values() == old(Values())[s.queue.address := s.value];
    }

    twostate lemma Attached(s: Semaphore)
      requires old(Shape()) && KnownQueue(s.queue) && semaphores == old(semaphores)[s.queue.address := s]
      requires threads == old(threads) && queues == old(queues)
      requires lists.links == old(lists.links) && lists.queues == old(lists.queues)
      ensures Shape()
    {}

    /** The destructor shared by all synchronizers wakes everybody up. */
    method DropQueue(q: Queue)
      requires Valid() && KnownQueue(q)
      modifies this`queues, this`semaphores, lists, this`cpu,
        lists.scheduler, lists.scheduler.base, lists.links.Values, lists.queues.Values,
        threads.Values`state, threads.Values`context, threads.Values`waiting
      ensures Valid() && View() == DestroyQueue(old(View()), q.address)
    {
      hide View, Valid, KernelModel.WakeupAll;
      WakeupAll(q);
      Detach(q);
    }

    method Detach(q: Queue)
      requires Valid() && KnownQueue(q)
      modifies this`queues, this`semaphores, lists
      ensures Valid()
      ensures var k := old(View()); View() == k.(queues := k.queues - {q.address}, value := k.value - {q.address})
    {
      hide View, Records, Contexts, Values, ThreadLists.View, ThreadLists.Valid, Shape;
      lists.DropQueue(q.address);
      queues, semaphores := queues - {q.address}, semaphores - {q.address};
      Narrowed(q);
      Detached(q);
    }

    twostate lemma Detached(q: Queue)
      requires Records() == old(Records()) && Contexts() == old(Contexts())
      requires threadCount == old(threadCount) && cpu == old(cpu) && semaphores == old(semaphores) - {q.address}
      requires forall a :: a in semaphores ==> semaphores[a].value == old(semaphores[a].value)
      requires lists.View() == old(lists.View()).(queues := old(lists.View()).queues - {q.address})
      ensures var k := old(View()); View() == k.(queues := k.queues - {q.address}, value := k.value - {q.address})
    {
      hide Records, Contexts, ThreadLists.View;
      assert Values() == old(Values()) - {q.address};
    }

    twostate lemma Narrowed(q: Queue)
      requires old(Shape()) && queues == old(queues) - {q.address} && semaphores == old(semaphores) - {q.address}
      requires lists.queues == old(lists.queues) - {q.address}
      requires threads == old(threads) && lists.links == old(lists.links)
      ensures Shape()
    {}

    ghost predicate KnownSemaphore(s: Semaphore)
      reads this`queues, this`semaphores
    {
      KnownQueue(s.queue) && s.queue.address in semaphores && semaphores[s.queue.address] == s
    }

    lemma Counter(s: Semaphore)
      requires KnownSemaphore(s)
      ensures Value(View(), s.queue.address) == s.value
    {
      hide ThreadLists.View;
    }

    method SetValue(s: Semaphore, v: Int32)
      requires Valid() && KnownSemaphore(s)
      modifies s`value
      ensures Valid() && s.value == v
      ensures View() == KernelModel.SetValue(old(View()), s.queue.address, v)
    {
      hide Records, Contexts, ThreadLists.View, ThreadLists.Valid;
      s.value := v;
      assert Values() == old(Values())[s.queue.address := v];
    }

    method P(s: Semaphore)
      requires Valid() && KnownSemaphore(s)
      requires s.value < 1 ==> Chosen() != null && SomebodyElse(View(), Chosen().address)
      modifies s`value, lists.scheduler, lists.scheduler.base, lists.links.Values, lists.queues.Values, this`cpu,
        threads.Values`state, threads.Values`context, threads.Values`waiting
      ensures Valid() && View() == KernelModel.P(old(View()), s.queue.address)
    {
      hide View, Valid, KernelModel.Sleep, Value;
      Counter(s);
      ChosenAddress();
      var was := s.value;
      SetValue(s, Wrap(s.value - 1));
      ChosenAddress();
      if was < 1 {
        Sleep(s.queue);
      }
    }

    method V(s: Semaphore)
      requires Valid() && KnownSemaphore(s)
      modifies s`value, lists.scheduler, lists.scheduler.base, lists.links.Values, lists.queues.Values, this`cpu,
        threads.Values`state, threads.Values`context, threads.Values`waiting
      ensures Valid() && View() == KernelModel.V(old(View()), s.queue.address)
    {
      hide View, Valid, KernelModel.SetValue, KernelModel.Wakeup, Value;
      Counter(s);
      var was := s.value;
      SetValue(s, Wrap(s.value + 1));
      if was < 0 {
        Wakeup(s.queue);
      }
    }
  }

  lemma Shorter(k: Kernel, q: Qid)
    requires QueueOf(k, q) != []
    ensures |QueueOf(KernelModel.WakeOne(k, q), q)| < |QueueOf(k, q)|
    ensures WakeEach(KernelModel.WakeOne(k, q), q) == WakeEach(k, q)
  {
    hide KernelModel.Insert;
    InsertQueues();
  }

  lemma NoneToWake(k: Kernel, q: Qid)
    ensures QueueOf(k, q) == [] ==> WakeEach(k, q) == k
  {}

  lemma InsertQueues()
    ensures forall k: Kernel, t: Tid :: KernelModel.Insert(k, t).queues == k.queues
  {
    hide Enter;
  }

  lemma ErasedNowhere(k: Kernel, t: Tid, idle: Tid)
    requires Inv(KernelModel.Erase(k, t), idle)
    ensures LinkFree(k, t)
  {
    var e := KernelModel.Erase(k, t);
    assert forall q :: q in k.queues ==> QueueOk(e, q);
  }
}
