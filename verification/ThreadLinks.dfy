/** The ready list and the wait queues as pointer lists over the one link that each thread has.
    What moves a link keeps it in at most one list, and does to the lists what `KernelModel` says. */
module ThreadLinks {
  import opened RankOrder
  import opened Lists
  import opened KernelModel
  import opened KernelLaws
  import opened KernelSteps
  import opened KernelAdmin
  import opened KernelRuns

  type Link = Element<Tid>

  function Owners(s: seq<Link>): (r: seq<Tid>)
    ensures |r| == |s|
  {
    seq(|s|, i requires 0 <= i < |s| => s[i].owner)
  }

  function OwnerOf(e: Element?<Tid>): Tid {
    if e == null then 0 else e.owner
  }

  lemma OwnersEnter(s: seq<Link>, e: Link, rank: map<Link, int>, ranks: map<Tid, int>)
    requires forall x :: x in s || x == e ==> Lookup(rank, x) == Lookup(ranks, x.owner)
    ensures Owners(Enter<Link>(s, e, rank)) == Enter<Tid>(Owners(s), e.owner, ranks)
  {
    assert RanksOf<Link>(s, rank) == RanksOf<Tid>(Owners(s), ranks);
  }

  lemma EnteredLinks(s: seq<Link>, e: Link, rank: map<Link, int>, r: seq<Link>)
    requires r == Enter<Link>(s, e, rank)
    ensures forall x :: x in r <==> x == e || x in s
  {
    EnterMembers<Link>(s, e, rank);
  }

  lemma OwnersLeave(s: seq<Link>, e: Link)
    requires forall x :: x in s && x.owner == e.owner ==> x == e
    ensures Owners(Leave<Link>(s, e)) == Leave<Tid>(Owners(s), e.owner)
  {
    var k := IndexOf<Link>(s, e);
    forall i | 0 <= i < k
      ensures Owners(s)[i] != e.owner
    {
      assert s[i] in s;
    }
    assert k < |s| ==> Owners(s)[k] == e.owner;
    assert IndexOf<Tid>(Owners(s), e.owner) == k;
  }

  lemma InOwners(s: seq<Link>, e: Link)
    requires forall x :: x in s && x.owner == e.owner ==> x == e
    ensures e in s <==> e.owner in Owners(s)
  {
    if e in s {
      var i :| 0 <= i < |s| && s[i] == e;
      assert Owners(s)[i] == e.owner;
    }
    if e.owner in Owners(s) {
      var i :| 0 <= i < |s| && Owners(s)[i] == e.owner;
      assert s[i] in s;
    }
  }

  /** What a search by object finds and takes out. */
  lemma LeftLinks(s: seq<Link>, e: Link, f: Element?<Tid>, r: seq<Link>)
    requires NoDup(s) && forall x :: x in s && x.owner == e.owner ==> x == e
    requires f == null ==> (forall x :: x in s ==> x.owner != e.owner) && r == s
    requires f != null ==> f in s && f.owner == e.owner && r == Leave<Link>(s, f)
    ensures r == Leave<Link>(s, e) && (f != null ==> f == e) && (f != null <==> e in s)
    ensures forall x :: x in r <==> x in s && x != e
  {
    LeaveMembers<Link>(s, e);
  }

  lemma OwnersRequeue(s: seq<Link>, e: Link, rank: map<Link, int>, ranks: map<Tid, int>)
    requires NoDup(s) && e in s && forall x :: x in s ==> Lookup(rank, x) == Lookup(ranks, x.owner)
    requires forall x :: x in s && x.owner == e.owner ==> x == e
    ensures Owners(Requeue<Link>(s, e, rank)) == Requeue<Tid>(Owners(s), e.owner, ranks)
    ensures Requeue<Link>(s, e, rank) != []
  {
    LeaveMembers<Link>(s, e);
    OwnersLeave(s, e);
    OwnersEnter(Leave<Link>(s, e), e, rank, ranks);
    RequeueMembers<Link>(s, e, rank);
    assert e in Requeue<Link>(s, e, rank);
  }

  lemma OwnersAnother(s: seq<Link>, e: Link, rank: map<Link, int>, ranks: map<Tid, int>)
    requires NoDup(s) && e in s && forall x :: x in s ==> Lookup(rank, x) == Lookup(ranks, x.owner)
    requires forall x :: x in s && x.owner == e.owner ==> x == e
    ensures var others := Leave<Link>(s, e);
      && Owners(others) == Leave<Tid>(Owners(s), e.owner)
      && Owners(Enter<Link>(others, e, rank)) == Enter<Tid>(Leave<Tid>(Owners(s), e.owner), e.owner, ranks)
  {
    LeaveMembers<Link>(s, e);
    OwnersLeave(s, e);
    OwnersEnter(Leave<Link>(s, e), e, rank, ranks);
  }

  lemma RequeuedLinks(s: seq<Link>, e: Link, rank: map<Link, int>, r: seq<Link>)
    requires NoDup(s) && e in s
    requires r == Requeue<Link>(s, e, rank) || r == Enter<Link>(Leave<Link>(s, e), e, rank)
    ensures forall x :: x in r <==> x in s
  {
    LeaveMembers<Link>(s, e);
    EnterMembers<Link>(Leave<Link>(s, e), e, rank);
  }

  lemma FoundLink(s: seq<Link>, e: Link, f: Element?<Tid>)
    requires forall x :: x in s && x.owner == e.owner ==> x == e
    requires f == null ==> forall x :: x in s ==> x.owner != e.owner
    requires f != null ==> f in s && f.owner == e.owner
    ensures (f != null ==> f == e) && (f != null <==> e in s)
  {}

  lemma HeadOwner(s: seq<Link>)
    ensures Head(Owners(s)) == if s == [] then 0 else s[0].owner
  {}

  /** Neither the list nor a link in it has been written to. */
  twostate predicate Still(l: List<Tid>)
    reads l, l.elems
  {
    unchanged(l) && forall x :: x in l.elems ==> unchanged(x)
  }

  twostate lemma ListStays(l: List<Tid>)
    requires old(l.Valid()) && Still(l)
    ensures l.Valid() && l.elems == old(l.elems)
  {
    forall i | 0 <= i < |l.elems|
      ensures unchanged(l.elems[i])
    {
      assert l.elems[i] in l.elems;
    }
  }

  /** The keys behind the head, once it has gone. */
  twostate lemma TailKeys(l: List<Tid>)
    requires !l.relative && old(l.elems) != [] && l.elems == old(l.elems)[1..]
    requires l.Ranks() == old(l.Ranks())[1..] && old(l.elems)[0].key == old(l.elems[0].key)
    ensures forall x :: x in old(l.elems) ==> x.key == old(x.key)
  {
    forall x | x in old(l.elems)
      ensures x.key == old(x.key)
    {
      var i :| 0 <= i < |old(l.elems)| && old(l.elems)[i] == x;
      assert i > 0 ==> l.elems[i - 1] == x && l.Keys()[i - 1] == old(l.Keys())[i];
    }
  }

  lemma RanksAre(l: List<Tid>, keys: map<Link, int>)
    requires !l.relative && forall x :: x in l.elems ==> Lookup(keys, x) == x.key
    ensures l.Ranks() == RanksOf<Link>(l.elems, keys)
  {
    assert forall i :: 0 <= i < |l.elems| ==> l.elems[i] in l.elems;
  }

  /** Where an element is found once another one has gone. */
  lemma GapPlace<T>(s: seq<T>, k: nat, i: nat)
    requires k <= |s| && i < |s| && i != k
    ensures var (r, j) := (if k < |s| then RemoveAt(s, k) else s, if i < k then i else i - 1);
      0 <= j < |r| && r[j] == s[i]
  {}

  lemma KeyIs(l: List<Tid>, j: nat)
    requires !l.relative && j < |l.elems|
    ensures j < |l.Ranks()| && l.Ranks()[j] == l.elems[j].key
  {}

  lemma RankIs(s: seq<Link>, keys: map<Link, int>, i: nat)
    requires i < |s|
    ensures |RanksOf<Link>(s, keys)| == |s| && RanksOf<Link>(s, keys)[i] == Lookup(keys, s[i])
  {}

  /** The keys around an element of `s` that has gone, if there was one. */
  lemma GapKeys(l: List<Tid>, s: seq<Link>, keys: map<Link, int>, k: nat)
    requires !l.relative && k <= |s| && l.elems == (if k < |s| then RemoveAt(s, k) else s)
    requires l.Ranks() == if k < |s| then RemoveAt(RanksOf<Link>(s, keys), k) else RanksOf<Link>(s, keys)
    requires k < |s| ==> s[k].key == Lookup(keys, s[k])
    ensures forall x :: x in s ==> x.key == Lookup(keys, x)
  {
    hide RemoveAt, RanksOf, List.Ranks;
    forall x | x in s
      ensures x.key == Lookup(keys, x)
    {
      var i :| 0 <= i < |s| && s[i] == x;
      RankIs(s, keys, i);
      if i != k {
        GapPlace(s, k, i);
        GapPlace(RanksOf<Link>(s, keys), k, i);
        KeyIs(l, if i < k then i else i - 1);
      }
    }
  }

  /** The keys around an element that has come to `s`. */
  lemma RoomKeys(l: List<Tid>, s: seq<Link>, keys: map<Link, int>, p: nat, e: Link)
    requires !l.relative && p <= |s| && l.elems == InsertAt(s, p, e)
    requires l.Ranks() == InsertAt(RanksOf<Link>(s, keys), p, Lookup(keys, e))
    ensures e.key == Lookup(keys, e) && forall x :: x in s ==> x.key == Lookup(keys, x)
  {
    var ranks := RanksOf<Link>(s, keys);
    assert l.Keys() == InsertAt(ranks, p, Lookup(keys, e)) && l.elems[p] == e && l.Keys()[p] == e.key;
    forall x | x in s
      ensures x.key == Lookup(keys, x)
    {
      var i :| 0 <= i < |s| && s[i] == x;
      assert ranks[i] == Lookup(keys, x);
      var j := if i < p then i else i + 1;
      assert l.elems[j] == x && l.Keys()[j] == ranks[i];
    }
  }

  /** Two lists have nothing in common. */
  ghost predicate OutOf(l: List<Tid>, m: List<Tid>)
    reads l, m
  {
    m != l && forall x :: x in m.elems ==> x !in l.elems
  }

  twostate lemma ReadyListStays(s: SchedulingList<Tid>)
    requires old(s.Valid()) && unchanged(s) && Still(s.base)
    ensures s.Valid() && s.base.elems == old(s.base.elems) && s.chosen == old(s.chosen)
  {
    hide List.Valid;
    ListStays(s.base);
  }

  class ThreadLists {
    const scheduler: SchedulingList<Tid>
    ghost var links: map<Tid, Link>
    ghost var queues: map<Qid, List<Tid>>

    ghost predicate Known(e: Link)
      reads this`links
    {
      e.owner in links && links[e.owner] == e && e in links.Values
    }

    /** The link is in no list. */
    ghost predicate Free(e: Link)
      reads this`queues, scheduler.base, queues.Values
    {
      e !in scheduler.base.elems && forall n :: n in queues ==> e !in queues[n].elems
    }

    /** No link is in two lists. */
    ghost predicate OneList()
      reads this`queues, scheduler.base, queues.Values
    {
      && (forall q, e :: q in queues && e in queues[q].elems ==> e !in scheduler.base.elems)
      && (forall p, q, e :: p in queues && q in queues && p != q && e in queues[p].elems ==> e !in queues[q].elems)
    }

    ghost predicate Shape()
      reads this, scheduler.base, queues.Values
    {
      && (forall t :: t in links ==> links[t].owner == t != 0)
      && (forall e :: e in scheduler.base.elems ==> Known(e))
      && (forall q, e :: q in queues && e in queues[q].elems ==> Known(e))
      && (forall q :: q in queues ==> queues[q] != scheduler.base && !queues[q].relative)
      && (forall p, q :: p in queues && q in queues && p != q ==> queues[p] != queues[q])
    }

    ghost predicate Valid()
      reads this, scheduler, scheduler.base, queues.Values, links.Values
    {
      && Shape() && OneList()
      && (forall e :: e in scheduler.base.elems ==> e in links.Values) && scheduler.Valid()
      && forall q :: q in queues ==> (forall e :: e in queues[q].elems ==> e in links.Values) && queues[q].Valid()
    }

    ghost function Ranks(): map<Tid, int>
      reads this`links, links.Values
    {
      map t | t in links :: links[t].key
    }

    ghost function Keys(): map<Link, int>
      reads this`links, links.Values
    {
      map e: Link | e in links.Values :: e.key
    }

    ghost function Lines(): map<Qid, seq<Tid>>
      reads this`queues, queues.Values
    {
      map q | q in queues :: Owners(queues[q].elems)
    }

    /** The part of the kernel that the lists make up. */
    ghost function View(): Kernel
      reads this, scheduler, scheduler.base, queues.Values, links.Values
    {
      Kernel(map[], Ranks(), Owners(scheduler.base.elems), OwnerOf(scheduler.chosen), Lines(), map[], 0, 0, map[])
    }

    constructor ()
      ensures Valid() && View() == HALTED && links == map[] && queues == map[]
    {
      scheduler := new SchedulingList<Tid>();
      links, queues := map[], map[];
    }

    lemma Facts(e: Link)
      requires Valid() && Known(e)
      ensures scheduler.Valid() && NoDup(scheduler.base.elems) && e.owner != 0
      ensures forall x :: x in scheduler.base.elems || x == e ==>
                && x in links.Values && Lookup(Keys(), x) == x.key == Lookup(Ranks(), x.owner)
                && (x.owner == e.owner ==> x == e)
      ensures scheduler.chosen != null ==> scheduler.chosen.owner != 0
    {}

    twostate lemma KeysStay(s: seq<Link>)
      requires links == old(links) && old(Valid())
      requires forall x :: x in s ==> x.key == Lookup(old(Keys()), x) && x in links.Values
      requires forall x :: x in links.Values && x !in s ==> x.key == old(x.key)
      ensures Ranks() == old(Ranks()) && Keys() == old(Keys())
    {
      RanksStay();
    }

    /** A change of the ready list leaves the queues as they were. */
    twostate lemma QueuesStay()
      requires old(Valid()) && queues == old(queues) && links == old(links)
      requires forall q :: q in queues ==> Still(queues[q])
      ensures Lines() == old(Lines())
      ensures forall q :: q in queues ==> queues[q].Valid()
    {
      hide SchedulingList.Valid, List.Valid;
      forall q | q in queues
        ensures queues[q].Valid() && queues[q].elems == old(queues[q].elems)
      {
        var l: List<Tid> := queues[q];
        assert old(l.Valid());
        ListStays(l);
      }
    }

    twostate lemma RanksStay()
      requires old(Valid()) && links == old(links)
      requires forall e :: e in links.Values ==> e.key == old(e.key)
      ensures Ranks() == old(Ranks()) && Keys() == old(Keys())
    {}

    twostate lemma ReadyStays(e: Link)
      requires old(Valid()) && queues == old(queues) && links == old(links) && Known(e) && scheduler.Valid()
      requires forall q :: q in queues ==> Still(queues[q]) && queues[q].Valid() && e !in queues[q].elems
      requires forall x :: x in scheduler.base.elems ==> x == e || x in old(scheduler.base.elems)
      ensures Valid()
    {
      hide SchedulingList.Valid, List.Valid;
    }

    twostate lemma ReadyShrinks()
      requires old(Valid()) && queues == old(queues) && links == old(links) && scheduler.Valid()
      requires forall q :: q in queues ==> Still(queues[q]) && queues[q].Valid()
      requires forall x :: x in scheduler.base.elems ==> x in old(scheduler.base.elems)
      ensures Valid()
    {
      hide SchedulingList.Valid, List.Valid;
    }

    /** The queues have nothing to do with what the ready list is made of. */
    ghost predicate Elsewhere(l: List<Tid>)
      reads this`queues, scheduler.base, queues.Values, l
    {
      l in queues.Values && l != scheduler.base && forall x :: x in l.elems ==> x !in scheduler.base.elems
    }

    lemma ReadyFacts()
      requires Valid()
      ensures scheduler.Valid() && NoDup(scheduler.base.elems)
      ensures forall x :: x in scheduler.base.elems ==>
                x in links.Values && Lookup(Keys(), x) == x.key == Lookup(Ranks(), x.owner)
      ensures forall x, y :: x in scheduler.base.elems && y in scheduler.base.elems && x.owner == y.owner ==> x == y
      ensures if scheduler.chosen == null then scheduler.base.elems == []
              else scheduler.chosen in scheduler.base.elems && scheduler.chosen.owner != 0
    {}

    lemma QueuesElsewhere()
      requires Valid()
      ensures forall q :: q in queues ==> Elsewhere(queues[q])
    {}

    lemma LinkOf(t: Tid)
      requires Valid() && t in links
      ensures Known(links[t]) && links[t].owner == t
    {}

    /** Insertion by rank; into an empty list it also chooses. */
    method Insert(e: Link)
      requires Valid() && Known(e) && Free(e)
      modifies scheduler, scheduler.base, scheduler.base.elems, e
      ensures Valid() && View() == KernelModel.Insert(old(View()), e.owner)
    {
      hide SchedulingList.Valid, List.Valid, ThreadLists.Valid, Enter, Owners, Lines, Ranks, Keys;
      Facts(e);
      QueuesElsewhere();
      ghost var s, keys := scheduler.base.elems, Keys();
      OwnersEnter(s, e, keys, Ranks());
      scheduler.Insert(e, keys);
      EnteredLinks(s, e, keys, scheduler.base.elems);
      HeadOwner(scheduler.base.elems);
      KeysStay(s + [e]);
      forall q | q in queues
        ensures Still(queues[q]) && e !in queues[q].elems
      {
        var l: List<Tid> := queues[q];
        assert old(Elsewhere(l)) && unchanged(l) && l.elems == old(l.elems);
      }
      QueuesStay();
      ReadyStays(e);
    }

    /** Removal by object, harmless when it is not there. */
    method Remove(t: Tid)
      requires Valid() && t in links
      modifies scheduler, scheduler.base, scheduler.base.elems
      ensures Valid() && View() == KernelModel.Remove(old(View()), t)
    {
      hide SchedulingList.Valid, List.Valid, ThreadLists.Valid, Leave, Owners, Lines, Ranks, Keys;
      ghost var e := links[t];
      LinkOf(t);
      Facts(e);
      QueuesElsewhere();
      ghost var s, c := scheduler.base.elems, scheduler.chosen;
      OwnersLeave(s, e);
      InOwners(s, e);
      var f := scheduler.RemoveObject(t);
      LeftLinks(s, e, f, scheduler.base.elems);
      HeadOwner(scheduler.base.elems);
      KeysStay([]);
      forall q | q in queues
        ensures Still(queues[q])
      {
        var l: List<Tid> := queues[q];
        assert old(Elsewhere(l)) && unchanged(l) && l.elems == old(l.elems);
      }
      QueuesStay();
      ReadyShrinks();
    }

    /** The chosen thread queues again behind its equals and the head is chosen. */
    method Choose() returns (next: Element?<Tid>)
      requires Valid()
      modifies scheduler, scheduler.base, scheduler.base.elems
      ensures Valid() && View() == KernelModel.Choose(old(View())) && next == scheduler.chosen
    {
      hide SchedulingList.Valid, List.Valid, ThreadLists.Valid, Enter, Leave, Requeue, Owners, Lines, Ranks, Keys;
      ReadyFacts();
      QueuesElsewhere();
      ghost var s, c, keys := scheduler.base.elems, scheduler.chosen, Keys();
      if c != null {
        OwnersRequeue(s, c, keys, Ranks());
      }
      next := scheduler.Choose(keys);
      HeadOwner(s);
      HeadOwner(scheduler.base.elems);
      if c != null && scheduler.base.elems != s {
        RequeuedLinks(s, c, keys, scheduler.base.elems);
      }
      KeysStay(s);
      forall q | q in queues
        ensures Still(queues[q])
      {
        var l: List<Tid> := queues[q];
        assert old(Elsewhere(l)) && unchanged(l) && l.elems == old(l.elems);
      }
      QueuesStay();
      ReadyShrinks();
    }

    /** The head of the others is chosen. */
    method ChooseAnother() returns (next: Element?<Tid>)
      requires Valid()
      modifies scheduler, scheduler.base, scheduler.base.elems
      ensures Valid() && View() == KernelModel.ChooseAnother(old(View())) && next == scheduler.chosen
    {
      hide SchedulingList.Valid, List.Valid, ThreadLists.Valid, Enter, Leave, Requeue, Owners, Lines, Ranks, Keys;
      ReadyFacts();
      QueuesElsewhere();
      ghost var s, c, keys := scheduler.base.elems, scheduler.chosen, Keys();
      if |s| > 1 {
        OwnersAnother(s, c, keys, Ranks());
      }
      next := scheduler.ChooseAnother(keys);
      if |s| > 1 {
        HeadOwner(Leave<Link>(s, c));
      }
      if c != null && scheduler.base.elems != s {
        RequeuedLinks(s, c, keys, scheduler.base.elems);
      }
      KeysStay(s);
      forall q | q in queues
        ensures Still(queues[q])
      {
        var l: List<Tid> := queues[q];
        assert old(Elsewhere(l)) && unchanged(l) && l.elems == old(l.elems);
      }
      QueuesStay();
      ReadyShrinks();
    }

    /** Null when `t` is not in the ready list. */
    method ChooseThread(t: Tid) returns (next: Element?<Tid>)
      requires Valid() && t in links
      modifies scheduler, scheduler.base, scheduler.base.elems
      ensures Valid() && (next != null <==> t in old(View()).ready)
      ensures View() == if t in old(View()).ready then KernelModel.ChooseThread(old(View()), t) else old(View())
    {
      hide SchedulingList.Valid, List.Valid, ThreadLists.Valid, Enter, Leave, Requeue, Owners, Lines, Ranks, Keys;
      ghost var e := links[t];
      LinkOf(t);
      Facts(e);
      ReadyFacts();
      QueuesElsewhere();
      ghost var s, c, keys := scheduler.base.elems, scheduler.chosen, Keys();
      InOwners(s, e);
      if c != null {
        OwnersRequeue(s, c, keys, Ranks());
      }
      next := scheduler.ChooseObject(t, keys);
      FoundLink(s, e, next);
      if c != null && scheduler.base.elems != s {
        RequeuedLinks(s, c, keys, scheduler.base.elems);
      }
      KeysStay(s);
      forall q | q in queues
        ensures Still(queues[q])
      {
        var l: List<Tid> := queues[q];
        assert old(Elsewhere(l)) && unchanged(l) && l.elems == old(l.elems);
      }
      QueuesStay();
      ReadyShrinks();
    }

    // ----- Wait queues.

    ghost predicate KnownQueue(q: Qid, l: List<Tid>)
      reads this`queues
    {
      q in queues && queues[q] == l
    }

    lemma QueueFacts(q: Qid, l: List<Tid>)
      requires Valid() && KnownQueue(q, l)
      ensures l.Valid() && !l.relative && NoDup(l.elems) && l != scheduler.base
      ensures forall x :: x in l.elems ==>
                && Known(x) && x in links.Values && Lookup(Keys(), x) == x.key == Lookup(Ranks(), x.owner)
                && x !in scheduler.base.elems
      ensures forall x, y :: x in l.elems && y in l.elems && x.owner == y.owner ==> x == y
      ensures OutOf(l, scheduler.base) && forall p :: p in queues && p != q ==> OutOf(l, queues[p])
    {}

    twostate lemma OtherQueuesStay(l: List<Tid>)
      requires old(Valid()) && queues == old(queues)
      requires forall p :: p in queues && queues[p] != l ==> Still(queues[p])
      ensures forall p :: p in queues && queues[p] != l ==>
                queues[p].Valid() && queues[p].elems == old(queues[p].elems)
    {
      forall p | p in queues && queues[p] != l
        ensures queues[p].Valid() && queues[p].elems == old(queues[p].elems)
      {
        var m: List<Tid> := queues[p];
        assert old(m.Valid());
        ListStays(m);
      }
    }

    /** The queues, of which one has changed. */
    twostate lemma OneLineChanged(l: List<Tid>)
      requires old(Shape()) && queues == old(queues) && l in queues.Values
      requires forall p :: p in queues && queues[p] != l ==> queues[p].elems == old(queues[p].elems)
      ensures forall q :: KnownQueue(q, l) ==> Lines() == old(Lines())[q := Owners(l.elems)]
    {
      hide Owners;
    }

    /** When a link has left one queue, the ready list and the other queues are as they were. */
    twostate lemma QueueShrunk(l: List<Tid>)
      requires old(Valid()) && queues == old(queues) && links == old(links) && l in queues.Values
      requires unchanged(scheduler) && Still(scheduler.base) && l.Valid() && !l.relative
      requires forall p :: p in queues && queues[p] != l ==> Still(queues[p])
      requires forall x :: x in l.elems ==> x in old(l.elems)
      ensures Valid()
      ensures forall q :: KnownQueue(q, l) ==> Lines() == old(Lines())[q := Owners(l.elems)]
    {
      hide List.Valid, SchedulingList.Valid, Lines;
      OtherQueuesStay(l);
      ReadyListStays(scheduler);
      OneLineChanged(l);
    }

    /** The same when a link that was in no list has entered one. */
    twostate lemma QueueGrew(l: List<Tid>)
      requires old(Valid()) && queues == old(queues) && links == old(links) && l in queues.Values
      requires unchanged(scheduler) && Still(scheduler.base) && l.Valid() && !l.relative
      requires forall p :: p in queues && queues[p] != l ==> Still(queues[p])
      requires forall x :: x in l.elems ==> x in old(l.elems) || (Known(x) && old(Free(x)))
      ensures Valid()
      ensures forall q :: KnownQueue(q, l) ==> Lines() == old(Lines())[q := Owners(l.elems)]
    {
      hide List.Valid, SchedulingList.Valid, Lines;
      OtherQueuesStay(l);
      ReadyListStays(scheduler);
      OneLineChanged(l);
    }

    /** The head of the queue, whose link is in no list any more. */
    method Next(ghost q: Qid, l: List<Tid>) returns (e: Link)
      requires Valid() && KnownQueue(q, l) && l.elems != []
      modifies l, l.elems
      ensures Valid() && Known(e) && Free(e)
      ensures QueueOf(old(View()), q) != [] && e.owner == QueueOf(old(View()), q)[0]
      ensures View() == SetQueue(old(View()), q, QueueOf(old(View()), q)[1..])
    {
      hide SchedulingList.Valid, List.Valid, ThreadLists.Valid, Owners, Lines, Ranks, Keys;
      QueueFacts(q, l);
      LineIs(q, l);
      ghost var s := l.elems;
      LinkOut(s);
      var f := l.Remove();
      e := f;
      TailKeys(l);
      KeysStay(s);
      assert Still(scheduler.base) by {
        assert old(OutOf(l, scheduler.base));
      }
      forall p | p in queues && queues[p] != l
        ensures Still(queues[p])
      {
        var m: List<Tid> := queues[p];
        assert old(OutOf(l, m)) && unchanged(m) && m.elems == old(m.elems);
      }
      QueueShrunk(l);
      assert KnownQueue(q, l) && l.elems == s[1..];
    }

    /** A thread leaves the queue wherever it is, and its link is in no list any more. */
    method Quit(ghost q: Qid, l: List<Tid>, t: Tid)
      requires Valid() && KnownQueue(q, l) && t in links
      modifies l, l.elems
      ensures Valid() && View() == SetQueue(old(View()), q, Leave(QueueOf(old(View()), q), t))
    {
      hide SchedulingList.Valid, List.Valid, ThreadLists.Valid, Owners, Lines, Ranks, Keys, Leave;
      ghost var e := links[t];
      LinkOf(t);
      QueueFacts(q, l);
      LineIs(q, l);
      ghost var s, keys := l.elems, Keys();
      RanksAre(l, keys);
      OnlyOwner(s, e);
      OwnersLeave(s, e);
      var f, k := l.RemoveObject(t);
      LeftAt(s, e, k, l.elems);
      GapKeys(l, s, keys, k);
      KeysStay(s);
      assert Still(scheduler.base) by {
        assert old(OutOf(l, scheduler.base));
      }
      forall p | p in queues && queues[p] != l
        ensures Still(queues[p])
      {
        var m: List<Tid> := queues[p];
        assert old(OutOf(l, m)) && unchanged(m) && m.elems == old(m.elems);
      }
      QueueShrunk(l);
      assert KnownQueue(q, l);
    }

    /** A thread whose link is in no list waits behind all that rank no higher. */
    method LineUp(ghost q: Qid, l: List<Tid>, e: Link)
      requires Valid() && KnownQueue(q, l) && Known(e) && Free(e)
      modifies l, l.elems, e
      ensures Valid()
      ensures View() == SetQueue(old(View()), q, Enter(QueueOf(old(View()), q), e.owner, old(View()).rank))
    {
      hide SchedulingList.Valid, List.Valid, ThreadLists.Valid, Owners, Lines, Ranks, Keys, Enter;
      Facts(e);
      QueueFacts(q, l);
      LineIs(q, l);
      ghost var s, keys, ranks := l.elems, Keys(), l.Ranks();
      RanksAre(l, keys);
      OwnersEnter(s, e, keys, Ranks());
      assert e !in l.elems;
      l.Insert(e);
      EnteredAt(s, e, keys, ranks, l.elems);
      EnteredLinks(s, e, keys, l.elems);
      RoomKeys(l, s, keys, Position(ranks, Lookup(keys, e)), e);
      KeysStay(s + [e]);
      assert Still(scheduler.base) by {
        assert old(OutOf(l, scheduler.base));
      }
      forall p | p in queues && queues[p] != l
        ensures Still(queues[p])
      {
        var m: List<Tid> := queues[p];
        assert old(OutOf(l, m)) && unchanged(m) && m.elems == old(m.elems);
      }
      QueueGrew(l);
      assert KnownQueue(q, l);
    }

    /** Whether a link is in a list can be told from the thread. */
    lemma FreeIff(e: Link)
      requires Valid() && Known(e)
      ensures Free(e) <==> LinkFree(View(), e.owner)
    {
      Facts(e);
      InOwners(scheduler.base.elems, e);
      forall q | q in queues
        ensures e in queues[q].elems <==> e.owner in QueueOf(View(), q)
      {
        var l: List<Tid> := queues[q];
        QueueFacts(q, l);
        OnlyOwner(l.elems, e);
        InOwners(l.elems, e);
      }
    }

    /** A thread in the ready list waits nowhere, and is in no list once it has left that one. */
    lemma ReadyOnly(t: Tid)
      requires Valid() && t in View().ready
      ensures t in links && LinkFree(KernelModel.Remove(View(), t), t)
    {
      hide SchedulingList.Valid, List.Valid, Leave;
      var s := scheduler.base.elems;
      var i :| 0 <= i < |s| && Owners(s)[i] == t;
      ReadyFacts();
      OwnersOnce(s);
      LeaveMembers(Owners(s), t);
      forall q | q in queues
        ensures t !in QueueOf(View(), q)
      {
        var l: List<Tid> := queues[q];
        QueueFacts(q, l);
        assert Known(s[i]) && s[i] !in l.elems;
        OnlyOwner(l.elems, s[i]);
        InOwners(l.elems, s[i]);
      }
    }

    /** A new rank for a link in no list. */
    method SetRank(e: Link, p: int)
      requires Valid() && Known(e) && Free(e)
      modifies e`key
      ensures Valid() && View() == old(View()).(rank := old(View()).rank[e.owner := p])
    {
      e.key := p;
      hide Owners, Lines;
      assert Ranks() == old(Ranks())[e.owner := p];
    }

    /** A thread begins to exist: its link is in no list. */
    method Adopt(e: Link)
      requires Valid() && e.owner != 0 && e.owner !in links
      modifies this`links
      ensures Valid() && links == old(links)[e.owner := e] && queues == old(queues) && LinkFree(View(), e.owner)
      ensures View() == old(View()).(rank := old(View()).rank[e.owner := e.key])
    {
      hide Owners, List.Valid, SchedulingList.Valid;
      NotListed(e.owner);
      links := links[e.owner := e];
      assert Ranks() == old(Ranks())[e.owner := e.key];
      assert forall x :: x in old(links).Values ==> x in links.Values by {
        Kept(old(links), e.owner, e);
      }
    }

    /** And ends: its link is in no list any more. */
    method Forget(e: Link)
      requires Valid() && Known(e) && LinkFree(View(), e.owner)
      modifies this`links
      ensures Valid() && links == old(links) - {e.owner}
      ensures View() == old(View()).(rank := old(View()).rank - {e.owner})
    {
      hide Owners, List.Valid, SchedulingList.Valid;
      FreeIff(e);
      Left(links, e);
      links := links - {e.owner};
      assert Ranks() == old(Ranks()) - {e.owner};
    }

    /** A queue begins to exist, empty. */
    method AddQueue(q: Qid, l: List<Tid>)
      requires Valid() && q !in queues && l.Valid() && l.elems == [] && !l.relative
      requires l != scheduler.base && l !in queues.Values
      modifies this`queues
      ensures Valid() && queues == old(queues)[q := l]
      ensures View() == SetQueue(old(View()), q, [])
    {
      hide Owners, List.Valid, SchedulingList.Valid;
      NoOwners();
      queues := queues[q := l];
      assert Lines() == old(Lines())[q := []];
    }

    method DropQueue(q: Qid)
      requires Valid()
      modifies this`queues
      ensures Valid() && queues == old(queues) - {q}
      ensures View() == old(View()).(queues := old(View()).queues - {q})
    {
      hide Owners, List.Valid, SchedulingList.Valid, Ranks, OneList, Shape;
      queues := queues - {q};
      Narrowed(q);
      assert Lines() == old(Lines()) - {q};
    }

    twostate lemma Narrowed(q: Qid)
      requires old(Shape()) && old(OneList()) && queues == old(queues) - {q} && links == old(links)
      requires unchanged(scheduler.base) && forall p :: p in queues ==> unchanged(queues[p])
      ensures Shape() && OneList()
    {}

    /** Only owners of links are in lists. */
    lemma NotListed(t: Tid)
      requires Valid() && t !in links
      ensures LinkFree(View(), t)
    {
      forall i | 0 <= i < |scheduler.base.elems|
        ensures scheduler.base.elems[i].owner != t
      {
        assert scheduler.base.elems[i] in scheduler.base.elems;
      }
      forall q, i | q in queues && 0 <= i < |queues[q].elems|
        ensures queues[q].elems[i].owner != t
      {
        assert queues[q].elems[i] in queues[q].elems;
      }
    }

    lemma LineIs(q: Qid, l: List<Tid>)
      requires KnownQueue(q, l)
      ensures QueueOf(View(), q) == Owners(l.elems)
    {}
  }

  lemma Kept(m: map<Tid, Link>, t: Tid, e: Link)
    requires t !in m
    ensures forall x :: x in m.Values ==> x in m[t := e].Values
  {
    forall x | x in m.Values
      ensures x in m[t := e].Values
    {
      var a :| a in m && m[a] == x;
      assert m[t := e][a] == x;
    }
  }

  lemma Left(m: map<Tid, Link>, e: Link)
    requires e.owner in m && m[e.owner] == e
    ensures forall x :: x in m.Values && x.owner in m && m[x.owner] == x && x != e ==>
              x.owner in m - {e.owner} && (m - {e.owner})[x.owner] == x && x in (m - {e.owner}).Values
  {
    forall x | x in m.Values && x.owner in m && m[x.owner] == x && x != e
      ensures x.owner in m - {e.owner} && (m - {e.owner})[x.owner] == x && x in (m - {e.owner}).Values
    {
      assert x.owner != e.owner;
      assert (m - {e.owner})[x.owner] == x;
    }
  }

  lemma NoOwners()
    ensures Owners([]) == []
  {}

  lemma OwnersOnce(s: seq<Link>)
    requires NoDup(s) && forall x, y :: x in s && y in s && x.owner == y.owner ==> x == y
    ensures NoDup(Owners(s))
  {
    forall i, j | 0 <= i < j < |s|
      ensures Owners(s)[i] != Owners(s)[j]
    {
      assert s[i] in s && s[j] in s && s[i] != s[j];
    }
  }

  lemma OnlyOwner(s: seq<Link>, e: Link)
    requires forall x, y :: x in s && y in s && x.owner == y.owner ==> x == y
    requires e !in s ==> forall x :: x in s ==> x.owner != e.owner
    ensures forall x :: x in s && x.owner == e.owner ==> x == e
  {}

  /** Where a search by object stops, and what is left. */
  lemma LeftAt(s: seq<Link>, e: Link, k: nat, r: seq<Link>)
    requires k <= |s| && (forall i :: 0 <= i < k ==> s[i].owner != e.owner) && (k < |s| ==> s[k] == e)
    requires r == if k < |s| then RemoveAt(s, k) else s
    ensures r == Leave<Link>(s, e) && forall x :: x in r ==> x in s
  {
    assert IndexOf<Link>(s, e) == k;
  }

  lemma EnteredAt(s: seq<Link>, e: Link, keys: map<Link, int>, ranks: seq<int>, r: seq<Link>)
    requires ranks == RanksOf<Link>(s, keys) && r == InsertAt(s, Position(ranks, Lookup(keys, e)), e)
    ensures r == Enter<Link>(s, e, keys)
  {}

  lemma LinkOut(s: seq<Link>)
    requires s != [] && NoDup(s)
    ensures Owners(s)[0] == s[0].owner && Owners(s)[1..] == Owners(s[1..])
    ensures s[0] !in s[1..] && forall x :: x in s[1..] ==> x in s
  {
    forall i | 0 <= i < |s[1..]|
      ensures s[1..][i] == s[i + 1] != s[0]
    {}
  }

  // ----- No operation of the kernel inserts a link that is in a list.

  predicate LinkFree(k: Kernel, t: Tid) {
    t !in k.ready && forall q :: q in k.queues ==> t !in k.queues[q]
  }

  /** Wherever an operation puts a link into a list, the link is in none. */
  ghost predicate InsertsFree(k: Kernel, op: Op)
    requires Exists(k, op)
  {
    match op
    case CreateOp(t, s, r) => LinkFree(NewThread(k, t, s, r), t)
    case DestroyOp(t) => DestroyInsertsFree(k, t)
    case PriorityOp(t, p) => LinkFree(Remove(k, t), t)
    case ResumeOp(t) => k.threads[t].state == SUSPENDED ==> LinkFree(k, t)
    case ExitOp => ExitInsertsFree(k)
    case SleepOp(q) => LinkFree(Remove(k, k.chosen), k.chosen)
    case POp(q) => Value(k, q) < 1 ==> LinkFree(Remove(k, k.chosen), k.chosen)
    case WakeupOp(q) => WakeInsertsFree(k, q)
    case VOp(q) => Value(k, q) < 0 ==> WakeInsertsFree(k, q)
    case WakeupAllOp(q) => forall n: nat :: WakeInsertsFree(WokenTimes(k, q, n), q)
    case DropQueueOp(q) => forall n: nat :: WakeInsertsFree(WokenTimes(k, q, n), q)
    case _ => true
  }

  ghost predicate DestroyInsertsFree(k: Kernel, t: Tid) {
    match Get(k, t).state
    case BEGINNING => LinkFree(k, t)
    case SUSPENDED => LinkFree(k, t)
    case WAITING =>
      var q := Get(k, t).waiting;
      LinkFree(SetQueue(k, q, Leave(QueueOf(k, q), t)), t)
    case RUNNING => ExitInsertsFree(k)
    case _ => true
  }

  ghost predicate ExitInsertsFree(k: Kernel) {
    var j := Get(k, k.chosen).joining;
    j != 0 ==> LinkFree(Remove(k, k.chosen), j)
  }

  ghost predicate WakeInsertsFree(k: Kernel, q: Qid) {
    var s := QueueOf(k, q);
    s != [] ==> LinkFree(SetQueue(k, q, s[1..]), s[0])
  }

  /** After `n` turns of the loop of `wakeup_all`, or as many as there are. */
  function WokenTimes(k: Kernel, q: Qid, n: nat): Kernel
    decreases n
  {
    if n == 0 || QueueOf(k, q) == [] then k else WokenTimes(WakeOne(k, q), q, n - 1)
  }

  lemma BlockedIsFree(k: Kernel, idle: Tid, t: Tid)
    requires Inv(k, idle) && t in k.threads && k.threads[t].state in {BEGINNING, SUSPENDED, FINISHING}
    ensures LinkFree(k, t)
  {
    hide Inv;
    OneList(k, idle, t);
  }

  lemma RemovedIsFree(k: Kernel, idle: Tid, t: Tid)
    requires Inv(k, idle) && t in k.threads && k.threads[t].state != WAITING
    ensures LinkFree(Remove(k, t), t)
  {
    hide Leave;
    OneList(k, idle, t);
    LeaveMembers(k.ready, t);
  }

  lemma WakeIsFree(k: Kernel, idle: Tid, r: Tid, q: Qid)
    requires Mid(k, idle, r) && q in k.queues
    ensures WakeInsertsFree(k, q)
  {
    hide SortedBy, OnCpu, SavedOk, Live;
    if k.queues[q] != [] {
      var t := k.queues[q][0];
      assert QueueOk(k, q) && t in k.queues[q] && Placed(k, t);
      HeadOut(k.queues[q]);
      assert forall p :: p in k.queues && p != q ==> QueueOk(k, p);
    }
  }

  lemma {:induction false} EachWakeIsFree(k: Kernel, idle: Tid, r: Tid, q: Qid, n: nat)
    requires Mid(k, idle, r) && r in k.ready && q in k.queues
    ensures WakeInsertsFree(WokenTimes(k, q, n), q)
    decreases n
  {
    hide Mid, WakeOne, WakeInsertsFree;
    if n == 0 || k.queues[q] == [] {
      WakeIsFree(k, idle, r, q);
    } else {
      WakeOneKeeps(k, idle, r, q);
      EachWakeIsFree(WakeOne(k, q), idle, r, q, n - 1);
    }
  }

  lemma WaiterGone(k: Kernel, idle: Tid, t: Tid)
    requires Inv(k, idle) && t in k.threads && k.threads[t].state == WAITING
    ensures var q := k.threads[t].waiting; LinkFree(SetQueue(k, q, Leave(QueueOf(k, q), t)), t)
  {
    hide Leave;
    OneList(k, idle, t);
    var q := k.threads[t].waiting;
    assert QueueOk(k, q) by {
      assert Placed(k, t);
    }
    LeaveMembers(k.queues[q], t);
  }

  /** The shared link is safe: an operation that meets its condition never inserts a link that is
      in a list already. */
  lemma LinksSafe(k: Kernel, idle: Tid, op: Op)
    requires Inv(k, idle) && Exists(k, op) && k.chosen in k.threads && Guard(k, idle, op)
    ensures InsertsFree(k, op)
  {
    hide Inv, Remove, NewThread, WakeInsertsFree;
    match op
    case CreateOp(t, s, r) => NewIsFree(k, idle, t, s, r);
    case DestroyOp(t) => DestroyLinks(k, idle, t);
    case PriorityOp(t, p) => RemovedIsFree(k, idle, t);
    case ResumeOp(t) => if k.threads[t].state == SUSPENDED { BlockedIsFree(k, idle, t); }
    case ExitOp => ExitLinks(k, idle);
    case SleepOp(q) => RunningIsFree(k, idle);
    case POp(q) => RunningIsFree(k, idle);
    case WakeupOp(q) => WakeLinks(k, idle, q, 0);
    case VOp(q) => WakeLinks(k, idle, q, 0);
    case WakeupAllOp(q) => forall n: nat { WakeLinks(k, idle, q, n); }
    case DropQueueOp(q) => forall n: nat { WakeLinks(k, idle, q, n); }
    case _ =>
  }

  /** So over every run no link is ever in two lists, or twice in one. */
  lemma RunLinksSafe(trace: seq<Kernel>, ops: seq<Op>, main: Tid, r: int, idle: Tid, low: int, n: nat)
    requires IsRun(trace, ops, main, r, idle, low) && n < |ops|
    ensures Exists(trace[n], ops[n]) && InsertsFree(trace[n], ops[n])
  {
    hide Inv, Guard, Exists, InsertsFree, Boot, KernelRuns.Step;
    RunKeeps(trace, ops, main, r, idle, low, n);
    assert Exists(trace[n], ops[n]);
    StepIff(trace[n], idle, ops[n]);
    LinksSafe(trace[n], idle, ops[n]);
  }

  lemma NewIsFree(k: Kernel, idle: Tid, t: Tid, s: State, r: int)
    requires Inv(k, idle) && t !in k.threads
    ensures LinkFree(NewThread(k, t, s, r), t)
  {
    assert forall q :: q in k.queues ==> QueueOk(k, q);
  }

  lemma RunningIsFree(k: Kernel, idle: Tid)
    requires Inv(k, idle)
    ensures LinkFree(Remove(k, k.chosen), k.chosen)
  {
    ChosenIsThread(k, idle, k.chosen);
    hide Inv, Remove;
    RemovedIsFree(k, idle, k.chosen);
  }

  lemma WakeLinks(k: Kernel, idle: Tid, q: Qid, n: nat)
    requires Inv(k, idle) && q in k.queues
    ensures WakeInsertsFree(WokenTimes(k, q, n), q)
    ensures n == 0 ==> WakeInsertsFree(k, q)
  {
    ChosenIsThread(k, idle, k.chosen);
    hide Mid, WakeInsertsFree;
    EachWakeIsFree(k, idle, k.chosen, q, n);
  }

  lemma ExitLinks(k: Kernel, idle: Tid)
    requires Inv(k, idle) && k.chosen in k.threads && ExitOk(k, idle)
    ensures ExitInsertsFree(k)
  {
    var j := k.threads[k.chosen].joining;
    if j != 0 {
      hide Inv;
      BlockedIsFree(k, idle, j);
      LeaveShrinks(k, j);
    }
  }

  lemma LeaveShrinks(k: Kernel, t: Tid)
    requires LinkFree(k, t)
    ensures LinkFree(Remove(k, k.chosen), t)
  {}

  lemma DestroyLinks(k: Kernel, idle: Tid, t: Tid)
    requires Inv(k, idle) && t in k.threads && k.chosen in k.threads && DestroyOk(k, idle, t)
    ensures DestroyInsertsFree(k, t)
  {
    hide Inv, ExitInsertsFree, Leave;
    match k.threads[t].state
    case BEGINNING => BlockedIsFree(k, idle, t);
    case SUSPENDED => BlockedIsFree(k, idle, t);
    case WAITING => WaiterGone(k, idle, t);
    case RUNNING => ExitLinks(k, idle);
    case _ =>
  }
}
