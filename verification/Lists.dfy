/** The doubly linked lists the kernel is built on: `List`, `Ordered_List` (with ranks stored
    absolutely or as differences), `Scheduling_List` and `Grouping_List`. Links are real
    references updated in place; each operation is specified by what it does to the sequence
    of elements and to the sequence of their ranks. */
module Lists {
  import opened RankOrder
  import opened Blocks

  /** A link; `owner` is the object it stands for. `key` is the rank of an ordered element and
      the size of a grouping element. */
  class Element<T(==)> {
    const owner: T
    var key: int
    var prev: Element?<T>
    var next: Element?<T>

    constructor (o: T, k: int)
      ensures owner == o && key == k && prev == null && next == null
    {
      owner, key, prev, next := o, k, null, null;
    }
  }

  /** `List` and, when inserting by rank, `Ordered_List`. */
  class List<T(==)> {
    const relative: bool
    var size: nat
    var head: Element?<T>
    var tail: Element?<T>
    ghost var elems: seq<Element<T>>

    ghost predicate Valid()
      reads this, elems
    {
      && size == |elems|
      && NoDup(elems)
      && (elems == [] ==> head == null && tail == null)
      && (elems != [] ==>
            && head == elems[0] && head.prev == null
            && tail == elems[size - 1] && tail.next == null)
      && (forall i {:trigger elems[i].prev} :: 0 < i < |elems| ==> elems[i].prev == elems[i - 1])
      && (forall i {:trigger elems[i].next} :: 0 <= i < |elems| - 1 ==> elems[i].next == elems[i + 1])
    }

    ghost function Keys(): (ks: seq<int>)
      reads this, elems
      ensures |ks| == |elems|
    {
      seq(|elems|, i requires 0 <= i < |elems| reads this, elems => elems[i].key)
    }

    /** The ranks the elements were given, whichever way the list stores them. */
    ghost function Ranks(): (rs: seq<int>)
      reads this, elems
      ensures |rs| == |elems|
    {
      if relative then RunningSums(Keys()) else Keys()
    }

    constructor (rel: bool)
      ensures Valid() && elems == [] && relative == rel
    {
      relative := rel;
      size, head, tail, elems := 0, null, null, [];
    }

    method Empty() returns (b: bool)
      requires Valid()
      ensures b <==> elems == []
    {
      b := size == 0;
    }

    method InsertFirst(e: Element<T>)
      requires Valid() && elems == []
      modifies this, e`prev, e`next
      ensures Valid() && elems == [e]
    {
      e.prev := null;
      e.next := null;
      head := e;
      tail := e;
      size := size + 1;
      elems := [e];
    }

    method InsertHead(e: Element<T>)
      requires Valid() && e !in elems
      modifies this, elems`prev, e`prev, e`next
      ensures Valid() && elems == [e] + old(elems)
    {
      if size == 0 {
        InsertFirst(e);
      } else {
        e.prev := null;
        e.next := head;
        head.prev := e;
        head := e;
        size := size + 1;
        elems := [e] + elems;
      }
    }

    method InsertTail(e: Element<T>)
      requires Valid() && e !in elems
      modifies this, elems`next, e`prev, e`next
      ensures Valid() && elems == old(elems) + [e]
    {
      if size == 0 {
        InsertFirst(e);
      } else {
        tail.next := e;
        e.prev := tail;
        e.next := null;
        tail := e;
        size := size + 1;
        elems := elems + [e];
      }
    }

    method InsertBetween(e: Element<T>, p: Element<T>, n: Element<T>, ghost k: nat)
      requires Valid() && e !in elems
      requires 0 < k < |elems| && p == elems[k - 1] && n == elems[k]
      modifies this, elems`prev, elems`next, e`prev, e`next
      ensures Valid() && elems == InsertAt(old(elems), k, e)
    {
      p.next := e;
      n.prev := e;
      e.prev := p;
      e.next := n;
      size := size + 1;
      elems := InsertAt(elems, k, e);
    }

    method RemoveLast() returns (e: Element<T>)
      requires Valid() && |elems| == 1
      modifies this
      ensures Valid() && [e] == old(elems) && elems == []
    {
      e := head;
      head := null;
      tail := null;
      size := size - 1;
      elems := [];
    }

    method RemoveHead() returns (e: Element?<T>)
      requires Valid()
      modifies this, elems`prev
      ensures Valid()
      ensures old(elems) == [] ==> e == null && elems == []
      ensures old(elems) != [] ==> e == old(elems)[0] && elems == old(elems)[1..]
    {
      if size == 0 {
        return null;
      }
      if size == 1 {
        e := RemoveLast();
        return;
      }
      e := head;
      head := head.next;
      head.prev := null;
      size := size - 1;
      elems := elems[1..];
    }

    method RemoveTail() returns (e: Element?<T>)
      requires Valid()
      modifies this, elems`next
      ensures Valid()
      ensures old(elems) == [] ==> e == null && elems == []
      ensures old(elems) != [] ==>
                e == old(elems)[|old(elems)| - 1] && elems == old(elems)[..|old(elems)| - 1]
      ensures old(elems) != [] ==> e.next == old(e.next)
    {
      if size == 0 {
        return null;
      }
      if size == 1 {
        e := RemoveLast();
        return;
      }
      e := tail;
      tail := tail.prev;
      tail.next := null;
      size := size - 1;
      elems := elems[..|elems| - 1];
    }

    lemma EndsHaveNoNeighbour(k: nat)
      requires Valid() && k < |elems|
      ensures elems[k].prev == null <==> k == 0
      ensures elems[k].next == null <==> k == |elems| - 1
    {
      if k > 0 {
        assert elems[k].prev == elems[k - 1];
      }
      if k < |elems| - 1 {
        assert elems[k].next == elems[k + 1];
      }
    }

    /** `List::remove(e)`: the removed link keeps its own pointers. */
    method Unlink(e: Element<T>, ghost k: nat)
      requires Valid() && k < |elems| && elems[k] == e
      modifies this, elems`prev, elems`next
      ensures Valid() && elems == RemoveAt(old(elems), k)
      ensures e.next == if k < |elems| then elems[k] else null
    {
      EndsHaveNoNeighbour(k);
      if size == 1 {
        var _ := RemoveLast();
      } else if e.prev == null {
        var _ := RemoveHead();
      } else if e.next == null {
        var _ := RemoveTail();
      } else {
        UnlinkBetween(e, k);
      }
    }

    method UnlinkBetween(e: Element<T>, ghost k: nat)
      requires Valid() && 0 < k < |elems| - 1 && elems[k] == e
      modifies this, elems`prev, elems`next
      ensures Valid() && elems == RemoveAt(old(elems), k)
      ensures e.next == old(e.next)
    {
      assert e.prev == elems[k - 1] && e.next == elems[k + 1];
      e.prev.next := e.next;
      e.next.prev := e.prev;
      size := size - 1;
      elems := RemoveAt(elems, k);
    }

    method Search(obj: T) returns (e: Element?<T>, ghost k: nat)
      requires Valid()
      ensures k <= |elems|
      ensures forall i :: 0 <= i < k ==> elems[i].owner != obj
      ensures if k < |elems| then e == elems[k] && e.owner == obj else e == null
      ensures e == null <==> forall x :: x in elems ==> x.owner != obj
    {
      e, k := head, 0;
      while e != null && e.owner != obj
        invariant k <= |elems|
        invariant e == if k < |elems| then elems[k] else null
        invariant forall i :: 0 <= i < k ==> elems[i].owner != obj
        decreases |elems| - k
      {
        e, k := e.next, k + 1;
      }
    }

    /** `Ordered_List::insert`: the element goes behind every element ranked no higher; in a
        relative list the ranks the others were given stay what they were. */
    method Insert(e: Element<T>)
      requires Valid() && e !in elems
      modifies this, elems, e
      ensures Valid()
      ensures var p := Position(old(Ranks()), old(e.key));
        && elems == InsertAt(old(elems), p, e)
        && Ranks() == InsertAt(old(Ranks()), p, old(e.key))
    {
      ghost var r, keys := e.key, Keys();
      if size == 0 {
        InsertFirst(e);
        assert Keys() == InsertDelta(keys, 0, r) == InsertAt(keys, 0, r);
        InsertDeltaRefines(keys, 0, r);
      } else {
        var next, k := Seek(e);
        if next.key <= e.key {
          InsertBehindTail(e, next, r);
        } else {
          InsertBefore(e, next, k, r);
        }
      }
    }

    method InsertBehindTail(e: Element<T>, next: Element<T>, ghost r: int)
      requires Valid() && e !in elems && elems != [] && next == elems[|elems| - 1]
      requires next.key <= e.key
      requires e.key == if relative then r - Sum(Keys()[..|elems| - 1]) else r
      requires forall i :: 0 <= i < |elems| ==> Ranks()[i] <= r
      modifies this, elems`next, e
      ensures Valid()
      ensures Position(old(Ranks()), r) == |old(elems)|
      ensures elems == InsertAt(old(elems), |old(elems)|, e)
      ensures Ranks() == InsertAt(old(Ranks()), |old(elems)|, r)
    {
      ghost var keys := Keys();
      PositionIsFirst(Ranks(), r, |keys|);
      if relative {
        assert keys[..|keys|] == keys && Sum(keys) == Sum(keys[..|keys| - 1]) + next.key;
        e.key := e.key - next.key;
        InsertTail(e);
        assert Keys() == InsertAt(keys, |keys|, e.key);
        InsertedRanks(keys, keys, Keys(), |keys|, r);
      } else {
        InsertTail(e);
        assert Keys() == InsertAt(keys, |keys|, e.key);
      }
    }

    method InsertBefore(e: Element<T>, next: Element<T>, ghost k: nat, ghost r: int)
      requires Valid() && e !in elems && k < |elems| && next == elems[k]
      requires e.key == if relative then r - Sum(Keys()[..k]) else r
      requires forall i :: 0 <= i < k ==> Ranks()[i] <= r
      requires r < Ranks()[k]
      modifies this, elems`prev, elems`next, next, e
      ensures Valid()
      ensures Position(old(Ranks()), r) == k
      ensures elems == InsertAt(old(elems), k, e)
      ensures Ranks() == InsertAt(old(Ranks()), k, r)
    {
      ghost var keys := Keys();
      PositionIsFirst(Ranks(), r, k);
      if relative {
        GiveWay(e, next, k);
        ghost var mid := Keys();
        LinkBefore(e, next, k);
        InsertedRanks(keys, mid, Keys(), k, r);
      } else {
        LinkBefore(e, next, k);
      }
    }

    method GiveWay(e: Element<T>, next: Element<T>, ghost k: nat)
      requires Valid() && e !in elems && k < |elems| && next == elems[k]
      modifies next`key
      ensures Valid() && Keys() == old(Keys())[k := old(Keys())[k] - e.key]
    {
      next.key := next.key - e.key;
    }

    method LinkBefore(e: Element<T>, next: Element<T>, ghost k: nat)
      requires Valid() && e !in elems && k < |elems| && next == elems[k]
      modifies this, elems`prev, elems`next, e`prev, e`next
      ensures Valid() && elems == InsertAt(old(elems), k, e)
      ensures Keys() == InsertAt(old(Keys()), k, e.key)
    {
      EndsHaveNoNeighbour(k);
      if next.prev == null {
        InsertHead(e);
      } else {
        InsertBetween(e, next.prev, next, k);
      }
    }

    /** The traversal of `Ordered_List::insert`, which turns the newcomer's rank into a
        difference as it goes. It stops at the last element without passing it. */
    method Seek(e: Element<T>) returns (next: Element<T>, ghost k: nat)
      requires Valid() && e !in elems && elems != []
      modifies e`key
      ensures Valid() && Keys() == old(Keys())
      ensures k < |elems| && next == elems[k]
      ensures e.key == if relative then old(e.key) - Sum(Keys()[..k]) else old(e.key)
      ensures forall i :: 0 <= i < k ==> Ranks()[i] <= old(e.key)
      ensures Ranks()[k] <= old(e.key) <==> next.key <= e.key
      ensures next.key <= e.key ==> k == |elems| - 1
      ensures relative ==> Sum(Keys()[..k + 1]) == Sum(Keys()[..k]) + next.key
    {
      ghost var r, keys := e.key, Keys();
      next, k := head, 0;
      while next.key <= e.key && next.next != null
        invariant Valid() && Keys() == keys
        invariant 0 <= k < |elems| && next == elems[k]
        invariant e.key == if relative then r - Sum(keys[..k]) else r
        invariant forall i :: 0 <= i < k ==> Ranks()[i] <= r
        decreases |elems| - k
      {
        assert keys[..k + 1][..k] == keys[..k];
        if relative {
          e.key := e.key - next.key;
        }
        next, k := next.next, k + 1;
      }
      assert keys[..k + 1][..k] == keys[..k];
    }

    /** `promote` of the head's link. */
    method PromoteHead()
      requires Valid() && elems != []
      modifies head`key
      ensures Valid()
      ensures Ranks() == if relative then Less(old(Ranks()), 1) else old(Ranks())[0 := old(Ranks())[0] - 1]
      ensures head.key == old(head.key) - 1
    {
      ghost var keys := Keys();
      head.key := head.key - 1;
      assert Keys() == keys[0 := keys[0] - 1];
      PromotedRanks(keys, 1);
    }

    /** `Ordered_List::remove()`: the head goes, and its rank is not carried to the next. */
    method Remove() returns (e: Element?<T>)
      requires Valid()
      modifies this, elems`prev
      ensures Valid()
      ensures old(elems) == [] ==> e == null && elems == []
      ensures old(elems) != [] ==> e == old(elems)[0] && elems == old(elems)[1..]
      ensures old(elems) != [] ==>
                && e.key == old(e.key)
                && Ranks() == if relative then Less(old(Ranks())[1..], e.key) else old(Ranks())[1..]
    {
      ghost var keys := Keys();
      e := RemoveHead();
      if e != null {
        assert Keys() == keys[1..];
        HeadlessRanks(keys);
      }
    }

    /** `Ordered_List::remove(e)`: in a relative list the successor takes the difference over. */
    method RemoveElement(e: Element<T>, ghost k: nat)
      requires Valid() && k < |elems| && elems[k] == e
      modifies this, elems
      ensures Valid()
      ensures elems == RemoveAt(old(elems), k) && Ranks() == RemoveAt(old(Ranks()), k)
      ensures e.key == old(e.key)
    {
      ghost var keys := Keys();
      Unlink(e, k);
      ghost var mid := Keys();
      assert mid == RemoveAt(keys, k);
      if relative {
        if e.next != null {
          e.next.key := e.next.key + e.key;
          assert Keys() == mid[k := keys[k] + keys[k + 1]];
        }
        RemovedRanks(keys, Keys(), k);
      }
    }

    /** `Ordered_List::remove(obj)`. */
    method RemoveObject(obj: T) returns (e: Element?<T>, ghost k: nat)
      requires Valid()
      modifies this, elems
      ensures Valid()
      ensures k <= |old(elems)|
      ensures forall i :: 0 <= i < k ==> old(elems)[i].owner != obj
      ensures if k < |old(elems)| then
                && e == old(elems)[k] && e.owner == obj
                && elems == RemoveAt(old(elems), k) && Ranks() == RemoveAt(old(Ranks()), k) && e.key == old(e.key)
              else e == null && elems == old(elems) && Ranks() == old(Ranks())
    {
      e, k := Search(obj);
      if e != null {
        RemoveElement(e, k);
      }
    }
  }

  /** `Scheduling_List`: an ordered list with a chosen element. `rank` in the contracts is the
      rank each link carries at the call. */
  class SchedulingList<T(==)> {
    const base: List<T>
    var chosen: Element?<T>

    ghost predicate Valid()
      reads this, base, base.elems
    {
      && base.Valid()
      && !base.relative
      && (base.elems == [] ==> chosen == null)
      && (base.elems != [] ==> chosen in base.elems)
    }

    constructor ()
      ensures Valid() && fresh(base) && base.elems == []
    {
      base := new List<T>(false);
      chosen := null;
    }

    method Insert(e: Element<T>, ghost rank: map<Element<T>, int>)
      requires Valid() && e !in base.elems
      requires forall x :: x in base.elems || x == e ==> Lookup(rank, x) == x.key
      modifies this, base, base.elems, e
      ensures Valid()
      ensures base.elems == Enter<Element<T>>(old(base.elems), e, rank)
      ensures chosen == if old(chosen) == null then base.elems[0] else old(chosen)
      ensures forall x :: x in base.elems ==> Lookup(rank, x) == x.key
    {
      InsertRanked(e, rank);
      EnterMembers<Element<T>>(old(base.elems), e, rank);
      if chosen == null {
        chosen := base.head;
      }
    }

    method InsertRanked(e: Element<T>, ghost rank: map<Element<T>, int>)
      requires base.Valid() && !base.relative && e !in base.elems
      requires forall x :: x in base.elems || x == e ==> Lookup(rank, x) == x.key
      modifies base, base.elems, e
      ensures base.Valid()
      ensures base.elems == Enter<Element<T>>(old(base.elems), e, rank)
      ensures forall x :: x in base.elems ==> Lookup(rank, x) == x.key
    {
      RanksOfEnter(base.elems, e, rank);
      assert base.Keys() == RanksOf(base.elems, rank);
      base.Insert(e);
      forall x | x in base.elems
        ensures Lookup(rank, x) == x.key
      {
        var i :| 0 <= i < |base.elems| && base.elems[i] == x;
        assert base.Keys()[i] == RanksOf(base.elems, rank)[i];
      }
    }

    method RemoveElement(e: Element<T>)
      requires Valid() && e in base.elems
      modifies this, base, base.elems
      ensures Valid()
      ensures base.elems == Leave<Element<T>>(old(base.elems), e)
      ensures chosen == if old(chosen) != e then old(chosen)
                        else if base.elems == [] then null else base.elems[0]
      ensures forall x :: x in old(base.elems) ==> x.key == old(x.key)
    {
      LeaveMembers<Element<T>>(base.elems, e);
      Unrank(e);
      if e == chosen {
        chosen := base.head;
      }
    }

    method Unrank(e: Element<T>)
      requires base.Valid() && !base.relative && e in base.elems
      modifies base, base.elems
      ensures base.Valid()
      ensures base.elems == Leave<Element<T>>(old(base.elems), e)
      ensures forall x :: x in old(base.elems) ==> x.key == old(x.key)
    {
      ghost var k := IndexOf(base.elems, e);
      ghost var keys := base.Keys();
      base.RemoveElement(e, k);
      forall x | x in old(base.elems)
        ensures x.key == old(x.key)
      {
        var i :| 0 <= i < |old(base.elems)| && old(base.elems)[i] == x;
        if i != k {
          var j := if i < k then i else i - 1;
          assert base.Keys()[j] == RemoveAt(keys, k)[j] == keys[i];
        }
      }
    }

    /** `Scheduling_List::remove(obj)`: harmless when the object is not in the list. */
    method RemoveObject(obj: T) returns (e: Element?<T>)
      requires Valid()
      modifies this, base, base.elems
      ensures Valid()
      ensures e == null ==> (forall x :: x in old(base.elems) ==> x.owner != obj)
      ensures e == null ==> base.elems == old(base.elems) && chosen == old(chosen)
      ensures e != null ==> e in old(base.elems) && e.owner == obj
      ensures e != null ==> base.elems == Leave<Element<T>>(old(base.elems), e)
      ensures e != null ==> chosen == if old(chosen) != e then old(chosen)
                                      else if base.elems == [] then null else base.elems[0]
      ensures forall x :: x in old(base.elems) ==> x.key == old(x.key)
    {
      ghost var k;
      e, k := base.Search(obj);
      if e != null {
        RemoveElement(e);
      }
    }

    /** Takes the chosen element out and puts it back behind the elements of its rank. */
    method Reorder(ghost rank: map<Element<T>, int>)
      requires Valid() && chosen != null
      requires forall x :: x in base.elems ==> Lookup(rank, x) == x.key
      modifies this, base, base.elems
      ensures Valid() && chosen == old(chosen)
      ensures base.elems == Requeue<Element<T>>(old(base.elems), chosen, rank)
      ensures forall x :: x in base.elems <==> x in old(base.elems)
      ensures forall x :: x in base.elems ==> Lookup(rank, x) == x.key
    {
      RequeueLink(chosen, rank);
    }

    method RequeueLink(e: Element<T>, ghost rank: map<Element<T>, int>)
      requires base.Valid() && !base.relative && e in base.elems
      requires forall x :: x in base.elems ==> Lookup(rank, x) == x.key
      modifies base, base.elems
      ensures base.Valid()
      ensures base.elems == Requeue<Element<T>>(old(base.elems), e, rank)
      ensures forall x :: x in base.elems <==> x in old(base.elems)
      ensures forall x :: x in base.elems ==> Lookup(rank, x) == x.key
    {
      ghost var before := base.elems;
      LeaveMembers<Element<T>>(before, e);
      Unrank(e);
      InsertRanked(e, rank);
      RequeueMembers<Element<T>>(before, e, rank);
    }

    method Choose(ghost rank: map<Element<T>, int>) returns (e: Element?<T>)
      requires Valid()
      requires forall x :: x in base.elems ==> Lookup(rank, x) == x.key
      modifies this, base, base.elems
      ensures Valid() && e == chosen
      ensures old(chosen) == null ==> base.elems == [] && e == null
      ensures old(chosen) != null ==>
                && base.elems == Requeue<Element<T>>(old(base.elems), old(chosen), rank)
                && e == base.elems[0]
      ensures forall x :: x in base.elems ==> Lookup(rank, x) == x.key
    {
      if base.size != 0 {
        Reorder(rank);
        chosen := base.head;
      }
      e := chosen;
    }

    /** The head among the others is chosen, whatever its rank. */
    method ChooseAnother(ghost rank: map<Element<T>, int>) returns (e: Element?<T>)
      requires Valid()
      requires forall x :: x in base.elems ==> Lookup(rank, x) == x.key
      modifies this, base, base.elems
      ensures Valid() && e == chosen
      ensures |old(base.elems)| <= 1 ==> base.elems == old(base.elems) && e == old(chosen)
      ensures |old(base.elems)| > 1 ==>
                var others := Leave<Element<T>>(old(base.elems), old(chosen));
                && others != [] && e == others[0]
                && base.elems == Enter<Element<T>>(others, old(chosen), rank)
      ensures forall x :: x in base.elems ==> Lookup(rank, x) == x.key
    {
      if base.size > 1 {
        var tmp: Element<T> := chosen;
        LeaveMembers<Element<T>>(base.elems, tmp);
        Unrank(tmp);
        chosen := base.head;
        EnterMembers<Element<T>>(base.elems, tmp, rank);
        InsertRanked(tmp, rank);
      }
      e := chosen;
    }

    method ChooseObject(obj: T, ghost rank: map<Element<T>, int>) returns (e: Element?<T>)
      requires Valid()
      requires forall x :: x in base.elems ==> Lookup(rank, x) == x.key
      modifies this, base, base.elems
      ensures Valid()
      ensures e == null ==> (forall x :: x in old(base.elems) ==> x.owner != obj)
      ensures e == null ==> base.elems == old(base.elems) && chosen == old(chosen)
      ensures e != null ==> e in old(base.elems) && e.owner == obj && chosen == e
      ensures e != null ==>
                base.elems == Requeue<Element<T>>(old(base.elems), old(chosen), rank)
      ensures forall x :: x in base.elems ==> Lookup(rank, x) == x.key
    {
      ghost var k;
      e, k := base.Search(obj);
      if e != null {
        ChooseElement(e, rank);
      }
    }

    method ChooseElement(e: Element<T>, ghost rank: map<Element<T>, int>)
      requires Valid() && e in base.elems
      requires forall x :: x in base.elems ==> Lookup(rank, x) == x.key
      modifies this, base, base.elems
      ensures Valid() && chosen == e
      ensures base.elems == Requeue<Element<T>>(old(base.elems), old(chosen), rank)
      ensures forall x :: x in base.elems ==> Lookup(rank, x) == x.key
    {
      if chosen != null {
        Reorder(rank);
      }
      chosen := e;
    }
  }

  /** `Grouping_List` of memory: a link stands for the block that starts at its owner and is
      as long as its key. */
  class GroupingList {
    const base: List<int>
    var groupedSize: int

    ghost predicate Valid()
      reads base, base.elems
    {
      base.Valid()
    }

    ghost function Contents(): (bs: seq<Block>)
      reads base, base.elems
      ensures |bs| == |base.elems|
    {
      seq(|base.elems|, i requires 0 <= i < |base.elems| reads base, base.elems =>
            Block(base.elems[i].owner, base.elems[i].key))
    }

    constructor ()
      ensures Valid() && fresh(base) && Contents() == [] && groupedSize == 0
    {
      base := new List<int>(false);
      groupedSize := 0;
    }

    method SearchSize(s: int) returns (e: Element?<int>, ghost k: nat)
      requires Valid()
      ensures k == FirstFit(Contents(), s)
      ensures if k < |base.elems| then e == base.elems[k] else e == null
      ensures e != null ==> Fits(Block(e.owner, e.key), s)
    {
      e, k := base.head, 0;
      while e != null && e.key < ELEMENT + s && e.key != s
        invariant k <= |base.elems|
        invariant if k < |base.elems| then e == base.elems[k] else e == null
        invariant forall i :: 0 <= i < k ==> !Fits(Contents()[i], s)
        decreases |base.elems| - k
      {
        e, k := e.next, k + 1;
      }
      assert k < |base.elems| ==> Fits(Contents()[k], s);
    }

    method SearchLeft(a: int) returns (e: Element?<int>, ghost k: nat)
      requires Valid()
      ensures k == EndingAt(Contents(), a)
      ensures if k < |base.elems| then e == base.elems[k] else e == null
      ensures e != null ==> e.owner + e.key == a
    {
      e, k := base.head, 0;
      while e != null && e.owner + e.key != a
        invariant k <= |base.elems|
        invariant if k < |base.elems| then e == base.elems[k] else e == null
        invariant forall i :: 0 <= i < k ==> Contents()[i].End() != a
        decreases |base.elems| - k
      {
        e, k := e.next, k + 1;
      }
      assert k < |base.elems| ==> Contents()[k].End() == a;
    }

    method Search(a: int) returns (e: Element?<int>, ghost k: nat)
      requires Valid()
      ensures k == StartingAt(Contents(), a)
      ensures if k < |base.elems| then e == base.elems[k] else e == null
    {
      e, k := base.Search(a);
      assert forall i :: 0 <= i < k ==> Contents()[i].addr != a;
      assert k < |base.elems| ==> Contents()[k].addr == a;
    }

    method Append(e: Element<int>)
      requires Valid() && e !in base.elems
      modifies base, base.elems`next, e`prev, e`next
      ensures Valid() && base.elems == old(base.elems) + [e]
      ensures Contents() == old(Contents()) + [Block(e.owner, e.key)]
    {
      base.InsertTail(e);
    }

    method Drop(e: Element<int>, ghost k: nat)
      requires Valid() && k < |base.elems| && base.elems[k] == e
      modifies base, base.elems`prev, base.elems`next
      ensures Valid() && base.elems == RemoveAt(old(base.elems), k)
      ensures Contents() == RemoveAt(old(Contents()), k)
    {
      ghost var before := Contents();
      base.Unlink(e, k);
      assert forall i :: 0 <= i < |base.elems| ==> Contents()[i] == before[if i < k then i else i + 1];
    }

    method Resize(e: Element<int>, size: int, ghost k: nat)
      requires Valid() && k < |base.elems| && base.elems[k] == e
      modifies e`key
      ensures Valid() && e.key == size
      ensures Contents() == old(Contents())[k := Block(e.owner, size)]
    {
      e.key := size;
    }

    method Swallow(e: Element<int>, r: Element<int>, ghost k: nat)
      requires Valid() && e !in base.elems && k < |base.elems| && base.elems[k] == r
      modifies base, base.elems`prev, base.elems`next, e`key
      ensures Valid() && base.elems == RemoveAt(old(base.elems), k)
      ensures Contents() == RemoveAt(old(Contents()), k)
      ensures e.key == old(e.key) + old(Contents())[k].size
    {
      e.key := e.key + r.key;
      Drop(r, k);
    }

    method SearchDecrementing(s: int) returns (e: Element?<int>, ghost k: nat)
      requires Valid() && s > 0
      modifies this, base, base.elems
      ensures Valid()
      ensures k == FirstFit(old(Contents()), s)
      ensures k == |old(Contents())| ==>
                e == null && Contents() == old(Contents()) && groupedSize == old(groupedSize)
      ensures k < |old(Contents())| ==>
                && e != null && Block(e.owner, e.key + s) == old(Contents())[k]
                && Contents() == Carve(old(Contents()), k, s)
                && groupedSize == old(groupedSize) - s
      ensures forall x :: x in base.elems ==> x in old(base.elems)
    {
      hide FirstFit, Fits, List.Valid;
      e, k := SearchSize(s);
      if e != null {
        ghost var before := Contents();
        Resize(e, e.key - s, k);
        groupedSize := groupedSize - s;
        if e.key == 0 {
          Drop(e, k);
          assert Contents() == RemoveAt(before, k);
        }
      }
    }

    /** The two out-parameters name the links that are no longer in use. */
    method InsertMerging(e: Element<int>) returns (m1: Element?<int>, m2: Element?<int>)
      requires Valid() && e !in base.elems && e.key > 0
      requires forall x :: x in Contents() ==> 0 <= x.size
      modifies this, base, base.elems, e
      ensures Valid()
      ensures Contents() == Blocks.InsertMerging(old(Contents()), old(Block(e.owner, e.key)))
      ensures groupedSize == old(groupedSize) + old(e.key)
      ensures forall x :: x in base.elems ==> x in old(base.elems) || x == e
    {
      groupedSize := groupedSize + e.key;
      m1, m2 := JoinNeighbours(e);
    }

    method JoinNeighbours(e: Element<int>) returns (m1: Element?<int>, m2: Element?<int>)
      requires Valid() && e !in base.elems && e.key > 0
      requires forall x :: x in Contents() ==> 0 <= x.size
      modifies base, base.elems, e
      ensures Valid()
      ensures Contents() == Blocks.InsertMerging(old(Contents()), old(Block(e.owner, e.key)))
      ensures forall x :: x in base.elems ==> x in old(base.elems) || x == e
    {
      var r, kr := Search(e.owner + e.key);
      var l, kl := SearchLeft(e.owner);
      MergingIs(Contents(), Block(e.owner, e.key), kr, kl);
      Join(e, r, l, kr, kl);
      m1, m2 := r, if l == null then null else e;
    }

    method Join(e: Element<int>, r: Element?<int>, l: Element?<int>, ghost kr: nat, ghost kl: nat)
      requires Valid() && e !in base.elems && kr <= |base.elems| && kl <= |base.elems|
      requires kr == kl ==> kr == |base.elems|
      requires if kr < |base.elems| then r == base.elems[kr] else r == null
      requires if kl < |base.elems| then l == base.elems[kl] else l == null
      modifies base, base.elems, e
      ensures Valid()
      ensures Contents() == Merge(old(Contents()), old(Block(e.owner, e.key)), kr, kl)
      ensures forall x :: x in base.elems ==> x in old(base.elems) || x == e
    {
      if l == null {
        MergeRight(e, r, kr);
      } else {
        MergeBoth(e, r, l, kr, kl);
      }
    }

    /** No block ends where this one starts: it joins the list and grows over its right
        neighbour, if there is one. */
    method MergeRight(e: Element<int>, r: Element?<int>, ghost kr: nat)
      requires Valid() && e !in base.elems && kr <= |base.elems|
      requires if kr < |base.elems| then r == base.elems[kr] else r == null
      modifies base, base.elems, e
      ensures Valid()
      ensures Contents() == Merge(old(Contents()), old(Block(e.owner, e.key)), kr, |old(base.elems)|)
      ensures forall x :: x in base.elems ==> x in old(base.elems) || x == e
    {
      ghost var before, b := Contents(), Block(e.owner, e.key);
      Append(e);
      if r != null {
        Resize(e, e.key + r.key, |before|);
        assert Contents() == before + [Block(b.addr, b.size + before[kr].size)];
        Drop(r, kr);
      }
      MergeApart(before, b, kr);
    }

    /** The left neighbour grows over the block and over what the block grew over. */
    method MergeBoth(e: Element<int>, r: Element?<int>, l: Element<int>, ghost kr: nat, ghost kl: nat)
      requires Valid() && e !in base.elems && kr <= |base.elems| && kl < |base.elems| && kr != kl
      requires if kr < |base.elems| then r == base.elems[kr] else r == null
      requires l == base.elems[kl]
      modifies base, base.elems, e
      ensures Valid()
      ensures Contents() == Merge(old(Contents()), old(Block(e.owner, e.key)), kr, kl)
      ensures forall x :: x in base.elems ==> x in old(base.elems)
    {
      ghost var before, b := Contents(), Block(e.owner, e.key);
      if r != null {
        Swallow(e, r, kr);
      }
      ghost var k := if kr < kl then kl - 1 else kl;
      MergeLeft(before, b, kr, kl, Contents(), k, e.key);
      Resize(l, l.key + e.key, k);
    }
  }
}
