/** `Heap_Common`: the allocator over its grouping list. */
module HeapCommon {
  import opened RankOrder
  import opened Blocks
  import opened Lists
  import opened HeapModel
  import HeapLaws

  class HeapObject {
    const list: GroupingList
    /** The size words in memory, one below each block handed out. */
    var header: map<int, int>
    ghost var live: seq<Block>
    ghost var region: set<int>

    ghost predicate Valid()
      reads this, list, list.base, list.base.elems
    {
      list.Valid() && Inv(View())
    }

    ghost function View(): Heap
      reads this, list, list.base, list.base.elems
    {
      Heap(list.Contents(), list.groupedSize, header, live, region)
    }

    constructor ()
      ensures Valid() && View() == EMPTY
      ensures fresh(list) && fresh(list.base)
    {
      list := new GroupingList();
      header, live, region := map[], [], {};
      new;
      assert View() == EMPTY;
      assert Members(View().free) + Members(View().live) == {};
    }

    /** 0 stands for the null pointer, returned for no bytes and when no block fits. */
    method Alloc(bytes: nat) returns (ptr: int)
      requires Valid() && bytes <= MAX_REQUEST
      modifies this, list, list.base, list.base.elems
      ensures Valid()
      ensures (View(), ptr) == HeapModel.Alloc(old(View()), bytes)
      ensures forall x :: x in list.base.elems ==> x in old(list.base.elems) || fresh(x)
    {
      HeapLaws.AllocKeeps(View(), bytes);
      ptr := Take(bytes);
    }

    method Take(bytes: nat) returns (ptr: int)
      requires list.Valid()
      modifies this, list, list.base, list.base.elems
      ensures list.Valid()
      ensures (View(), ptr) == HeapModel.Alloc(old(View()), bytes)
      ensures forall x :: x in list.base.elems ==> x in old(list.base.elems)
    {
      if bytes == 0 {
        return 0;
      }
      var n := bytes + HEADER;
      if n < ELEMENT {
        n := ELEMENT;
      }
      var found, addr := Grab(n);
      if !found {
        return 0;
      }
      ptr := addr + HEADER;
    }

    method Grab(n: nat) returns (found: bool, addr: int)
      requires list.Valid() && 0 < n
      modifies this, list, list.base, list.base.elems
      ensures list.Valid()
      ensures forall x :: x in list.base.elems ==> x in old(list.base.elems)
      ensures var h := old(View());
        var k := FirstFit(h.free, n);
        && found == (k < |h.free|)
        && (!found ==> View() == h)
        && (found ==> addr == Top(h, k, n).addr && View() == HandOut(h, k, Top(h, k, n)))
    {
      ghost var before := View();
      var e, k := list.SearchDecrementing(n);
      found := e != null;
      addr := 0;
      if e != null {
        addr := e.owner + e.key;
        assert Block(addr, n) == Top(before, k, n);
        WriteSize(addr, n);
      }
    }

    method WriteSize(addr: int, n: int)
      modifies `header, `live
      ensures View() == old(View()).(header := old(header)[addr := n], live := old(live) + [Block(addr, n)])
    {
      header := header[addr := n];
      live := live + [Block(addr, n)];
    }

    method FreeBlock(ptr: int, bytes: int)
      requires list.Valid() && Sizes(list.Contents())
      modifies list, list.base, list.base.elems
      ensures list.Valid()
      ensures View() == HeapModel.FreeBlock(old(View()), ptr, bytes)
      ensures forall x :: x in list.base.elems ==> x in old(list.base.elems) || fresh(x)
    {
      if ptr != 0 && ELEMENT <= bytes {
        var e := new Element<int>(ptr, bytes);
        var _, _ := list.InsertMerging(e);
      }
    }

    /** `free(ptr)`, which finds the size in the word below. */
    method Free(ptr: int)
      requires Valid() && HeapLaws.Outstanding(View(), ptr)
      modifies this, list, list.base, list.base.elems
      ensures Valid()
      ensures View() == HeapModel.Free(old(View()), ptr)
      ensures forall x :: x in list.base.elems ==> x in old(list.base.elems) || fresh(x)
    {
      ghost var before := View();
      HeapLaws.FreeKeeps(before, ptr);
      HeapLaws.ReturnedBlock(before, ptr);
      var addr := ptr - HEADER;
      FreeBlock(addr, Lookup(header, addr));
      live := Leave(live, Block(addr, Lookup(header, addr)));
    }

    /** `free(ptr, bytes)` as the wrapper's constructor uses it, to give the heap memory. */
    method Give(ptr: int, bytes: int)
      requires Valid() && 0 <= ptr && Addresses(Block(ptr, bytes)) !! region
      modifies this, list, list.base, list.base.elems
      ensures Valid()
      ensures View() == Seed(old(View()), ptr, bytes)
      ensures forall x :: x in list.base.elems ==> x in old(list.base.elems) || fresh(x)
    {
      HeapLaws.SeedKeeps(View(), ptr, bytes);
      GiveUnchecked(ptr, bytes);
    }

    method GiveUnchecked(ptr: int, bytes: int)
      requires list.Valid() && Sizes(list.Contents())
      modifies this, list, list.base, list.base.elems
      ensures list.Valid()
      ensures View() == Seed(old(View()), ptr, bytes)
      ensures forall x :: x in list.base.elems ==> x in old(list.base.elems) || fresh(x)
    {
      hide Merged, Addresses;
      FreeBlock(ptr, bytes);
      if ptr != 0 && ELEMENT <= bytes {
        region := region + Addresses(Block(ptr, bytes));
      }
    }
  }
}
