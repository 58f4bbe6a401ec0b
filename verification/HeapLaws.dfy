/** Laws of the heap over every sequence of allocations and releases. */
module HeapLaws {
  import opened RankOrder
  import opened Blocks
  import opened HeapModel

  lemma LiveAppend(live: seq<Block>, b: Block)
    ensures TotalSize(live + [b]) == TotalSize(live) + b.size
  {
    assert (live + [b])[..|live|] == live;
  }

  /** Two blocks of a tiling never share an address. */
  lemma OneHolder(all: set<Block>, region: set<int>, x: Block, y: Block, a: int)
    requires Tiling(all, region) && x in all && y in all && x.Holds(a) && y.Holds(a)
    ensures x == y
  {
    assert x != y ==> Apart(x, y);
  }

  // ----- Allocation.

  /** The block handed out comes off the top of a free block, and the rest stays a block. */
  lemma CarveLayout(free: seq<Block>, live: seq<Block>, region: set<int>, k: nat, b: Block)
    requires Layout(free, live, region) && k < |free| && ELEMENT <= b.size && Fits(free[k], b.size)
    requires b.End() == free[k].End()
    ensures Layout(Carve(free, k, b.size), live + [b], region)
  {
    var x := free[k];
    assert x in Members(free);
    if x.size == b.size {
      assert x == b;
      RemoveAtMembers(free, k);
      AppendMembers(live, b);
      assert Members(RemoveAt(free, k)) + Members(live + [b]) == Members(free) + Members(live);
    } else {
      CarveTop(free, live, region, k, b);
    }
  }

  lemma CarveTop(free: seq<Block>, live: seq<Block>, region: set<int>, k: nat, b: Block)
    requires Layout(free, live, region) && k < |free| && ELEMENT <= b.size && ELEMENT + b.size <= free[k].size
    requires b.End() == free[k].End()
    ensures Layout(free[k := Block(free[k].addr, free[k].size - b.size)], live + [b], region)
  {
    var x := free[k];
    var lo := Block(x.addr, x.size - b.size);
    var all := Members(free) + Members(live);
    assert x in Members(free);
    TilingSplit(all, region, x, b.addr);
    UpdateMembers(free, k, lo);
    AppendMembers(live, b);
    assert Members(free[k := lo]) + Members(live + [b]) == all - {x} + {lo, b};
  }

  lemma CarveNoNeighbours(h: Heap, k: nat, n: int)
    requires Inv(h) && k < |h.free| && Fits(h.free[k], n) && ELEMENT <= n
    ensures NoNeighbours(Carve(h.free, k, n))
  {
    var x, free' := h.free[k], Carve(h.free, k, n);
    var all := Members(h.free) + Members(h.live);
    assert x in h.free;
    forall y, z | y in free' && z in free'
      ensures y.End() != z.addr
    {
      var lo := Block(x.addr, x.size - n);
      assert y in h.free || (x.size != n && y == lo);
      assert z in h.free || (x.size != n && z == lo);
      if y == lo && x.size != n && z in h.free && y.End() == z.addr {
        OneHolder(all, h.region, x, z, z.addr);
      }
      if z == lo && y in h.free {
        assert y.End() != x.addr;
      }
    }
  }

  lemma CarveHeaders(h: Heap, k: nat, b: Block)
    requires Inv(h) && k < |h.free| && ELEMENT <= b.size <= h.free[k].size
    requires b.End() == h.free[k].End()
    ensures Headers(h.live + [b], h.header[b.addr := b.size])
  {
    var x := h.free[k];
    assert x in Members(h.free) && x !in Members(h.live) && x.Holds(b.addr);
    forall c | c in h.live
      ensures c.addr != b.addr
    {
      if c.addr == b.addr {
        OneHolder(Members(h.free) + Members(h.live), h.region, c, x, b.addr);
      }
    }
  }

  lemma HandOutKeeps(h: Heap, k: nat, n: int)
    requires Inv(h) && k < |h.free| && Fits(h.free[k], n) && ELEMENT <= n
    ensures Inv(HandOut(h, k, Top(h, k, n)))
  {
    var b := Top(h, k, n);
    CarveLayout(h.free, h.live, h.region, k, b);
    CarveNoNeighbours(h, k, n);
    CarveTotal(h.free, k, n);
    LiveAppend(h.live, b);
    CarveHeaders(h, k, b);
  }

  lemma AllocKeeps(h: Heap, bytes: nat)
    requires Inv(h)
    ensures Inv(Alloc(h, bytes).0)
  {
    var n := Need(bytes);
    var k := FirstFit(h.free, n);
    if bytes != 0 && k < |h.free| {
      HandOutKeeps(h, k, n);
    }
  }

  /** An allocation fails only when no free block fits; otherwise the bytes asked for and the
      size word below them lie in memory of the heap that nobody else holds. */
  lemma AllocGives(h: Heap, bytes: nat)
    requires Inv(h)
    ensures var (g, ptr) := Alloc(h, bytes);
      && (ptr == 0 <==> bytes == 0 || forall x :: x in h.free ==> !Fits(x, Need(bytes)))
      && (ptr == 0 ==> g == h)
      && (ptr != 0 ==> forall a :: ptr - HEADER <= a < ptr + bytes ==> OnlyLast(g, a))
  {
    var n := Need(bytes);
    var k := FirstFit(h.free, n);
    if bytes != 0 && k < |h.free| {
      var (g, ptr) := Alloc(h, bytes);
      var b := Top(h, k, n);
      LastBlock(h, bytes);
      AllocKeeps(h, bytes);
      forall a | ptr - HEADER <= a < ptr + bytes
        ensures OnlyLast(g, a)
      {
        assert b.Holds(a);
        HeldOnce(g, |g.live| - 1, a);
      }
    } else if bytes != 0 {
      forall x | x in h.free
        ensures !Fits(x, n)
      {
        var i :| 0 <= i < |h.free| && h.free[i] == x;
      }
    }
  }

  /** Address `a` is the heap's, in the block handed out last and in no other. */
  ghost predicate OnlyLast(h: Heap, a: int) {
    && a in h.region
    && (forall i :: 0 <= i < |h.live| ==> (h.live[i].Holds(a) <==> i == |h.live| - 1))
    && (forall y :: y in h.free ==> !y.Holds(a))
  }

  lemma HeldOnce(h: Heap, k: nat, a: int)
    requires Inv(h) && k < |h.live| && h.live[k].Holds(a)
    ensures a in h.region
    ensures forall i :: 0 <= i < |h.live| ==> (h.live[i].Holds(a) <==> i == k)
    ensures forall y :: y in h.free ==> !y.Holds(a)
  {
    var all, b := Members(h.free) + Members(h.live), h.live[k];
    assert b in h.live && b in all && b !in Members(h.free);
    forall i | 0 <= i < |h.live| && h.live[i].Holds(a)
      ensures i == k
    {
      assert h.live[i] in h.live;
      OneHolder(all, h.region, h.live[i], b, a);
    }
    forall y | y in h.free
      ensures !y.Holds(a)
    {
      if y.Holds(a) {
        OneHolder(all, h.region, y, b, a);
      }
    }
  }

  // ----- Release.

  /** Joining a block with its neighbours cuts the same region, and no neighbours are left. */
  lemma MergeLayout(free: seq<Block>, live: seq<Block>, b: Block, region: set<int>)
    requires Sizes(free) && Sizes(live) && ELEMENT <= b.size && NoDup(free) && NoDup(live)
    requires b !in free && b !in live && Members(free) !! Members(live)
    requires Tiling(Members(free) + Members(live) + {b}, region)
    ensures Layout(InsertMerging(free, b), live, region)
  {
    var r, l := StartingAt(free, b.End()), EndingAt(free, b.addr);
    MergingIs(free, b, r, l);
    var all, m := Members(free) + Members(live) + {b}, Merged(free, b, r, l);
    MergedTiles(free, Members(live), b, r, l, region);
    MergeMembers(free, b, r, l);
    var free' := Merge(free, b, r, l);
    assert Members(free') + Members(live) == all - Neighbours(free, r, l) - {b} + {m} by {
      assert Neighbours(free, r, l) <= Members(free);
    }
  }

  lemma MergedTiles(free: seq<Block>, rest: set<Block>, b: Block, r: nat, l: nat, region: set<int>)
    requires NoDup(free) && r <= |free| && l <= |free| && (r == l ==> r == |free|)
    requires r < |free| ==> free[r].addr == b.End()
    requires l < |free| ==> free[l].End() == b.addr
    requires b !in free && b !in rest && Members(free) !! rest
    requires Tiling(Members(free) + rest + {b}, region)
    ensures Merged(free, b, r, l) !in free && Merged(free, b, r, l) !in rest
    ensures Tiling(Members(free) + rest + {b} - Neighbours(free, r, l) - {b} + {Merged(free, b, r, l)}, region)
  {
    var all, m := Members(free) + rest + {b}, Merged(free, b, r, l);
    if r == |free| {
      if l < |free| {
        TilingJoin(all, region, free[l], b);
        assert all - {free[l], b} + {m} == all - Neighbours(free, r, l) - {b} + {m};
      } else {
        assert all == all - Neighbours(free, r, l) - {b} + {m};
      }
    } else {
      assert free[r] in all;
      TilingJoin(all, region, b, free[r]);
      var bR := Block(b.addr, b.size + free[r].size);
      var mid := all - {b, free[r]} + {bR};
      if l < |free| {
        assert free[l] in mid;
        TilingJoin(mid, region, free[l], bR);
        assert mid - {free[l], bR} + {m} == all - Neighbours(free, r, l) - {b} + {m};
      } else {
        assert mid == all - Neighbours(free, r, l) - {b} + {m};
      }
    }
  }

  lemma MergeNoNeighbours(free: seq<Block>, b: Block)
    requires Sizes(free) && ELEMENT <= b.size && NoDup(free) && NoNeighbours(free)
    requires var r, l := StartingAt(free, b.End()), EndingAt(free, b.addr);
      (r == l ==> r == |free|) && Merged(free, b, r, l) !in free
    ensures NoNeighbours(InsertMerging(free, b))
  {
    var r, l := StartingAt(free, b.End()), EndingAt(free, b.addr);
    var m := Merged(free, b, r, l);
    MergingIs(free, b, r, l);
    MergeMembers(free, b, r, l);
    assert r < |free| ==> free[r] in free;
    assert l < |free| ==> free[l] in free;
    assert m.End() == if r < |free| then free[r].End() else b.End();
    assert m.addr == if l < |free| then free[l].addr else b.addr;
    forall x | x in free
      ensures m.End() != x.addr && x.End() != m.addr
    {
      var i :| 0 <= i < |free| && free[i] == x;
    }
    forall x | x in InsertMerging(free, b)
      ensures x in free || x == m
    {
      assert x in Members(InsertMerging(free, b));
    }
  }

  /** What both kinds of release share: `b` is outside the free list and the live blocks. */
  lemma MergeKeeps(free: seq<Block>, live: seq<Block>, b: Block, region: set<int>)
    requires Sizes(free) && Sizes(live) && ELEMENT <= b.size && NoDup(free) && NoDup(live)
    requires b !in free && b !in live && Members(free) !! Members(live)
    requires Tiling(Members(free) + Members(live) + {b}, region) && NoNeighbours(free)
    ensures Layout(InsertMerging(free, b), live, region)
    ensures NoNeighbours(InsertMerging(free, b))
    ensures TotalSize(InsertMerging(free, b)) == TotalSize(free) + b.size
  {
    var r, l := StartingAt(free, b.End()), EndingAt(free, b.addr);
    MergingIs(free, b, r, l);
    MergeLayout(free, live, b, region);
    MergedTiles(free, Members(live), b, r, l, region);
    MergeNoNeighbours(free, b);
    InsertMergingTotal(free, b);
  }

  /** `ptr` was handed out and not returned. */
  predicate Outstanding(h: Heap, ptr: int) {
    exists b :: b in h.live && b.addr == ptr - HEADER
  }

  lemma ReturnedBlock(h: Heap, ptr: int)
    requires Inv(h) && Outstanding(h, ptr)
    ensures var b := Block(ptr - HEADER, Lookup(h.header, ptr - HEADER));
      && b in h.live && 0 < b.addr
      && Members(Leave(h.live, b)) == Members(h.live) - {b} && NoDup(Leave(h.live, b))
      && TotalSize(Leave(h.live, b)) == TotalSize(h.live) - b.size
  {
    var b :| b in h.live && b.addr == ptr - HEADER;
    assert b in Members(h.free) + Members(h.live) && b.Holds(b.addr);
    LeaveMembers(h.live, b);
    TotalSizeRemove(h.live, IndexOf(h.live, b));
  }

  lemma FreeKeeps(h: Heap, ptr: int)
    requires Inv(h) && Outstanding(h, ptr)
    ensures Inv(Free(h, ptr))
  {
    var b := Block(ptr - HEADER, Lookup(h.header, ptr - HEADER));
    var live' := Leave(h.live, b);
    ReturnedBlock(h, ptr);
    assert Sizes(live') by {
      assert forall c :: c in live' ==> c in Members(live');
    }
    assert Members(h.free) + Members(live') + {b} == Members(h.free) + Members(h.live);
    assert b !in Members(live');
    MergeKeeps(h.free, live', b, h.region);
    assert Headers(live', h.header) by {
      assert forall c :: c in live' ==> c in Members(live');
    }
  }

  lemma {:induction false} AddressCount(b: Block)
    requires 0 <= b.size
    ensures |Addresses(b)| == b.size
    decreases b.size
  {
    if b.size == 0 {
      assert Addresses(b) == {};
    } else {
      var c := Block(b.addr, b.size - 1);
      AddressCount(c);
      assert Addresses(b) == Addresses(c) + {b.End() - 1};
    }
  }

  /** Giving the heap memory it does not have yet, next to its own or apart from it. */
  lemma SeedKeeps(h: Heap, ptr: int, bytes: int)
    requires Inv(h) && 0 <= ptr && Addresses(Block(ptr, bytes)) !! h.region
    ensures Inv(Seed(h, ptr, bytes))
  {
    if ptr != 0 && ELEMENT <= bytes {
      var b := Block(ptr, bytes);
      AddressCount(b);
      SeedTiles(h, b);
      assert |h.region + Addresses(b)| == |h.region| + |Addresses(b)|;
      MergeKeeps(h.free, h.live, b, h.region + Addresses(b));
    }
  }

  lemma SeedTiles(h: Heap, b: Block)
    requires Inv(h) && ELEMENT <= b.size && Addresses(b) !! h.region
    ensures b !in h.free && b !in h.live
    ensures Tiling(Members(h.free) + Members(h.live) + {b}, h.region + Addresses(b))
  {
    var all := Members(h.free) + Members(h.live);
    assert b.Holds(b.addr) && b.addr in Addresses(b);
    assert b !in all;
    TilingExtend(all, h.region, b);
  }

  lemma TilingExtend(all: set<Block>, region: set<int>, b: Block)
    requires Tiling(all, region) && 0 < b.size && Addresses(b) !! region && b !in all
    ensures Tiling(all + {b}, region + Addresses(b))
  {
    forall x | x in all
      ensures Apart(x, b)
    {
      var a := if x.addr < b.addr then b.addr else x.addr;
      assert x.Holds(a) ==> a in region;
      assert b.Holds(a) ==> a in Addresses(b);
    }
    forall a | a in region + Addresses(b)
      ensures exists x :: x in all + {b} && x.Holds(a)
    {
      if a in region {
        var x :| x in all && x.Holds(a);
        assert x in all + {b};
      } else {
        assert b.Holds(a) && b in all + {b};
      }
    }
  }

  // ----- Complete coalescing.

  /** Once everything is returned, each free block is a longest run of the heap's addresses. */
  lemma AllReturnedIsMaximal(h: Heap, x: Block)
    requires Inv(h) && h.live == [] && x in h.free
    ensures forall a :: x.Holds(a) ==> a in h.region
    ensures x.addr - 1 !in h.region && x.End() !in h.region
  {
    var all := Members(h.free) + Members(h.live);
    assert x in all && x.Holds(x.addr) && x.Holds(x.End() - 1);
    forall y | y in all
      ensures !y.Holds(x.addr - 1) && !y.Holds(x.End())
    {
      assert y in h.free && (y == x || Apart(x, y));
      assert x.End() != y.addr && y.End() != x.addr;
    }
  }

  /** A heap given one region is that region again once everything is returned. */
  lemma AllReturnedIsWhole(h: Heap, whole: Block)
    requires Inv(h) && h.live == [] && h.region == Addresses(whole) && 0 < whole.size
    ensures h.free == [whole]
  {
    var all := Members(h.free) + Members(h.live);
    assert whole.Holds(whole.addr) && whole.addr in h.region;
    var x :| x in all && x.Holds(whole.addr);
    assert x in h.free && (|h.free| == 1 || h.free[0] != h.free[1]);
    forall y | y in h.free
      ensures y == whole
    {
      RunIsWhole(h, y, whole);
    }
    assert forall i :: 0 <= i < |h.free| ==> h.free[i] in h.free;
  }

  lemma RunIsWhole(h: Heap, y: Block, whole: Block)
    requires Inv(h) && h.live == [] && h.region == Addresses(whole) && y in h.free
    ensures y == whole
  {
    AllReturnedIsMaximal(h, y);
    assert y.Holds(y.addr) && y.Holds(y.End() - 1);
    assert y.addr in h.region && y.End() - 1 in h.region;
    assert whole.Holds(y.addr) && whole.Holds(y.End() - 1);
    assert !whole.Holds(y.addr - 1) by {
      assert whole.Holds(y.addr - 1) ==> y.addr - 1 in Addresses(whole);
    }
    assert !whole.Holds(y.End()) by {
      assert whole.Holds(y.End()) ==> y.End() in Addresses(whole);
    }
  }

  // ----- What one call undoes.

  lemma LeaveLast(live: seq<Block>, b: Block)
    requires b !in live
    ensures Leave(live + [b], b) == live
  {
    var s := live + [b];
    var k := IndexOf(s, b);
    assert s[|live|] == b;
    assert forall i :: 0 <= i < |live| ==> s[i] == live[i];
  }

  /** Returning a block at once puts the free blocks back; unless the block had been a free
      block of its own, even the list is the same. */
  lemma FreeUndoesAlloc(h: Heap, bytes: nat)
    requires Inv(h)
    ensures var (g, ptr) := Alloc(h, bytes);
      ptr != 0 ==>
        var f := Free(g, ptr);
        && Outstanding(g, ptr)
        && Members(f.free) == Members(h.free)
        && f.live == h.live && f.grouped == h.grouped && f.region == h.region
        && (h.free[FirstFit(h.free, Need(bytes))].size != Need(bytes) ==> f.free == h.free)
  {
    var n := Need(bytes);
    var k := FirstFit(h.free, n);
    if bytes != 0 && k < |h.free| {
      LastBlock(h, bytes);
      FreeOfLast(Alloc(h, bytes).0, h.live, Top(h, k, n));
      MergeUndoesCarve(h, k, Top(h, k, n));
    }
  }

  lemma MergeUndoesCarve(h: Heap, k: nat, b: Block)
    requires Inv(h) && k < |h.free| && Fits(h.free[k], b.size) && ELEMENT <= b.size
    requires b.End() == h.free[k].End()
    ensures Sizes(Carve(h.free, k, b.size))
    ensures Members(InsertMerging(Carve(h.free, k, b.size), b)) == Members(h.free)
    ensures h.free[k].size != b.size ==> InsertMerging(Carve(h.free, k, b.size), b) == h.free
  {
    if h.free[k].size == b.size {
      assert h.free[k] == b;
      MergeUndoesExact(h.free, k);
    } else {
      OnlyRemainderTouches(h, k, b);
      MergeUndoesTop(h.free, k, b);
    }
  }

  lemma LastBlock(h: Heap, bytes: nat)
    requires Inv(h) && bytes != 0 && FirstFit(h.free, Need(bytes)) < |h.free|
    ensures var (g, ptr) := Alloc(h, bytes);
      var b := Block(ptr - HEADER, Need(bytes));
      && b !in h.live && 0 < b.addr && g.live == h.live + [b] && Sizes(g.free)
      && b == Top(h, FirstFit(h.free, Need(bytes)), Need(bytes))
  {
    var (g, ptr) := Alloc(h, bytes);
    var b := Block(ptr - HEADER, Need(bytes));
    AllocKeeps(h, bytes);
    assert b in g.live && b in Members(g.free) + Members(g.live) && b.Holds(b.addr);
    LastIsNew(h.live, b);
  }

  lemma FreeOfLast(g: Heap, live: seq<Block>, b: Block)
    requires g.live == live + [b] && b !in live && b.addr != 0 && ELEMENT <= b.size
    requires Lookup(g.header, b.addr) == b.size && Sizes(g.free)
    ensures Outstanding(g, b.addr + HEADER)
    ensures Free(g, b.addr + HEADER) ==
            g.(free := InsertMerging(g.free, b), grouped := g.grouped + b.size, live := live)
  {
    assert g.live[|live|] == b;
    LeaveLast(live, b);
  }

  lemma LastIsNew(live: seq<Block>, b: Block)
    requires NoDup(live + [b])
    ensures b !in live
  {
    var s := live + [b];
    assert forall i :: 0 <= i < |live| ==> s[i] != s[|live|];
    assert forall i :: 0 <= i < |live| ==> s[i] == live[i];
  }

  lemma MergeUndoesExact(free: seq<Block>, k: nat)
    requires Sizes(free) && NoDup(free) && NoNeighbours(free) && k < |free|
    ensures Sizes(RemoveAt(free, k))
    ensures Members(InsertMerging(RemoveAt(free, k), free[k])) == Members(free)
  {
    var x, rest := free[k], RemoveAt(free, k);
    RemoveAtMembers(free, k);
    assert x in free;
    forall y | y in rest
      ensures y in free && y.addr != x.End() && y.End() != x.addr
    {
      assert y in Members(rest);
    }
    assert forall i :: 0 <= i < |rest| ==> rest[i] in rest;
    MergingIs(rest, x, |rest|, |rest|);
    MergeApart(rest, x, |rest|);
    AppendMembers(rest, x);
  }

  lemma MergeUndoesTop(free: seq<Block>, k: nat, b: Block)
    requires Sizes(free) && NoNeighbours(free) && k < |free|
    requires ELEMENT <= b.size && ELEMENT + b.size <= free[k].size && b.End() == free[k].End()
    requires forall i :: 0 <= i < |free| && i != k ==> free[i].End() != b.addr
    ensures Sizes(Carve(free, k, b.size))
    ensures InsertMerging(Carve(free, k, b.size), b) == free
  {
    var x := free[k];
    var rest := free[k := Block(x.addr, x.size - b.size)];
    assert Carve(free, k, b.size) == rest && Sizes(rest);
    RemainderAlone(free, k, b, rest);
    hide InsertMerging, NoNeighbours, StartingAt, EndingAt;
    MergingIs(rest, b, |rest|, k);
    MergeLeft(rest, b, |rest|, k, rest, k, b.size);
    assert rest[k := x] == free;
  }

  /** Only what remains of the block touches what was taken off it. */
  lemma RemainderAlone(free: seq<Block>, k: nat, b: Block, rest: seq<Block>)
    requires NoNeighbours(free) && k < |free| && b.End() == free[k].End()
    requires forall i :: 0 <= i < |free| && i != k ==> free[i].End() != b.addr
    requires 0 < b.size < free[k].size && rest == free[k := Block(free[k].addr, free[k].size - b.size)]
    ensures StartingAt(rest, b.End()) == |rest| && EndingAt(rest, b.addr) == k
  {
    assert forall i :: 0 <= i < |free| ==> free[i] in free;
    assert rest[k].End() == b.addr;
    assert forall i :: 0 <= i < |rest| ==> rest[i].addr != b.End();
  }

  lemma OnlyRemainderTouches(h: Heap, k: nat, b: Block)
    requires Inv(h) && k < |h.free| && ELEMENT <= b.size < h.free[k].size
    requires b.End() == h.free[k].End()
    ensures forall i :: 0 <= i < |h.free| && i != k ==> h.free[i].End() != b.addr
  {
    var all := Members(h.free) + Members(h.live);
    assert h.free[k] in all;
    forall i | 0 <= i < |h.free| && i != k
      ensures h.free[i].End() != b.addr
    {
      assert h.free[i] in all && h.free[i] != h.free[k];
      assert Apart(h.free[i], h.free[k]);
    }
  }

  // ----- Requests that do not fit 32 bits.

  const WRAP := 0x1_0000_0000

  /** What the sum of request and size word is in 32 bits, and at least a link. */
  function WrappedNeed(bytes: nat): nat {
    var n := (bytes + HEADER) % WRAP;
    if n < ELEMENT then ELEMENT else n
  }

  /** The search with its own sum in 32 bits. */
  function WrappedFit(free: seq<Block>, s: nat): (k: nat)
    ensures k <= |free|
    ensures k < |free| ==> free[k].size == s || (ELEMENT + s) % WRAP <= free[k].size
    ensures forall i :: 0 <= i < k ==> free[i].size != s && free[i].size < (ELEMENT + s) % WRAP
  {
    if free == [] || free[0].size == s || (ELEMENT + s) % WRAP <= free[0].size then 0 else 1 + WrappedFit(free[1..], s)
  }

  /** `alloc` with every sum and difference of sizes in 32 bits. */
  function WrappedAlloc(h: Heap, bytes: nat): (Heap, int) {
    if bytes == 0 then (h, 0)
    else
      var n := WrappedNeed(bytes);
      var k := WrappedFit(h.free, n);
      if k == |h.free| then (h, 0) else (WrappedHandOut(h, k, n), WrappedTop(h, k, n) + HEADER)
  }

  /** Where the head of what is taken off block `k` starts. */
  function WrappedTop(h: Heap, k: nat, n: nat): int
    requires k < |h.free|
  {
    h.free[k].addr + (h.free[k].size - n) % WRAP
  }

  function WrappedHandOut(h: Heap, k: nat, n: nat): Heap
    requires k < |h.free|
  {
    var rest, b := (h.free[k].size - n) % WRAP, Block(WrappedTop(h, k, n), n);
    h.(free := if rest == 0 then RemoveAt(h.free, k) else h.free[k := Block(h.free[k].addr, rest)],
       grouped := (h.grouped - n) % WRAP, header := h.header[b.addr := n], live := h.live + [b])
  }

  /** No request is so large that a sum wraps, unless the wrong block happens to be the right one or
      there is none to take for it. */
  predicate Representable(h: Heap, bytes: nat) {
    || bytes <= MAX_REQUEST
    || (if bytes + HEADER < WRAP then h.free == [] || h.free[0].size == bytes + HEADER
        else forall b :: b in h.free ==> ELEMENT < b.size < 2 * ELEMENT)
  }

  /** The 32 bits of the code make no difference exactly to such requests; for any other one the
      caller gets fewer bytes than it asked for or a free block is spoiled. */
  lemma RepresentableIff(h: Heap, bytes: nat)
    requires Inv(h) && |h.region| < WRAP && bytes < WRAP
    ensures WrappedAlloc(h, bytes) == Alloc(h, bytes) <==> Representable(h, bytes)
  {
    hide WrappedAlloc, Alloc, WrappedFit;
    FreeBelow(h);
    assert Sizes(h.free);
    hide Inv;
    if bytes <= MAX_REQUEST {
      SmallIsServed(h, bytes);
    } else if bytes + HEADER < WRAP {
      OversizedTakesHead(h, bytes);
    } else {
      OversizedTakesLittle(h, bytes);
    }
  }

  /** A free block is no larger than the region, and neither is the grouped size. */
  lemma FreeBelow(h: Heap)
    requires Inv(h)
    ensures 0 <= h.grouped <= |h.region|
    ensures forall k :: 0 <= k < |h.free| ==> h.free[k].size <= h.grouped
  {
    TotalBounds(h.free);
    TotalBounds(h.live);
  }

  lemma {:induction false} TotalBounds(s: seq<Block>)
    requires Sizes(s)
    ensures 0 <= TotalSize(s)
    ensures forall k :: 0 <= k < |s| ==> s[k].size <= TotalSize(s)
  {
    if s != [] {
      var n := |s| - 1;
      assert s[n] in s && Sizes(s[..n]);
      TotalBounds(s[..n]);
      assert forall k :: 0 <= k < n ==> s[k] == s[..n][k];
    }
  }

  lemma SmallIsServed(h: Heap, bytes: nat)
    requires Sizes(h.free) && bytes <= MAX_REQUEST
    requires forall k :: 0 <= k < |h.free| ==> h.free[k].size <= h.grouped < WRAP
    ensures WrappedAlloc(h, bytes) == Alloc(h, bytes)
  {
    hide WrappedFit, FirstFit, WrappedHandOut, HandOut, WrappedTop, Top;
    WrappedIsFirst(h.free, Need(bytes));
    if bytes != 0 && FirstFit(h.free, Need(bytes)) < |h.free| {
      SameHandOut(h, FirstFit(h.free, Need(bytes)), Need(bytes));
    }
  }

  lemma SameHandOut(h: Heap, k: nat, n: nat)
    requires k < |h.free| && Fits(h.free[k], n) && h.free[k].size <= h.grouped < WRAP
    ensures Top(h, k, n).addr == WrappedTop(h, k, n) && HandOut(h, k, Top(h, k, n)) == WrappedHandOut(h, k, n)
  {
    hide RemoveAt;
    assert (h.free[k].size - n) % WRAP == h.free[k].size - n && (h.grouped - n) % WRAP == h.grouped - n;
  }

  lemma {:induction false} WrappedIsFirst(free: seq<Block>, n: nat)
    requires ELEMENT + n < WRAP
    ensures WrappedFit(free, n) == FirstFit(free, n)
  {
    if free != [] {
      WrappedIsFirst(free[1..], n);
    }
  }

  lemma OversizedTakesHead(h: Heap, bytes: nat)
    requires Sizes(h.free) && MAX_REQUEST < bytes < WRAP - HEADER
    requires forall k :: 0 <= k < |h.free| ==> h.free[k].size <= h.grouped < WRAP
    ensures WrappedAlloc(h, bytes) == Alloc(h, bytes) <==> h.free == [] || h.free[0].size == bytes + HEADER
  {
    var n := bytes + HEADER;
    assert WrappedNeed(bytes) == n == Need(bytes);
    if h.free != [] {
      assert h.free[0] in h.free;
      assert WrappedFit(h.free, n) == 0;
      if h.free[0].size == n {
        assert FirstFit(h.free, n) == 0;
        SameHandOut(h, 0, n);
      } else {
        HeadTaken(h, bytes, n);
      }
    }
  }

  lemma HeadTaken(h: Heap, bytes: nat, n: nat)
    requires h.free != [] && n == WrappedNeed(bytes) == Need(bytes) && bytes != 0 && n < WRAP
    requires WrappedFit(h.free, n) == 0 && FirstFit(h.free, n) != 0
    requires 0 <= h.free[0].size < WRAP && h.free[0].size != n
    ensures WrappedAlloc(h, bytes) != Alloc(h, bytes)
  {
    hide WrappedFit, FirstFit;
    var rest := (h.free[0].size - n) % WRAP;
    assert rest != 0 && rest != h.free[0].size;
    assert WrappedAlloc(h, bytes).0.free[0].size == rest;
    var k := FirstFit(h.free, n);
    if k < |h.free| {
      assert Carve(h.free, k, n)[0] == h.free[0];
      assert Alloc(h, bytes).0.free == Carve(h.free, k, n);
    } else {
      assert Alloc(h, bytes).0 == h;
    }
  }

  lemma OversizedTakesLittle(h: Heap, bytes: nat)
    requires Sizes(h.free) && WRAP - HEADER <= bytes < WRAP
    requires forall k :: 0 <= k < |h.free| ==> h.free[k].size <= h.grouped < WRAP
    ensures WrappedAlloc(h, bytes) == Alloc(h, bytes) <==>
            forall b :: b in h.free ==> ELEMENT < b.size < 2 * ELEMENT
  {
    hide WrappedNeed, WrappedFit, FirstFit, Need, WrappedHandOut, HandOut;
    HugeNeed(bytes);
    assert FirstFit(h.free, Need(bytes)) == |h.free|;
    var k := WrappedFit(h.free, ELEMENT);
    if k < |h.free| {
      assert h.free[k] in h.free;
      LittleTaken(h, bytes, k);
      hide WrappedAlloc, Alloc;
    } else {
      assert WrappedAlloc(h, bytes) == (h, 0) == Alloc(h, bytes);
      hide WrappedAlloc, Alloc;
      forall b | b in h.free
        ensures ELEMENT < b.size < 2 * ELEMENT
      {
        var i :| 0 <= i < |h.free| && h.free[i] == b;
      }
    }
  }

  lemma HugeNeed(bytes: nat)
    requires WRAP - HEADER <= bytes < WRAP
    ensures WrappedNeed(bytes) == ELEMENT && WRAP <= Need(bytes) && (ELEMENT + ELEMENT) % WRAP == 2 * ELEMENT
  {
    assert (bytes + HEADER) % WRAP == bytes + HEADER - WRAP;
  }

  lemma LittleTaken(h: Heap, bytes: nat, k: nat)
    requires WrappedNeed(bytes) == ELEMENT && bytes != 0 && k == WrappedFit(h.free, ELEMENT) < |h.free|
    requires FirstFit(h.free, Need(bytes)) == |h.free|
    ensures WrappedAlloc(h, bytes) != Alloc(h, bytes)
  {
    hide WrappedNeed, FirstFit, WrappedFit;
    assert |WrappedAlloc(h, bytes).0.live| == |h.live| + 1;
  }

  /** The free block `b` grew, or shrank until not even a link fits. */
  predicate Spoiled(b: Block, d: Block) {
    d.addr == b.addr && (b.size < d.size || d.size < ELEMENT)
  }

  /** What happens to any other request: the block handed out is too small for it, or the first free
      block grows over memory that is not its own or becomes too small to be one. */
  lemma OversizedHarms(h: Heap, bytes: nat)
    requires Inv(h) && |h.region| < WRAP && bytes < WRAP && !Representable(h, bytes)
    ensures var g := WrappedAlloc(h, bytes).0;
      && |g.live| == |h.live| + 1
      && (|| g.live[|h.live|].size < bytes
          || (h.free != [] && g.free != [] && Spoiled(h.free[0], g.free[0])))
  {
    FreeBelow(h);
    assert Sizes(h.free);
    hide Inv;
    if bytes + HEADER < WRAP {
      HeadGrows(h, bytes);
    } else {
      assert WrappedNeed(bytes) == ELEMENT;
      assert exists b :: b in h.free && (b.size == ELEMENT || 2 * ELEMENT <= b.size);
    }
  }

  lemma HeadGrows(h: Heap, bytes: nat)
    requires Sizes(h.free) && MAX_REQUEST < bytes < WRAP - HEADER
    requires h.free != [] && h.free[0].size <= h.grouped < WRAP && h.free[0].size != bytes + HEADER
    ensures var g := WrappedAlloc(h, bytes).0;
      |g.live| == |h.live| + 1 && g.free != [] && Spoiled(h.free[0], g.free[0])
  {
    var n := bytes + HEADER;
    assert h.free[0] in h.free;
    assert WrappedNeed(bytes) == n && WrappedFit(h.free, n) == 0;
    assert (h.free[0].size - n) % WRAP == if h.free[0].size < n then h.free[0].size - n + WRAP else h.free[0].size - n;
  }

  // ----- Runs.

  datatype Op = GiveOp(addr: int, size: int) | AllocOp(bytes: nat) | FreeOp(ptr: int)

  /** What the heap asks of its callers: memory is given once, and what is returned was
      handed out and not returned before. */
  ghost predicate Legal(h: Heap, op: Op) {
    match op
    case GiveOp(addr, size) => 0 <= addr && Addresses(Block(addr, size)) !! h.region
    case AllocOp(bytes) => bytes <= MAX_REQUEST
    case FreeOp(ptr) => Outstanding(h, ptr)
  }

  function Apply(h: Heap, op: Op): Heap
    requires Sizes(h.free)
  {
    match op
    case GiveOp(addr, size) => Seed(h, addr, size)
    case AllocOp(bytes) => Alloc(h, bytes).0
    case FreeOp(ptr) => Free(h, ptr)
  }

  lemma ApplyKeeps(h: Heap, op: Op)
    requires Inv(h) && Legal(h, op)
    ensures Inv(Apply(h, op))
  {
    match op
    case GiveOp(addr, size) => SeedKeeps(h, addr, size);
    case AllocOp(bytes) => AllocKeeps(h, bytes);
    case FreeOp(ptr) => FreeKeeps(h, ptr);
  }

  /** `trace` is a run: each state follows from the one before by a legal call. */
  ghost predicate IsRun(trace: seq<Heap>, ops: seq<Op>) {
    && |trace| == |ops| + 1
    && trace[0] == EMPTY
    && forall i :: 0 <= i < |ops| ==>
         Legal(trace[i], ops[i]) && (Sizes(trace[i].free) ==> trace[i + 1] == Apply(trace[i], ops[i]))
  }

  lemma EmptyInv()
    ensures Inv(EMPTY)
  {
    assert Members(EMPTY.free) + Members(EMPTY.live) == {};
  }

  /** Over every run: the blocks cut the region without overlap, no two free blocks touch, a
      link fits every free block, and the grouped size is the sum of the free sizes. */
  lemma {:induction false} RunKeeps(trace: seq<Heap>, ops: seq<Op>, n: nat)
    requires IsRun(trace, ops) && n < |trace|
    ensures Inv(trace[n])
  {
    if n == 0 {
      EmptyInv();
    } else {
      RunKeeps(trace, ops, n - 1);
      assert Sizes(trace[n - 1].free);
      ApplyKeeps(trace[n - 1], ops[n - 1]);
    }
  }

  lemma {:induction false} RunRegion(trace: seq<Heap>, ops: seq<Op>, n: nat)
    requires IsRun(trace, ops) && 1 <= n < |trace|
    requires forall i :: 1 <= i < |ops| ==> !ops[i].GiveOp?
    ensures trace[n].region == trace[1].region
  {
    if n > 1 {
      RunRegion(trace, ops, n - 1);
      RunKeeps(trace, ops, n - 1);
      assert Sizes(trace[n - 1].free);
      assert trace[n] == Apply(trace[n - 1], ops[n - 1]);
    }
  }

  /** Fragmentation never outlives the allocations: a heap given one region once holds that
      region as one block whenever nothing is outstanding, whatever happened before. */
  lemma FragmentationEnds(trace: seq<Heap>, ops: seq<Op>, n: nat, whole: Block)
    requires IsRun(trace, ops) && 1 <= n < |trace|
    requires ops[0] == GiveOp(whole.addr, whole.size) && whole.addr != 0 && ELEMENT <= whole.size
    requires forall i :: 1 <= i < |ops| ==> !ops[i].GiveOp?
    requires trace[n].live == []
    ensures trace[n].free == [whole] && trace[n].grouped == whole.size
  {
    RunKeeps(trace, ops, n);
    RunRegion(trace, ops, n);
    assert trace[1] == Seed(EMPTY, whole.addr, whole.size);
    assert trace[1].region == Addresses(whole);
    AllReturnedIsWhole(trace[n], whole);
    assert [whole][..0] == [];
  }
}
