/** What `Heap_Common` does to its free list, and what every sequence of allocations and
    releases keeps. */
module HeapModel {
  import opened RankOrder
  import opened Blocks

  /** The size word kept below every block handed out. */
  const HEADER := 4

  /** The largest request for which the search does not overflow 32 bits. */
  const MAX_REQUEST := 0xFFFF_FFEB

  /** `header` is the memory word at each address a block was carved at. `live` are the
      blocks handed out and not yet returned and `region` the addresses the heap was given;
      the program keeps neither. */
  datatype Heap = Heap(free: seq<Block>, grouped: int, header: map<int, int>,
                       live: seq<Block>, region: set<int>)

  const EMPTY := Heap([], 0, map[], [], {})

  function Addresses(b: Block): set<int> {
    set a | b.addr <= a < b.End() && b.Holds(a)
  }

  function Members(s: seq<Block>): set<Block> {
    set b | b in s
  }

  // ----- The operations.

  function Need(bytes: nat): nat {
    if bytes + HEADER < ELEMENT then ELEMENT else bytes + HEADER
  }

  /** The second component is the address returned, 0 for none. */
  function Alloc(h: Heap, bytes: nat): (Heap, int) {
    if bytes == 0 then (h, 0)
    else
      var n := Need(bytes);
      var k := FirstFit(h.free, n);
      if k == |h.free| then (h, 0)
      else
        var b := Top(h, k, n);
        (HandOut(h, k, b), b.addr + HEADER)
  }

  function Top(h: Heap, k: nat, n: int): Block
    requires k < |h.free|
  {
    Block(h.free[k].End() - n, n)
  }

  function HandOut(h: Heap, k: nat, b: Block): Heap
    requires k < |h.free|
  {
    h.(free := Carve(h.free, k, b.size), grouped := h.grouped - b.size,
       header := h.header[b.addr := b.size], live := h.live + [b])
  }

  predicate Sizes(s: seq<Block>) {
    forall b :: b in s ==> ELEMENT <= b.size
  }

  /** `free(ptr, bytes)`: too small a block cannot hold a link and is dropped. */
  function FreeBlock(h: Heap, ptr: int, bytes: int): Heap
    requires Sizes(h.free)
  {
    if ptr != 0 && ELEMENT <= bytes then
      h.(free := InsertMerging(h.free, Block(ptr, bytes)), grouped := h.grouped + bytes)
    else h
  }

  /** `free(ptr)`: the size comes from the word below. */
  function Free(h: Heap, ptr: int): Heap
    requires Sizes(h.free)
  {
    var b := Block(ptr - HEADER, Lookup(h.header, ptr - HEADER));
    FreeBlock(h, b.addr, b.size).(live := Leave(h.live, b))
  }

  /** The heap is given a region: `free(ptr, bytes)` of memory it never handed out. */
  function Seed(h: Heap, ptr: int, bytes: int): Heap
    requires Sizes(h.free)
  {
    var g := FreeBlock(h, ptr, bytes);
    if ptr != 0 && ELEMENT <= bytes then g.(region := h.region + Addresses(Block(ptr, bytes))) else g
  }

  // ----- The invariant.

  predicate Apart(x: Block, y: Block) {
    x.End() <= y.addr || y.End() <= x.addr
  }

  /** The blocks cut the region into pieces: each address lies in exactly one. */
  ghost predicate Tiling(bs: set<Block>, region: set<int>) {
    && (forall x :: x in bs ==> 0 < x.size)
    && (forall x, y :: x in bs && y in bs && x != y ==> Apart(x, y))
    && (forall x, a :: x in bs && x.Holds(a) ==> a in region)
    && (forall a :: a in region ==> exists x :: x in bs && x.Holds(a))
  }

  ghost predicate NoNeighbours(free: seq<Block>) {
    forall x, y :: x in free && y in free ==> x.End() != y.addr
  }

  /** Free and live blocks, none repeated, cut the region into pieces. */
  ghost predicate Layout(free: seq<Block>, live: seq<Block>, region: set<int>) {
    && Sizes(free) && Sizes(live)
    && NoDup(free) && NoDup(live) && Members(free) !! Members(live)
    && Tiling(Members(free) + Members(live), region)
  }

  ghost predicate Accounts(h: Heap) {
    && h.grouped == TotalSize(h.free)
    && h.grouped + TotalSize(h.live) == |h.region|
  }

  ghost predicate Headers(live: seq<Block>, header: map<int, int>) {
    forall b :: b in live ==> Lookup(header, b.addr) == b.size
  }

  ghost predicate Inv(h: Heap) {
    && Layout(h.free, h.live, h.region)
    && NoNeighbours(h.free)
    && Accounts(h)
    && Headers(h.live, h.header)
    && (forall a :: a in h.region ==> 0 < a)
  }

  lemma TilingSplit(bs: set<Block>, region: set<int>, x: Block, cut: int)
    requires Tiling(bs, region) && x in bs && x.addr < cut < x.End()
    ensures Tiling(bs - {x} + {Block(x.addr, cut - x.addr), Block(cut, x.End() - cut)}, region)
    ensures Block(x.addr, cut - x.addr) !in bs && Block(cut, x.End() - cut) !in bs
  {
    var lo, hi := Block(x.addr, cut - x.addr), Block(cut, x.End() - cut);
    var parts := bs - {x} + {lo, hi};
    assert x.Holds(x.addr) && x.Holds(cut);
    forall y | y in bs && y != x
      ensures Apart(y, lo) && Apart(lo, y) && Apart(y, hi) && Apart(hi, y)
    {
      assert Apart(x, y) && 0 < y.size;
    }
    forall a | a in region
      ensures exists y :: y in parts && y.Holds(a)
    {
      var y :| y in bs && y.Holds(a);
      assert if y != x then y in parts else lo.Holds(a) || hi.Holds(a);
      assert lo in parts && hi in parts;
    }
    assert forall a :: lo.Holds(a) || hi.Holds(a) ==> x.Holds(a);
  }

  lemma TilingJoin(bs: set<Block>, region: set<int>, lo: Block, hi: Block)
    requires Tiling(bs, region) && lo in bs && hi in bs && lo.End() == hi.addr
    ensures Tiling(bs - {lo, hi} + {Block(lo.addr, lo.size + hi.size)}, region)
    ensures Block(lo.addr, lo.size + hi.size) !in bs
  {
    var x := Block(lo.addr, lo.size + hi.size);
    var joined := bs - {lo, hi} + {x};
    forall a | a in region
      ensures exists y :: y in joined && y.Holds(a)
    {
      var y :| y in bs && y.Holds(a);
      if y == lo || y == hi {
        assert x.Holds(a);
      } else {
        assert y in joined;
      }
    }
    forall y, a | y in joined && y.Holds(a)
      ensures a in region
    {
      if y == x {
        assert lo.Holds(a) || hi.Holds(a);
      }
    }
    forall y, z | y in joined && z in joined && y != z
      ensures Apart(y, z)
    {
      assert forall w :: w in bs && w != lo && w != hi ==> Apart(w, lo) && Apart(w, hi);
    }
  }

  // ----- What the list operations do to the set of blocks.

  lemma RemoveAtMembers(s: seq<Block>, k: nat)
    requires NoDup(s) && k < |s|
    ensures NoDup(RemoveAt(s, k)) && Members(RemoveAt(s, k)) == Members(s) - {s[k]}
  {
    var r := RemoveAt(s, k);
    forall x | x in Members(s) - {s[k]}
      ensures x in r
    {
      var i :| 0 <= i < |s| && s[i] == x;
      assert r[if i < k then i else i - 1] == x;
    }
  }

  lemma UpdateMembers(s: seq<Block>, k: nat, b: Block)
    requires NoDup(s) && k < |s| && b !in s
    ensures NoDup(s[k := b]) && Members(s[k := b]) == Members(s) - {s[k]} + {b}
  {
    var r := s[k := b];
    assert r[k] == b;
    forall x | x in Members(s) - {s[k]}
      ensures x in r
    {
      var i :| 0 <= i < |s| && s[i] == x;
      assert r[i] == x;
    }
  }

  lemma AppendMembers(s: seq<Block>, b: Block)
    requires NoDup(s) && b !in s
    ensures NoDup(s + [b]) && Members(s + [b]) == Members(s) + {b}
  {}

  /** The set left by a merge: neighbours and block give way to what they make together. */
  lemma MergeMembers(free: seq<Block>, b: Block, r: nat, l: nat)
    requires NoDup(free) && r <= |free| && l <= |free|
    requires r == l ==> r == |free|
    requires Merged(free, b, r, l) !in free
    ensures NoDup(Merge(free, b, r, l))
    ensures Members(Merge(free, b, r, l)) ==
            Members(free) - Neighbours(free, r, l) + {Merged(free, b, r, l)}
  {
    var m := Merged(free, b, r, l);
    var grown := if l < |free| then free[l := m] else free + [m];
    if l < |free| {
      UpdateMembers(free, l, m);
    } else {
      AppendMembers(free, m);
    }
    if r < |free| {
      RemoveAtMembers(grown, r);
    }
  }

  function Neighbours(free: seq<Block>, r: nat, l: nat): set<Block> {
    (if r < |free| then {free[r]} else {}) + (if l < |free| then {free[l]} else {})
  }

  /** The block made of `b` and its neighbours. */
  function Merged(free: seq<Block>, b: Block, r: nat, l: nat): Block {
    var size := b.size + if r < |free| then free[r].size else 0;
    if l < |free| then Block(free[l].addr, free[l].size + size) else Block(b.addr, size)
  }
}
