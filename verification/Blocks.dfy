/** Blocks of memory and what the grouping list does to a sequence of free ones. */
module Blocks {
  import opened RankOrder

  datatype Block = Block(addr: int, size: int) {
    function End(): int { addr + size }
    predicate Holds(a: int) { addr <= a < addr + size }
  }

  /** The size of the link a free block keeps inside itself: object, size, prev and next. */
  const ELEMENT := 16

  predicate Fits(b: Block, s: int) {
    b.size == s || ELEMENT + s <= b.size
  }

  /** First fit: an exact block, or one whose remainder still holds a link. */
  function FirstFit(free: seq<Block>, s: int): (k: nat)
    ensures k <= |free|
    ensures k < |free| ==> Fits(free[k], s)
    ensures forall i :: 0 <= i < k ==> !Fits(free[i], s)
  {
    if free == [] || Fits(free[0], s) then 0 else 1 + FirstFit(free[1..], s)
  }

  function StartingAt(free: seq<Block>, a: int): (k: nat)
    ensures k <= |free|
    ensures k < |free| ==> free[k].addr == a
    ensures forall i :: 0 <= i < k ==> free[i].addr != a
  {
    if free == [] || free[0].addr == a then 0 else 1 + StartingAt(free[1..], a)
  }

  function EndingAt(free: seq<Block>, a: int): (k: nat)
    ensures k <= |free|
    ensures k < |free| ==> free[k].End() == a
    ensures forall i :: 0 <= i < k ==> free[i].End() != a
  {
    if free == [] || free[0].End() == a then 0 else 1 + EndingAt(free[1..], a)
  }

  /** Taking `s` bytes off the top of block `k`, which leaves the list when nothing remains. */
  function Carve(free: seq<Block>, k: nat, s: int): seq<Block>
    requires k < |free|
  {
    if free[k].size == s then RemoveAt(free, k)
    else free[k := Block(free[k].addr, free[k].size - s)]
  }

  /** A returned block joins its neighbours: it grows over the one on its right, which leaves
      the list, and the one on its left grows over both. */
  function InsertMerging(free: seq<Block>, b: Block): seq<Block>
    requires b.size > 0 && forall x :: x in free ==> 0 <= x.size
  {
    var r, l := StartingAt(free, b.End()), EndingAt(free, b.addr);
    NeighboursDiffer(free, b);
    Merge(free, b, r, l)
  }

  lemma MergingIs(free: seq<Block>, b: Block, r: nat, l: nat)
    requires b.size > 0 && forall x :: x in free ==> 0 <= x.size
    requires r == StartingAt(free, b.End()) && l == EndingAt(free, b.addr)
    ensures r == l ==> r == |free|
    ensures InsertMerging(free, b) == Merge(free, b, r, l)
  {
    NeighboursDiffer(free, b);
  }

  lemma NeighboursDiffer(free: seq<Block>, b: Block)
    requires b.size > 0 && forall x :: x in free ==> 0 <= x.size
    ensures var r := StartingAt(free, b.End());
            r == EndingAt(free, b.addr) ==> r == |free|
  {
    var r := StartingAt(free, b.End());
    if r < |free| {
      assert free[r] in free;
    }
  }

  /** `r` and `l` are the places of the right and the left neighbour, past the end for none. */
  function Merge(free: seq<Block>, b: Block, r: nat, l: nat): seq<Block>
    requires r <= |free| && l <= |free|
    requires r == l ==> r == |free|
  {
    var size := if r < |free| then b.size + free[r].size else b.size;
    var grown := if l < |free| then free[l := Block(free[l].addr, free[l].size + size)]
                 else free + [Block(b.addr, size)];
    if r < |free| then RemoveAt(grown, r) else grown
  }

  lemma MergeApart(free: seq<Block>, b: Block, r: nat)
    requires r <= |free|
    ensures Merge(free, b, r, |free|) ==
            if r < |free| then RemoveAt(free + [Block(b.addr, b.size + free[r].size)], r)
            else free + [b]
  {}

  /** With a left neighbour: the right one leaves first, then the left one grows. */
  lemma MergeLeft(free: seq<Block>, b: Block, r: nat, l: nat, rest: seq<Block>, k: nat, size: int)
    requires r <= |free| && l < |free| && r != l
    requires rest == if r < |free| then RemoveAt(free, r) else free
    requires k == if r < l then l - 1 else l
    requires size == b.size + if r < |free| then free[r].size else 0
    ensures k < |rest| && rest[k] == free[l]
    ensures Merge(free, b, r, l) == rest[k := Block(rest[k].addr, rest[k].size + size)]
  {}

  function TotalSize(free: seq<Block>): int {
    if free == [] then 0 else TotalSize(free[..|free| - 1]) + free[|free| - 1].size
  }

  lemma {:induction false} TotalSizeUpdate(free: seq<Block>, k: nat, b: Block)
    requires k < |free|
    ensures TotalSize(free[k := b]) == TotalSize(free) - free[k].size + b.size
  {
    var n := |free| - 1;
    if k < n {
      assert free[k := b][..n] == free[..n][k := b];
      TotalSizeUpdate(free[..n], k, b);
    } else {
      assert free[k := b][..n] == free[..n];
    }
  }

  lemma {:induction false} TotalSizeRemove(free: seq<Block>, k: nat)
    requires k < |free|
    ensures TotalSize(RemoveAt(free, k)) == TotalSize(free) - free[k].size
  {
    var n := |free| - 1;
    if k < n {
      assert RemoveAt(free, k)[..n - 1] == RemoveAt(free[..n], k);
      TotalSizeRemove(free[..n], k);
    } else {
      assert RemoveAt(free, k) == free[..n];
    }
  }

  /** Carving and merging account for every byte. */
  lemma CarveTotal(free: seq<Block>, k: nat, s: int)
    requires k < |free|
    ensures TotalSize(Carve(free, k, s)) == TotalSize(free) - s
  {
    if free[k].size == s {
      TotalSizeRemove(free, k);
    } else {
      TotalSizeUpdate(free, k, Block(free[k].addr, free[k].size - s));
    }
  }

  lemma InsertMergingTotal(free: seq<Block>, b: Block)
    requires b.size > 0 && forall x :: x in free ==> 0 <= x.size
    ensures TotalSize(InsertMerging(free, b)) == TotalSize(free) + b.size
  {
    hide TotalSize, StartingAt, EndingAt;
    var r, l := StartingAt(free, b.End()), EndingAt(free, b.addr);
    NeighboursDiffer(free, b);
    MergeTotal(free, b, r, l);
  }

  lemma MergeTotal(free: seq<Block>, b: Block, r: nat, l: nat)
    requires r <= |free| && l <= |free| && (r == l ==> r == |free|)
    ensures TotalSize(Merge(free, b, r, l)) == TotalSize(free) + b.size
  {
    hide TotalSize, RemoveAt;
    if r < |free| && l < |free| {
      var grown := free[l := Block(free[l].addr, free[l].size + b.size + free[r].size)];
      TotalSizeUpdate(free, l, grown[l]);
      TotalSizeRemove(grown, r);
    } else if l < |free| {
      TotalSizeUpdate(free, l, Block(free[l].addr, free[l].size + b.size));
    } else if r < |free| {
      AppendTotal(free, Block(b.addr, b.size + free[r].size));
      TotalSizeRemove(free + [Block(b.addr, b.size + free[r].size)], r);
    } else {
      AppendTotal(free, b);
    }
  }

  lemma AppendTotal(free: seq<Block>, b: Block)
    ensures TotalSize(free + [b]) == TotalSize(free) + b.size
  {
    assert (free + [b])[..|free|] == free;
  }

  // ----- The order of the list, in which blocks are tried.

  /** Carving leaves the others in their order, and what remains of the block in its place. */
  lemma CarveOrder(free: seq<Block>, k: nat, s: int, i: nat, j: nat)
    requires k < |free| && i < j < |free|
    ensures i != k && j != k ==> Before(Carve(free, k, s), free[i], free[j])
    ensures free[k].size != s ==>
              var left := Block(free[k].addr, free[k].size - s);
              && (j == k ==> Before(Carve(free, k, s), free[i], left))
              && (i == k ==> Before(Carve(free, k, s), left, free[j]))
  {
    var d := Carve(free, k, s);
    if free[k].size == s {
      if i != k && j != k {
        assert d[if i < k then i else i - 1] == free[i] && d[if j < k then j else j - 1] == free[j];
      }
    } else {
      assert d[i] == (if i == k then Block(free[k].addr, free[k].size - s) else free[i]);
      assert d[j] == (if j == k then Block(free[k].addr, free[k].size - s) else free[j]);
    }
  }

  /** Merging leaves the others in their order; a block with a left neighbour takes its place. */
  lemma MergeOrder(free: seq<Block>, b: Block, r: nat, l: nat, i: nat, j: nat)
    requires r <= |free| && l <= |free| && (r == l ==> r == |free|) && i < j < |free| && i != r && j != r
    ensures i != l && j != l ==> Before(Merge(free, b, r, l), free[i], free[j])
    ensures var size := b.size + if r < |free| then free[r].size else 0;
      l < |free| ==>
        var grown := Block(free[l].addr, free[l].size + size);
        && (j == l ==> Before(Merge(free, b, r, l), free[i], grown))
        && (i == l ==> Before(Merge(free, b, r, l), grown, free[j]))
  {
    var d := Merge(free, b, r, l);
    var size := b.size + if r < |free| then free[r].size else 0;
    var m, n := if i < r then i else i - 1, if j < r then j else j - 1;
    assert m < n < |d|;
    assert d[m] == (if i == l then Block(free[l].addr, free[l].size + size) else free[i]);
    assert d[n] == (if j == l then Block(free[l].addr, free[l].size + size) else free[j]);
  }

  /** One without goes behind all others, to be tried last. */
  lemma MergeLast(free: seq<Block>, b: Block, r: nat, i: nat)
    requires r <= |free| && i < |free| && i != r
    ensures Before(Merge(free, b, r, |free|), free[i], Block(b.addr, b.size + if r < |free| then free[r].size else 0))
  {
    var d := Merge(free, b, r, |free|);
    assert d[if i < r then i else i - 1] == free[i];
    assert d[|d| - 1] == Block(b.addr, b.size + if r < |free| then free[r].size else 0);
  }
}
