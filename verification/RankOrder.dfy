/** The order every ranked list of the system keeps: ascending rank, and behind the elements
    of the same rank that were there first. The lists built from pointers, the kernel's ready
    list and wait queues and the alarm queue are all specified with these functions. */
module RankOrder {

  /** The index a new element of rank `r` takes: that of the first element ranked above it. */
  function Position(ranks: seq<int>, r: int): (p: nat)
    ensures p <= |ranks|
    ensures forall i :: 0 <= i < p ==> ranks[i] <= r
    ensures p < |ranks| ==> r < ranks[p]
  {
    if ranks == [] || r < ranks[0] then 0 else 1 + Position(ranks[1..], r)
  }

  function InsertAt<T>(s: seq<T>, p: nat, x: T): seq<T>
    requires p <= |s|
  {
    s[..p] + [x] + s[p..]
  }

  function RemoveAt<T>(s: seq<T>, p: nat): seq<T>
    requires p < |s|
  {
    s[..p] + s[p + 1..]
  }

  predicate Sorted(ranks: seq<int>) {
    forall i, j :: 0 <= i < j < |ranks| ==> ranks[i] <= ranks[j]
  }

  predicate NoDup<T(==)>(s: seq<T>) {
    forall i, j :: 0 <= i < j < |s| ==> s[i] != s[j]
  }

  lemma PositionIsFirst(ranks: seq<int>, r: int, p: nat)
    requires p <= |ranks|
    requires forall i :: 0 <= i < p ==> ranks[i] <= r
    requires p < |ranks| ==> r < ranks[p]
    ensures Position(ranks, r) == p
  {}

  lemma InsertSorted(ranks: seq<int>, r: int)
    requires Sorted(ranks)
    ensures Sorted(InsertAt(ranks, Position(ranks, r), r))
  {}

  lemma RemoveSorted(ranks: seq<int>, p: nat)
    requires Sorted(ranks) && p < |ranks|
    ensures Sorted(RemoveAt(ranks, p))
  {}

  lemma InsertNoDup<T>(s: seq<T>, p: nat, x: T)
    requires NoDup(s) && x !in s && p <= |s|
    ensures NoDup(InsertAt(s, p, x))
  {}

  /** Ranks as the relative list stores them are differences; their running sums are the
      ranks the elements were given. */
  function Sum(s: seq<int>): int {
    if s == [] then 0 else Sum(s[..|s| - 1]) + s[|s| - 1]
  }

  function RunningSums(deltas: seq<int>): (abs: seq<int>)
    ensures |abs| == |deltas|
    ensures forall i :: 0 <= i < |deltas| ==> abs[i] == Sum(deltas[..i + 1])
  {
    seq(|deltas|, i requires 0 <= i < |deltas| => Sum(deltas[..i + 1]))
  }

  /** The ranks left by the relative insertion: the newcomer stores its distance from its
      predecessor and its successor stores its distance from the newcomer. */
  function InsertDelta(deltas: seq<int>, p: nat, r: int): seq<int>
    requires p <= |deltas|
  {
    var d := r - Sum(deltas[..p]);
    if p == |deltas| then deltas + [d]
    else deltas[..p] + [d] + [deltas[p] - d] + deltas[p + 1..]
  }

  function RemoveDelta(deltas: seq<int>, p: nat): seq<int>
    requires p < |deltas|
  {
    if p + 1 == |deltas| then deltas[..p]
    else deltas[..p] + [deltas[p] + deltas[p + 1]] + deltas[p + 2..]
  }

  lemma SumNext(s: seq<int>, i: nat)
    requires i < |s|
    ensures Sum(s[..i + 1]) == Sum(s[..i]) + s[i]
  {
    assert s[..i + 1][..i] == s[..i];
  }

  /** Inserting into differences inserts into the running sums, and nothing else moves. */
  lemma {:induction false} InsertDeltaRefines(deltas: seq<int>, p: nat, r: int)
    requires p <= |deltas|
    ensures RunningSums(InsertDelta(deltas, p, r)) == InsertAt(RunningSums(deltas), p, r)
  {
    var after := InsertDelta(deltas, p, r);
    var want := InsertAt(RunningSums(deltas), p, r);
    forall i | 0 <= i < |after|
      ensures Sum(after[..i + 1]) == want[i]
    {
      if i < p {
        assert after[..i + 1] == deltas[..i + 1];
      } else if i == p {
        assert after[..i + 1][..i] == deltas[..p];
      } else {
        InsertDeltaBehind(deltas, p, r, i);
      }
    }
    assert forall i :: 0 <= i < |after| ==> RunningSums(after)[i] == want[i];
  }

  /** The two writes of the relative insertion, one after the other. */
  lemma InsertedRanks(deltas: seq<int>, mid: seq<int>, after: seq<int>, p: nat, r: int)
    requires p <= |deltas|
    requires var d := r - Sum(deltas[..p]);
      && mid == (if p < |deltas| then deltas[p := deltas[p] - d] else deltas)
      && after == InsertAt(mid, p, d)
    ensures RunningSums(after) == InsertAt(RunningSums(deltas), p, r)
  {
    assert after == InsertDelta(deltas, p, r);
    InsertDeltaRefines(deltas, p, r);
  }

  lemma {:induction false} InsertDeltaBehind(deltas: seq<int>, p: nat, r: int, i: nat)
    requires p < i <= |deltas|
    ensures Sum(InsertDelta(deltas, p, r)[..i + 1]) == Sum(deltas[..i])
    decreases i
  {
    var after := InsertDelta(deltas, p, r);
    SumNext(after, i);
    SumNext(deltas, i - 1);
    if i > p + 1 {
      InsertDeltaBehind(deltas, p, r, i - 1);
    } else {
      SumNext(after, p);
      assert after[..p] == deltas[..p];
    }
  }

  /** Removing an element and handing its difference to its successor leaves every other
      running sum as it was. */
  lemma {:induction false} RemoveDeltaRefines(deltas: seq<int>, p: nat)
    requires p < |deltas|
    ensures RunningSums(RemoveDelta(deltas, p)) == RemoveAt(RunningSums(deltas), p)
  {
    var after := RemoveDelta(deltas, p);
    forall i | 0 <= i < |after|
      ensures RunningSums(after)[i] == RemoveAt(RunningSums(deltas), p)[i]
    {
      if i < p {
        assert after[..i + 1] == deltas[..i + 1];
      } else {
        RemoveDeltaBehind(deltas, p, i);
      }
    }
  }

  lemma {:induction false} RemoveDeltaBehind(deltas: seq<int>, p: nat, i: nat)
    requires p <= i < |deltas| - 1
    ensures Sum(RemoveDelta(deltas, p)[..i + 1]) == Sum(deltas[..i + 2])
    decreases i
  {
    var after := RemoveDelta(deltas, p);
    SumNext(after, i);
    SumNext(deltas, i + 1);
    if i > p {
      RemoveDeltaBehind(deltas, p, i - 1);
    } else {
      SumNext(deltas, p);
      assert after[..p] == deltas[..p];
    }
  }

  /** The two writes of the relative removal, one after the other. */
  lemma RemovedRanks(deltas: seq<int>, after: seq<int>, p: nat)
    requires p < |deltas|
    requires after == if p + 1 == |deltas| then RemoveAt(deltas, p)
                      else RemoveAt(deltas, p)[p := deltas[p] + deltas[p + 1]]
    ensures RunningSums(after) == RemoveAt(RunningSums(deltas), p)
  {
    assert after == RemoveDelta(deltas, p);
    RemoveDeltaRefines(deltas, p);
  }

  function Less(s: seq<int>, n: int): (r: seq<int>)
    ensures |r| == |s| && forall i :: 0 <= i < |s| ==> r[i] == s[i] - n
  {
    seq(|s|, i requires 0 <= i < |s| => s[i] - n)
  }

  /** Lowering the first difference lowers every running sum. */
  lemma {:induction false} PromotedRanks(deltas: seq<int>, n: int)
    requires deltas != []
    ensures RunningSums(deltas[0 := deltas[0] - n]) == Less(RunningSums(deltas), n)
  {
    forall i | 0 <= i < |deltas|
      ensures RunningSums(deltas[0 := deltas[0] - n])[i] == RunningSums(deltas)[i] - n
    {
      PromotedSum(deltas, n, i);
    }
  }

  lemma {:induction false} PromotedSum(deltas: seq<int>, n: int, i: nat)
    requires i < |deltas|
    ensures Sum(deltas[0 := deltas[0] - n][..i + 1]) == Sum(deltas[..i + 1]) - n
  {
    SumNext(deltas[0 := deltas[0] - n], i);
    SumNext(deltas, i);
    if i > 0 {
      PromotedSum(deltas, n, i - 1);
    }
  }

  /** Dropping the first difference lowers what remains by it: nobody takes it over. */
  lemma {:induction false} HeadlessRanks(deltas: seq<int>)
    requires deltas != []
    ensures RunningSums(deltas[1..]) == Less(RunningSums(deltas)[1..], deltas[0])
    ensures RunningSums(deltas)[0] == deltas[0]
  {
    SumNext(deltas, 0);
    forall i | 0 <= i < |deltas| - 1
      ensures RunningSums(deltas[1..])[i] == Less(RunningSums(deltas)[1..], deltas[0])[i]
    {
      HeadlessSum(deltas, i);
    }
  }

  lemma {:induction false} HeadlessSum(deltas: seq<int>, i: nat)
    requires i + 1 < |deltas|
    ensures Sum(deltas[1..][..i + 1]) == Sum(deltas[..i + 2]) - deltas[0]
  {
    SumNext(deltas[1..], i);
    SumNext(deltas, i + 1);
    SumNext(deltas, 0);
    if i > 0 {
      HeadlessSum(deltas, i - 1);
    }
  }

  /** Differences are never negative exactly when the running sums ascend from zero. */
  lemma {:induction false} DeltasNonNegative(deltas: seq<int>)
    ensures (forall i :: 0 <= i < |deltas| ==> 0 <= deltas[i])
       <==> Sorted([0] + RunningSums(deltas))
  {
    var abs := RunningSums(deltas);
    var ext := [0] + abs;
    forall i | 0 <= i < |deltas|
      ensures ext[i + 1] == ext[i] + deltas[i]
    {
      assert deltas[..i + 1][..i] == deltas[..i];
      assert ext[i + 1] == abs[i] == Sum(deltas[..i]) + deltas[i];
      if i > 0 {
        assert ext[i] == abs[i - 1] == Sum(deltas[..i]);
      }
    }
    if forall i :: 0 <= i < |deltas| ==> 0 <= deltas[i] {
      forall i, j | 0 <= i < j < |ext|
        ensures ext[i] <= ext[j]
      {
        StepsAscend(ext, deltas, i, j);
      }
    } else {
      var i :| 0 <= i < |deltas| && deltas[i] < 0;
      assert ext[i + 1] < ext[i];
    }
  }

  lemma {:induction false} StepsAscend(ext: seq<int>, deltas: seq<int>, i: nat, j: nat)
    requires |ext| == |deltas| + 1 && i <= j < |ext|
    requires forall k :: 0 <= k < |deltas| ==> 0 <= deltas[k]
    requires forall k :: 0 <= k < |deltas| ==> ext[k + 1] == ext[k] + deltas[k]
    ensures ext[i] <= ext[j]
    decreases j - i
  {
    if i < j {
      StepsAscend(ext, deltas, i, j - 1);
      assert ext[(j - 1) + 1] == ext[j - 1] + deltas[j - 1];
    }
  }

  // ----- Sequences of objects whose ranks are looked up: ready lists and wait queues.

  function Lookup<T>(rank: map<T, int>, x: T): int {
    if x in rank then rank[x] else 0
  }

  function RanksOf<T>(s: seq<T>, rank: map<T, int>): (rs: seq<int>)
    ensures |rs| == |s|
  {
    seq(|s|, i requires 0 <= i < |s| => Lookup(rank, s[i]))
  }

  /** Where a ranked insertion puts `x`. */
  function Enter<T>(s: seq<T>, x: T, rank: map<T, int>): (r: seq<T>) {
    InsertAt(s, Position(RanksOf(s, rank), Lookup(rank, x)), x)
  }

  function IndexOf<T(==)>(s: seq<T>, x: T): (k: nat)
    ensures k <= |s|
    ensures k < |s| ==> s[k] == x
    ensures forall i :: 0 <= i < k ==> s[i] != x
  {
    if s == [] || s[0] == x then 0 else 1 + IndexOf(s[1..], x)
  }

  /** Removal by object, harmless when the object is not there. */
  function Leave<T(==)>(s: seq<T>, x: T): seq<T> {
    var k := IndexOf(s, x);
    if k < |s| then RemoveAt(s, k) else s
  }

  ghost predicate SortedBy<T>(s: seq<T>, rank: map<T, int>) {
    forall i, j :: 0 <= i < j < |s| ==> Lookup(rank, s[i]) <= Lookup(rank, s[j])
  }

  lemma InsertMembers<T>(s: seq<T>, p: nat, x: T)
    requires p <= |s|
    ensures forall y :: y in InsertAt(s, p, x) <==> y == x || y in s
  {
    var r := InsertAt(s, p, x);
    assert r[p] == x;
    forall y | y in s
      ensures y in r
    {
      var i :| 0 <= i < |s| && s[i] == y;
      assert r[if i < p then i else i + 1] == y;
    }
  }

  lemma EnterMembers<T>(s: seq<T>, x: T, rank: map<T, int>)
    ensures forall y :: y in Enter(s, x, rank) <==> y == x || y in s
    ensures |Enter(s, x, rank)| == |s| + 1
  {
    InsertMembers(s, Position(RanksOf(s, rank), Lookup(rank, x)), x);
  }

  lemma RanksOfEnter<T>(s: seq<T>, x: T, rank: map<T, int>)
    ensures RanksOf(Enter(s, x, rank), rank) ==
            InsertAt(RanksOf(s, rank), Position(RanksOf(s, rank), Lookup(rank, x)), Lookup(rank, x))
  {}

  lemma EnterKeepsOrder<T>(s: seq<T>, x: T, rank: map<T, int>)
    requires x !in s
    ensures NoDup(s) ==> NoDup(Enter(s, x, rank))
    ensures SortedBy(s, rank) ==> SortedBy(Enter(s, x, rank), rank)
  {
    var rs := RanksOf(s, rank);
    var p := Position(rs, Lookup(rank, x));
    assert forall i :: 0 <= i < |s| ==> rs[i] == Lookup(rank, s[i]);
    if SortedBy(s, rank) {
      EnterSorted(s, x, rank);
    }
  }

  lemma EnterSorted<T>(s: seq<T>, x: T, rank: map<T, int>)
    requires SortedBy(s, rank)
    ensures SortedBy(Enter(s, x, rank), rank)
  {
    var rs := RanksOf(s, rank);
    assert Sorted(rs);
    InsertSorted(rs, Lookup(rank, x));
    RanksOfEnter(s, x, rank);
    var r := Enter(s, x, rank);
    assert forall i :: 0 <= i < |r| ==> RanksOf(r, rank)[i] == Lookup(rank, r[i]);
  }

  lemma LeaveMembers<T>(s: seq<T>, x: T)
    requires NoDup(s)
    ensures NoDup(Leave(s, x)) && x !in Leave(s, x)
    ensures forall y :: y in Leave(s, x) <==> y in s && y != x
    ensures |Leave(s, x)| == if x in s then |s| - 1 else |s|
  {
    var k := IndexOf(s, x);
    var r := Leave(s, x);
    forall y | y in s && y != x
      ensures y in r
    {
      var i :| 0 <= i < |s| && s[i] == y;
      assert k < |s| ==> r[if i < k then i else i - 1] == y;
    }
  }

  lemma LeaveKeepsOrder<T>(s: seq<T>, x: T, rank: map<T, int>)
    requires SortedBy(s, rank)
    ensures SortedBy(Leave(s, x), rank)
  {}

  /** Where taking `x` out and putting it back by rank leaves it: behind its equals. */
  function Requeue<T(==)>(s: seq<T>, x: T, rank: map<T, int>): seq<T> {
    Enter(Leave(s, x), x, rank)
  }

  lemma RequeueMembers<T>(s: seq<T>, x: T, rank: map<T, int>)
    requires NoDup(s) && x in s
    ensures forall y :: y in Requeue(s, x, rank) <==> y in s
    ensures |Requeue(s, x, rank)| == |s|
    ensures NoDup(Requeue(s, x, rank))
    ensures SortedBy(s, rank) ==> SortedBy(Requeue(s, x, rank), rank)
  {
    LeaveMembers(s, x);
    EnterMembers(Leave(s, x), x, rank);
    EnterKeepsOrder(Leave(s, x), x, rank);
    if SortedBy(s, rank) {
      LeaveKeepsOrder(s, x, rank);
    }
  }

  /** Taking out what was just put in. */
  lemma LeaveEnter<T>(s: seq<T>, x: T, rank: map<T, int>)
    requires x !in s
    ensures Leave(Enter(s, x, rank), x) == s
  {
    var p := Position(RanksOf(s, rank), Lookup(rank, x));
    var r := Enter(s, x, rank);
    assert r[p] == x;
    assert forall i :: 0 <= i < p ==> r[i] == s[i];
    assert IndexOf(r, x) == p;
    assert r[..p] == s[..p] && r[p + 1..] == s[p..];
  }

  lemma EnterMultiset<T>(s: seq<T>, x: T, rank: map<T, int>)
    ensures multiset(Enter(s, x, rank)) == multiset(s) + multiset{x}
  {
    var p := Position(RanksOf(s, rank), Lookup(rank, x));
    assert s == s[..p] + s[p..];
  }

  lemma RequeueMultiset<T>(s: seq<T>, x: T, rank: map<T, int>)
    requires x in s
    ensures multiset(Requeue(s, x, rank)) == multiset(s)
  {
    var k := IndexOf(s, x);
    assert s == s[..k] + [s[k]] + s[k + 1..];
    EnterMultiset(Leave(s, x), x, rank);
  }

  lemma {:induction false} TwiceIsDup<T>(s: seq<T>, x: T)
    requires multiset(s)[x] >= 2
    ensures !NoDup(s)
  {
    var k := IndexOf(s, x);
    assert x in multiset(s);
    assert s == s[..k] + [s[k]] + s[k + 1..];
    assert multiset(s[..k])[x] == 0 by {
      assert x !in s[..k];
    }
    assert x in multiset(s[k + 1..]);
    var j :| 0 <= j < |s[k + 1..]| && s[k + 1..][j] == x;
    assert s[k] == s[k + 1 + j];
  }

  /** Entering changes the head exactly when the newcomer ranks strictly before it. */
  lemma HeadOfEnter<T>(s: seq<T>, x: T, rank: map<T, int>)
    requires s != []
    ensures Enter(s, x, rank)[0] == if Lookup(rank, x) < Lookup(rank, s[0]) then x else s[0]
  {
    assert RanksOf(s, rank)[0] == Lookup(rank, s[0]);
  }

  /** `x` comes first once it has entered and `h` has been queued again behind its equals,
      exactly when it ranks before all others and not behind `h`. */
  predicate TopOver<T(==)>(s: seq<T>, h: T, p: int, rank: map<T, int>) {
    forall u :: u in s ==> if u == h then p <= Lookup(rank, u) else p < Lookup(rank, u)
  }

  lemma HeadAfter<T>(s: seq<T>, x: T, h: T, rank: map<T, int>)
    requires NoDup(s) && SortedBy(s, rank) && x !in s && h in s
    ensures var r := Requeue(Enter(s, x, rank), h, rank);
      r != [] && (r[0] == x <==> TopOver(s, h, Lookup(rank, x), rank))
  {
    var e := Enter(s, x, rank);
    var r := Leave(e, h);
    EnterMembers(s, x, rank);
    EnterKeepsOrder(s, x, rank);
    LeaveMembers(e, h);
    LeaveKeepsOrder(e, h, rank);
    assert x in r;
    HeadOfEnter(r, h, rank);
    if r[0] == x {
      forall u | u in s && u != h
        ensures Lookup(rank, x) < Lookup(rank, u)
      {
        BehindEquals(s, x, h, u, rank);
      }
    } else {
      assert r[0] in r && r[0] in s && r[0] != h;
      var i :| 0 <= i < |r| && r[i] == x;
      assert Lookup(rank, r[0]) <= Lookup(rank, x);
    }
  }

  lemma BehindEquals<T>(s: seq<T>, x: T, h: T, u: T, rank: map<T, int>)
    requires NoDup(s) && SortedBy(s, rank) && x !in s && h in s && u in s && u != h
    requires x in Leave(Enter(s, x, rank), h) && Leave(Enter(s, x, rank), h)[0] == x
    ensures Lookup(rank, x) < Lookup(rank, u)
  {
    var e, p := Enter(s, x, rank), Position(RanksOf(s, rank), Lookup(rank, x));
    var k := IndexOf(e, h);
    EnterKeepsOrder(s, x, rank);
    assert e[p] == x && (forall i :: 0 <= i < p ==> e[i] == s[i]);
    assert Leave(e, h)[0] == e[if k == 0 then 1 else 0];
    assert p == 0 || (p == 1 && s[0] == h);
    var i :| 0 <= i < |s| && s[i] == u;
    assert RanksOf(s, rank)[p] == Lookup(rank, s[p]) <= Lookup(rank, s[i]);
  }

  // ----- Who is in front of whom.

  /** `a` is in front of `b`. */
  ghost predicate Before<T(!new)>(s: seq<T>, a: T, b: T) {
    exists i, j :: 0 <= i < j < |s| && s[i] == a && s[j] == b
  }

  lemma EnterKeepsBefore<T(!new)>(s: seq<T>, t: T, rank: map<T, int>, i: nat, j: nat)
    requires i < j < |s|
    ensures Before(Enter(s, t, rank), s[i], s[j]) && s[j] in Enter(s, t, rank)
  {
    var p, r := Position(RanksOf(s, rank), Lookup(rank, t)), Enter(s, t, rank);
    assert r[if i < p then i else i + 1] == s[i] && r[if j < p then j else j + 1] == s[j];
  }

  lemma LeaveKeepsBefore<T(!new)>(s: seq<T>, t: T, i: nat, j: nat)
    requires i < j < |s| && NoDup(s)
    ensures s[j] == t || s[j] in Leave(s, t)
    ensures s[i] != t && s[j] != t ==> Before(Leave(s, t), s[i], s[j])
    ensures t !in Leave(s, t)
  {
    LeaveMembers(s, t);
    var k, r := IndexOf(s, t), Leave(s, t);
    if s[i] != t && s[j] != t {
      assert r[if i < k then i else i - 1] == s[i] && r[if j < k then j else j - 1] == s[j];
    }
  }

  /** A newcomer goes behind everyone of the same or a lower rank. */
  lemma EntersBehind<T(!new)>(s: seq<T>, x: T, u: T, rank: map<T, int>)
    requires SortedBy(s, rank) && u in s && Lookup(rank, u) <= Lookup(rank, x)
    ensures Before(Enter(s, x, rank), u, x)
  {
    var p, r := Position(RanksOf(s, rank), Lookup(rank, x)), Enter(s, x, rank);
    var i :| 0 <= i < |s| && s[i] == u;
    assert RanksOf(s, rank)[i] == Lookup(rank, u);
    if p < |s| {
      assert RanksOf(s, rank)[p] == Lookup(rank, s[p]);
    }
    assert i < p && r[i] == u && r[p] == x;
  }

  /** `a` is in front of `b` if both are there. */
  ghost predicate Ahead<T(!new)>(s: seq<T>, a: T, b: T) {
    a in s && b in s ==> Before(s, a, b)
  }

  lemma LeaveAhead<T(!new)>(s: seq<T>, x: T, a: T, b: T)
    requires NoDup(s) && (Ahead(s, a, b) || x == b)
    ensures Ahead(Leave(s, x), a, b)
  {
    LeaveMembers(s, x);
    if a in Leave(s, x) && b in Leave(s, x) {
      var i, j :| 0 <= i < j < |s| && s[i] == a && s[j] == b;
      LeaveKeepsBefore(s, x, i, j);
    }
  }

  lemma EnterAhead<T(!new)>(s: seq<T>, x: T, rank: map<T, int>, a: T, b: T)
    requires SortedBy(s, rank) && x !in s && x != a && Ahead(s, a, b)
    requires x == b ==> Lookup(rank, a) <= Lookup(rank, b)
    ensures Ahead(Enter(s, x, rank), a, b)
  {
    EnterMembers(s, x, rank);
    if a in s && x == b {
      EntersBehind(s, x, a, rank);
    } else if a in s && b in s {
      var i, j :| 0 <= i < j < |s| && s[i] == a && s[j] == b;
      EnterKeepsBefore(s, x, rank, i, j);
    }
  }

  lemma RequeueAhead<T(!new)>(s: seq<T>, x: T, rank: map<T, int>, a: T, b: T)
    requires NoDup(s) && SortedBy(s, rank) && x != a && (Ahead(s, a, b) || x == b)
    requires x == b ==> Lookup(rank, a) <= Lookup(rank, b)
    ensures Ahead(Requeue(s, x, rank), a, b)
  {
    LeaveMembers(s, x);
    LeaveKeepsOrder(s, x, rank);
    LeaveAhead(s, x, a, b);
    EnterAhead(Leave(s, x), x, rank, a, b);
  }

  /** Nothing is in front of the head. */
  lemma HeadNotBehind<T(!new)>(s: seq<T>, a: T)
    requires NoDup(s) && s != []
    ensures !Before(s, a, s[0])
  {}
}
