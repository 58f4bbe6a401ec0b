/** The alarm queue, with the ticks each alarm still has to wait counted from now, and laws of
    every run of clock ticks, new alarms and destructions. `A` is the type of alarms. */
module AlarmModel {
  import opened RankOrder

  datatype Option<+T> = None | Some(value: T)

  const INFINITE := -1

  /** How often an alarm is still to fire, in 32 bits. */
  type Times = x: int | -0x8000_0000 <= x < 0x8000_0000

  function Decremented(times: Times): Times {
    if times == -0x8000_0000 then 0x7FFF_FFFF else times - 1
  }

  /** Decremented only when not infinite, these never come down to zero. */
  predicate Endless(times: Times) {
    times == INFINITE || times == 0
  }

  /** How often any other is decremented to zero; those below -1 come round from the other end. */
  function Rounds(times: Times): nat {
    if times < 0 then times + 0x1_0000_0000 else times
  }

  /** `ticks` and `times` are the alarm's own fields. Runs are stated with the others: the
      times first asked for, the ticks it was created at and last queued at, and how often it
      has fired. */
  datatype Info = Info(ticks: int, times: Times, asked: Times, born: int, armed: int, fires: nat)

  datatype Clock<A> = Clock(elapsed: nat, queue: seq<A>, left: seq<int>, alarms: map<A, Info>)

  // ----- The operations.

  function Queued<A>(c: Clock<A>, a: A, ticks: int): Clock<A>
    requires |c.left| == |c.queue|
  {
    var p := Position(c.left, ticks);
    c.(queue := InsertAt(c.queue, p, a), left := InsertAt(c.left, p, ticks))
  }

  function Born(now: nat, ticks: nat, times: Times): Info {
    Info(ticks, times, times, now, now, if ticks == 0 then 1 else 0)
  }

  /** The constructor. No ticks: the handler runs at once and the alarm is not queued. */
  function New<A>(c: Clock<A>, a: A, ticks: nat, times: Times): (Clock<A>, Option<A>)
    requires |c.left| == |c.queue|
  {
    var d := c.(alarms := c.alarms[a := Born(c.elapsed, ticks, times)]);
    if ticks != 0 then (Queued(d, a, ticks), None) else (d, Some(a))
  }

  function Destroy<A(==)>(c: Clock<A>, a: A): Clock<A>
    requires |c.left| == |c.queue|
  {
    var k := IndexOf(c.queue, a);
    var d := c.(alarms := c.alarms - {a});
    if k < |c.queue| then d.(queue := RemoveAt(c.queue, k), left := RemoveAt(c.left, k)) else d
  }

  function Fired(i: Info, now: nat): Info {
    i.(times := if i.times == INFINITE then i.times else Decremented(i.times), armed := now, fires := i.fires + 1)
  }

  /** `promote` of the head brings every alarm one tick closer. */
  function Promoted<A>(c: Clock<A>): Clock<A> {
    c.(elapsed := c.elapsed + 1, left := Less(c.left, 1))
  }

  /** The queue between the head's leaving and its return: what was left of its rank is not
      handed to the next. */
  function HeadGone<A>(c: Clock<A>): Clock<A>
    requires |c.left| == |c.queue| && c.queue != [] && c.queue[0] in c.alarms
  {
    var a := c.queue[0];
    Clock(c.elapsed, c.queue[1..], Less(c.left[1..], c.left[0]),
          c.alarms[a := Fired(c.alarms[a], c.elapsed)])
  }

  function Fire<A>(c: Clock<A>): Clock<A>
    requires |c.left| == |c.queue| && c.queue != [] && c.queue[0] in c.alarms
  {
    var a, d := c.queue[0], HeadGone(c);
    if d.alarms[a].times != 0 then Queued(d, a, d.alarms[a].ticks) else d
  }

  predicate Applicable<A(==)>(c: Clock<A>) {
    |c.left| == |c.queue| && forall a :: a in c.queue ==> a in c.alarms
  }

  /** The tick handler: the head comes one tick closer, and if its time has come it leaves
      and is queued again unless its times are used up. At most one alarm fires. */
  function Tick<A>(c: Clock<A>): (Clock<A>, Option<A>)
    requires Applicable(c)
  {
    var d := Promoted(c);
    if d.queue == [] || 0 < d.left[0] then (d, None) else (Fire(d), Some(d.queue[0]))
  }

  // ----- The invariant.

  /** Waiting times ascend from zero, none exceeds what its alarm asked for, and none would
      let its alarm fire early. */
  ghost predicate Waiting<A>(c: Clock<A>) {
    && |c.left| == |c.queue| && NoDup(c.queue)
    && Sorted(c.left)
    && forall i :: 0 <= i < |c.queue| ==>
         && c.queue[i] in c.alarms
         && 0 <= c.left[i] <= c.alarms[c.queue[i]].ticks
         && c.alarms[c.queue[i]].armed + c.alarms[c.queue[i]].ticks <= c.elapsed + c.left[i]
  }

  /** The times left, the firings so far and membership in the queue agree. */
  ghost predicate Counted<A>(c: Clock<A>) {
    forall a :: a in c.alarms ==> var i := c.alarms[a];
      && 0 <= i.ticks
      && (i.ticks == 0 ==> a !in c.queue)
      && (i.ticks != 0 && !Endless(i.asked) ==>
            i.fires + Rounds(i.times) == Rounds(i.asked) && (a in c.queue <==> i.times != 0))
      && (i.ticks != 0 && Endless(i.asked) ==>
            a in c.queue && (i.times == INFINITE || (i.times == 0 && i.fires == 0)))
  }

  /** Firings are at least `ticks` apart, and the first is that far from the creation. */
  ghost predicate Paced<A>(c: Clock<A>) {
    forall a :: a in c.alarms ==> var i := c.alarms[a];
      i.armed <= c.elapsed && (i.ticks != 0 ==> i.born + i.fires * i.ticks <= i.armed)
  }

  ghost predicate Inv<A>(c: Clock<A>) {
    Waiting(c) && Counted(c) && Paced(c)
  }

  lemma QueuedWaiting<A>(c: Clock<A>, a: A, ticks: int)
    requires Waiting(c) && a !in c.queue && a in c.alarms
    requires 0 <= ticks == c.alarms[a].ticks && c.alarms[a].armed <= c.elapsed
    ensures Waiting(Queued(c, a, ticks))
  {
    var p, d := Position(c.left, ticks), Queued(c, a, ticks);
    InsertSorted(c.left, ticks);
    InsertNoDup(c.queue, p, a);
    forall i | 0 <= i < |d.queue|
      ensures if i == p then d.queue[i] == a && d.left[i] == ticks
              else var j := if i < p then i else i - 1;
                   d.queue[i] == c.queue[j] && d.left[i] == c.left[j]
    {}
  }

  lemma NewKeeps<A>(c: Clock<A>, a: A, ticks: nat, times: Times)
    requires Inv(c) && a !in c.alarms
    ensures Inv(New(c, a, ticks, times).0)
  {
    var d := c.(alarms := c.alarms[a := Born(c.elapsed, ticks, times)]);
    assert a !in c.queue;
    assert Waiting(d);
    if ticks != 0 {
      QueuedWaiting(d, a, ticks);
      InsertMembers<A>(d.queue, Position(d.left, ticks), a);
    }
  }

  lemma DestroyKeeps<A>(c: Clock<A>, a: A)
    requires Inv(c)
    ensures Inv(Destroy(c, a))
    ensures forall b :: b in Destroy(c, a).queue <==> b in c.queue && b != a
  {
    LeaveMembers(c.queue, a);
    var d := Destroy(c, a);
    assert d.queue == Leave(c.queue, a);
    DestroyWaiting(c, a);
  }

  lemma DestroyWaiting<A>(c: Clock<A>, a: A)
    requires Waiting(c)
    ensures Waiting(Destroy(c, a))
  {
    var k, d := IndexOf(c.queue, a), Destroy(c, a);
    LeaveMembers(c.queue, a);
    assert d.queue == Leave(c.queue, a) && NoDup(d.queue);
    hide Leave, NoDup;
    if k < |c.queue| {
      RemoveSorted(c.left, k);
      forall i | 0 <= i < |d.queue|
        ensures var j := if i < k then i else i + 1;
          d.queue[i] == c.queue[j] && d.left[i] == c.left[j] && d.queue[i] != a
      {
        assert d.queue[i] in d.queue;
      }
    }
  }

  lemma LessTwice(left: seq<int>)
    requires left != []
    ensures Less(Less(left, 1)[1..], Less(left, 1)[0]) == Less(left[1..], left[0])
  {}

  lemma HeadLeaves<A>(c: Clock<A>)
    requires Waiting(c) && c.queue != [] && c.left[0] <= 1
    ensures Waiting(HeadGone(Promoted(c)))
    ensures forall b :: b in HeadGone(Promoted(c)).queue <==> b in c.queue && b != c.queue[0]
  {
    var a := c.queue[0];
    LessTwice(c.left);
    forall i | 0 <= i < |c.queue[1..]|
      ensures c.queue[1..][i] == c.queue[i + 1] && c.queue[i + 1] != a
      ensures c.left[0] <= c.left[i + 1]
    {}
    forall b | b in c.queue && b != a
      ensures b in c.queue[1..]
    {
      var i :| 0 <= i < |c.queue| && c.queue[i] == b;
      assert c.queue[1..][i - 1] == b;
    }
  }

  lemma Product(n: nat, t: int)
    ensures (n + 1) * t == n * t + t
  {}

  lemma TickKeeps<A>(c: Clock<A>)
    requires Inv(c)
    ensures Inv(Tick(c).0)
  {
    if c.queue != [] && c.left[0] <= 1 {
      FireKeeps(c);
    }
  }

  lemma FireKeeps<A>(c: Clock<A>)
    requires Inv(c) && c.queue != [] && c.left[0] <= 1
    ensures Inv(Tick(c).0)
  {
    var a, d := c.queue[0], HeadGone(Promoted(c));
    HeadLeaves(c);
    HeadPaced(c);
    HeadCounted(c);
    if d.alarms[a].times != 0 {
      QueuedWaiting(d, a, d.alarms[a].ticks);
      InsertMembers<A>(d.queue, Position(d.left, d.alarms[a].ticks), a);
    }
    hide Waiting, HeadGone, Promoted, Fired, Decremented, Position, Rounds;
  }

  /** What the times left of the head say about its return. */
  lemma HeadCounted<A>(c: Clock<A>)
    requires Waiting(c) && Counted(c) && c.queue != [] && c.left[0] <= 1
    requires forall b :: b in HeadGone(Promoted(c)).queue <==> b in c.queue && b != c.queue[0]
    ensures var (a, d) := (c.queue[0], HeadGone(Promoted(c)));
      forall s: seq<A> :: (forall b :: b in s <==> b in d.queue || (b == a && d.alarms[a].times != 0)) ==>
                            Counted(d.(queue := s))
  {
    hide Sorted, NoDup;
    assert c.queue[0] in c.queue && c.queue[0] in c.alarms;
  }

  lemma HeadPaced<A>(c: Clock<A>)
    requires Waiting(c) && Paced(c) && c.queue != [] && c.left[0] <= 1
    ensures Paced(HeadGone(Promoted(c)))
  {
    var i := c.alarms[c.queue[0]];
    Product(i.fires, i.ticks);
  }

  // ----- What a firing means.

  /** An alarm fires for the n-th time no earlier than n times its ticks after its creation. Asked
      for -1 or for no times it never leaves the queue; any other leaves it once its times are used
      up, of which a number below -1 has as many as it has when taken without its sign. */
  lemma FiringLaw<A>(c: Clock<A>, a: A)
    requires Inv(c) && Tick(c).1 == Some(a)
    ensures var d := Tick(c).0;
      && a in c.queue && a in c.alarms && a in d.alarms
      && var i := d.alarms[a];
      && 1 <= i.ticks && i.fires == c.alarms[a].fires + 1
      && i.asked == c.alarms[a].asked && i.born == c.alarms[a].born
      && i.born + i.fires * i.ticks <= d.elapsed
      && (a in d.queue <==> Endless(i.asked) || i.fires < Rounds(i.asked))
      && (!Endless(i.asked) ==> i.fires <= Rounds(i.asked))
  {
    TickKeeps(c);
    assert a == c.queue[0] && a in c.alarms;
  }
}
