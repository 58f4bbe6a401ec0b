/** Laws of the alarm queue over whole runs. */
module AlarmLaws {
  import opened RankOrder
  import opened AlarmModel

  datatype Op<A> = NewOp(alarm: A, ticks: nat, times: Times) | DestroyOp(alarm: A) | TickOp

  ghost predicate Legal<A>(c: Clock<A>, op: Op<A>) {
    op.NewOp? ==> op.alarm !in c.alarms
  }

  function Apply<A(==)>(c: Clock<A>, op: Op<A>): (Clock<A>, Option<A>)
    requires Applicable(c)
  {
    match op
    case NewOp(a, ticks, times) => New(c, a, ticks, times)
    case DestroyOp(a) => (Destroy(c, a), None)
    case TickOp => Tick(c)
  }

  /** Each state follows from the one before; `fired[i]` is the alarm step `i` triggers. */
  ghost predicate IsRun<A>(trace: seq<Clock<A>>, ops: seq<Op<A>>, fired: seq<Option<A>>) {
    && |trace| == |ops| + 1 && |fired| == |ops|
    && trace[0] == Clock(0, [], [], map[])
    && forall i :: 0 <= i < |ops| ==>
         && Legal(trace[i], ops[i])
         && (Applicable(trace[i]) ==>
               trace[i + 1] == Apply(trace[i], ops[i]).0 && fired[i] == Apply(trace[i], ops[i]).1)
  }

  lemma {:induction false} RunKeeps<A>(trace: seq<Clock<A>>, ops: seq<Op<A>>, fired: seq<Option<A>>, n: nat)
    requires IsRun(trace, ops, fired) && n < |trace|
    ensures Inv(trace[n])
  {
    if n > 0 {
      RunKeeps(trace, ops, fired, n - 1);
      assert trace[n] == Apply(trace[n - 1], ops[n - 1]).0;
      match ops[n - 1]
      case NewOp(a, ticks, times) => NewKeeps(trace[n - 1], a, ticks, times);
      case DestroyOp(a) => DestroyKeeps(trace[n - 1], a);
      case TickOp => TickKeeps(trace[n - 1]);
    }
  }

  lemma RunStep<A>(trace: seq<Clock<A>>, ops: seq<Op<A>>, fired: seq<Option<A>>, n: nat)
    requires IsRun(trace, ops, fired) && n < |ops|
    ensures Inv(trace[n]) && Inv(trace[n + 1]) && Applicable(trace[n]) && Legal(trace[n], ops[n])
    ensures (trace[n + 1], fired[n]) == Apply(trace[n], ops[n])
  {
    hide Apply, Counted, Paced, Sorted, NoDup;
    RunKeeps(trace, ops, fired, n);
    RunKeeps(trace, ops, fired, n + 1);
  }

  /** How many of the steps from `i` to before `j` tick the clock. */
  function Ticks<A>(ops: seq<Op<A>>, i: nat, j: nat): nat
    requires i <= j <= |ops|
  {
    if i == j then 0 else Ticks(ops, i, j - 1) + if ops[j - 1].TickOp? then 1 else 0
  }

  /** How many of them fire `a`. */
  function Firings<A(==)>(fired: seq<Option<A>>, a: A, i: nat, j: nat): nat
    requires i <= j <= |fired|
  {
    if i == j then 0 else Firings(fired, a, i, j - 1) + if fired[j - 1] == Some(a) then 1 else 0
  }

  /** None of them creates or destroys `a`. */
  ghost predicate Undisturbed<A>(ops: seq<Op<A>>, a: A, i: nat, j: nat)
    requires i <= j <= |ops|
  {
    forall k :: i <= k < j ==> ops[k].TickOp? || ops[k].alarm != a
  }

  lemma LifeStep<A>(c: Clock<A>, op: Op<A>, a: A)
    requires Inv(c) && Legal(c, op) && (op.TickOp? || op.alarm != a)
    requires a in c.alarms
    ensures a in Apply(c, op).0.alarms
    ensures var i := c.alarms[a];
      var fires := i.fires + if Apply(c, op).1 == Some(a) then 1 else 0;
      var i' := Apply(c, op).0.alarms[a];
      i'.ticks == i.ticks && i'.asked == i.asked && i'.born == i.born && i'.fires == fires
    ensures Apply(c, op).0.elapsed == c.elapsed + if op.TickOp? then 1 else 0
  {}

  /** What the state before step `j` records of the alarm created by step `i` is what the run
      did in between. */
  ghost predicate Recorded<A>(c: Clock<A>, start: nat, ops: seq<Op<A>>, fired: seq<Option<A>>,
                              i: nat, j: nat, a: A, ticks: nat, times: Times)
    requires i < j <= |ops| && |fired| == |ops|
  {
    && a in c.alarms
    && c.alarms[a].ticks == ticks && c.alarms[a].asked == times && c.alarms[a].born == start
    && c.alarms[a].fires == Firings(fired, a, i, j)
    && c.elapsed == start + Ticks(ops, i + 1, j)
  }

  lemma RecordedNext<A>(c: Clock<A>, start: nat, ops: seq<Op<A>>, fired: seq<Option<A>>,
                        i: nat, j: nat, a: A, ticks: nat, times: Times)
    requires i < j < |ops| && |fired| == |ops|
    requires Recorded(c, start, ops, fired, i, j, a, ticks, times)
    requires Inv(c) && Legal(c, ops[j]) && (ops[j].TickOp? || ops[j].alarm != a)
    requires fired[j] == Apply(c, ops[j]).1
    ensures Recorded(Apply(c, ops[j]).0, start, ops, fired, i, j + 1, a, ticks, times)
  {
    LifeStep(c, ops[j], a);
  }

  lemma {:induction false} Life<A>(trace: seq<Clock<A>>, ops: seq<Op<A>>, fired: seq<Option<A>>,
                                   i: nat, j: nat, a: A, ticks: nat, times: Times)
    requires IsRun(trace, ops, fired) && i < j < |trace|
    requires ops[i] == NewOp(a, ticks, times)
    requires Undisturbed(ops, a, i + 1, j)
    ensures Recorded(trace[j], trace[i].elapsed, ops, fired, i, j, a, ticks, times)
    decreases j
  {
    hide Inv, Apply, New, Legal;
    RunStep(trace, ops, fired, j - 1);
    if j == i + 1 {
      LifeApply(trace[i], a, ticks, times);
      LifeStarts(trace[i], a, ticks, times);
      assert Firings(fired, a, i, j) == Firings(fired, a, i, i) + if fired[i] == Some(a) then 1 else 0;
      assert Ticks(ops, i + 1, j) == 0;
    } else {
      Life(trace, ops, fired, i, j - 1, a, ticks, times);
      RecordedNext(trace[j - 1], trace[i].elapsed, ops, fired, i, j - 1, a, ticks, times);
    }
  }

  lemma LifeStarts<A>(c: Clock<A>, a: A, ticks: nat, times: Times)
    requires Applicable(c)
    ensures var (d, fired) := New(c, a, ticks, times);
      && a in d.alarms && d.alarms[a] == Born(c.elapsed, ticks, times)
      && d.alarms[a].fires == (if fired == Some(a) then 1 else 0)
      && fired == (if ticks == 0 then Some(a) else None)
      && d.elapsed == c.elapsed
  {}

  /** Over every run: an alarm asked for after less than a tick fires as it is created, never waits
      and never fires again; no other one fires as it is created. */
  lemma AtOnce<A>(trace: seq<Clock<A>>, ops: seq<Op<A>>, fired: seq<Option<A>>,
                  i: nat, j: nat, a: A, ticks: nat, times: Times)
    requires IsRun(trace, ops, fired) && i < j < |trace|
    requires ops[i] == NewOp(a, ticks, times)
    requires Undisturbed(ops, a, i + 1, j)
    ensures fired[i] == if ticks == 0 then Some(a) else None
    ensures ticks == 0 ==> a !in trace[j].queue && Firings(fired, a, i + 1, j) == 0
  {
    hide Waiting, Paced, Recorded;
    RunStep(trace, ops, fired, i);
    RunStep(trace, ops, fired, j - 1);
    if ticks == 0 {
      Life(trace, ops, fired, i, j, a, ticks, times);
      assert a !in trace[j].queue by {
        RecordedTicks(trace[j], trace[i].elapsed, ops, fired, i, j, a, ticks, times);
      }
      NeverAgain(trace, ops, fired, i, j, a, times);
    }
  }

  lemma LifeApply<A>(c: Clock<A>, a: A, ticks: nat, times: Times)
    requires Applicable(c)
    ensures Apply(c, NewOp(a, ticks, times)) == New(c, a, ticks, times)
  {}

  lemma RecordedTicks<A>(c: Clock<A>, start: nat, ops: seq<Op<A>>, fired: seq<Option<A>>,
                         i: nat, j: nat, a: A, ticks: nat, times: Times)
    requires i < j <= |ops| && |fired| == |ops|
    requires Recorded(c, start, ops, fired, i, j, a, ticks, times)
    ensures a in c.alarms && c.alarms[a].ticks == ticks
  {}

  /** An alarm without ticks does not fire again. */
  lemma Silent<A>(c: Clock<A>, op: Op<A>, a: A)
    requires Inv(c) && Legal(c, op) && (op.TickOp? || op.alarm != a)
    requires a in c.alarms && c.alarms[a].ticks == 0
    ensures Apply(c, op).1 != Some(a)
  {
    assert a !in c.queue;
  }

  lemma {:induction false} NeverAgain<A>(trace: seq<Clock<A>>, ops: seq<Op<A>>, fired: seq<Option<A>>,
                                         i: nat, j: nat, a: A, times: Times)
    requires IsRun(trace, ops, fired) && i < j < |trace|
    requires ops[i] == NewOp(a, 0, times) && Undisturbed(ops, a, i + 1, j)
    ensures Firings(fired, a, i + 1, j) == 0
    decreases j
  {
    hide Inv, Apply, Applicable, Legal, Recorded;
    if i + 1 < j {
      NeverAgain(trace, ops, fired, i, j - 1, a, times);
      RunStep(trace, ops, fired, j - 1);
      Life(trace, ops, fired, i, j - 1, a, 0, times);
      RecordedTicks(trace[j - 1], trace[i].elapsed, ops, fired, i, j - 1, a, 0, times);
      Silent(trace[j - 1], ops[j - 1], a);
    }
  }

  /** Over every run: the n-th firing of an alarm comes after at least n times its ticks,
      whatever else is created, destroyed or requeued meanwhile, and an alarm stays queued
      exactly until it has had the firings it was asked for, if these are not endless. */
  lemma NeverEarly<A>(trace: seq<Clock<A>>, ops: seq<Op<A>>, fired: seq<Option<A>>,
                      i: nat, j: nat, a: A, ticks: nat, times: Times)
    requires IsRun(trace, ops, fired) && i < j < |trace|
    requires ops[i] == NewOp(a, ticks, times) && ticks != 0
    requires Undisturbed(ops, a, i + 1, j)
    ensures Firings(fired, a, i, j) * ticks <= Ticks(ops, i + 1, j)
    ensures !Endless(times) ==> Firings(fired, a, i, j) <= Rounds(times)
    ensures a in trace[j].queue <==> Endless(times) || Firings(fired, a, i, j) < Rounds(times)
  {
    Life(trace, ops, fired, i, j, a, ticks, times);
    RunKeeps(trace, ops, fired, j);
    assert Paced(trace[j]) && Counted(trace[j]);
  }

  /** An alarm that is destroyed, or was never created, does not fire. */
  lemma OnlyLiveFire<A>(trace: seq<Clock<A>>, ops: seq<Op<A>>, fired: seq<Option<A>>, j: nat, a: A)
    requires IsRun(trace, ops, fired) && j < |ops| && fired[j] == Some(a)
    ensures a in trace[j].alarms || (ops[j].NewOp? && ops[j].alarm == a && ops[j].ticks == 0)
  {
    RunKeeps(trace, ops, fired, j);
    assert trace[j + 1] == Apply(trace[j], ops[j]).0;
    assert fired[j] == Apply(trace[j], ops[j]).1;
  }

  // ----- How long the others wait.

  /** The ticks `a` has still to wait. */
  function Wait<A(==)>(c: Clock<A>, a: A): int
    requires |c.left| == |c.queue| && a in c.queue
  {
    c.left[IndexOf(c.queue, a)]
  }

  lemma WaitAt<A>(c: Clock<A>, i: nat)
    requires |c.left| == |c.queue| && NoDup(c.queue) && i < |c.queue|
    ensures Wait(c, c.queue[i]) == c.left[i]
  {
    var k := IndexOf(c.queue, c.queue[i]);
    assert k <= i;
    assert k == i;
  }

  /** One operation: an alarm that waits before and after it and has not fired waits as long as
      before, but for a tick, which brings it one tick closer. A tick whose firing is late, because
      its alarm had no ticks left to wait, brings nobody closer. */
  lemma WaitSteps<A>(c: Clock<A>, op: Op<A>, b: A)
    requires Inv(c) && Legal(c, op) && b in c.queue && b in Apply(c, op).0.queue && Apply(c, op).1 != Some(b)
    ensures Inv(Apply(c, op).0)
    ensures Wait(Apply(c, op).0, b) ==
            Wait(c, b) - if op.TickOp? && 1 <= c.left[0] then 1 else 0
  {
    var i :| 0 <= i < |c.queue| && c.queue[i] == b;
    WaitAt(c, i);
    match op
    case NewOp(a, ticks, times) => NewWait(c, a, ticks, times, i);
    case DestroyOp(a) => DestroyWait(c, a, i);
    case TickOp => TickWait(c, i);
  }

  lemma NewWait<A>(c: Clock<A>, a: A, ticks: nat, times: Times, i: nat)
    requires Inv(c) && a !in c.alarms && i < |c.queue|
    ensures var d := New(c, a, ticks, times).0;
      Inv(d) && c.queue[i] in d.queue && Wait(d, c.queue[i]) == c.left[i]
  {
    hide Counted, Paced;
    NewKeeps(c, a, ticks, times);
    var d, k := New(c, a, ticks, times).0, if ticks == 0 || i < Position(c.left, ticks) then i else i + 1;
    assert d.queue[k] == c.queue[i] && d.left[k] == c.left[i];
    WaitAt(d, k);
  }

  lemma DestroyWait<A>(c: Clock<A>, a: A, i: nat)
    requires Inv(c) && i < |c.queue| && c.queue[i] != a
    ensures var d := Destroy(c, a);
      Inv(d) && c.queue[i] in d.queue && Wait(d, c.queue[i]) == c.left[i]
  {
    hide Counted, Paced;
    DestroyKeeps(c, a);
    var d, k := Destroy(c, a), if i < IndexOf(c.queue, a) then i else i - 1;
    assert d.queue[k] == c.queue[i] && d.left[k] == c.left[i];
    WaitAt(d, k);
  }

  lemma TickWait<A>(c: Clock<A>, i: nat)
    requires Inv(c) && i < |c.queue| && Tick(c).1 != Some(c.queue[i])
    ensures var d := Tick(c).0;
      && Inv(d) && c.queue[i] in d.queue
      && Wait(d, c.queue[i]) == c.left[i] - if 1 <= c.left[0] then 1 else 0
  {
    TickKeeps(c);
    if c.left[0] <= 1 {
      FireWait(c, i);
    } else {
      WaitAt(Tick(c).0, i);
    }
  }

  lemma FireWait<A>(c: Clock<A>, i: nat)
    requires Inv(c) && 0 < i < |c.queue| && c.left[0] <= 1 && Inv(Tick(c).0)
    ensures c.queue[i] in Tick(c).0.queue && Wait(Tick(c).0, c.queue[i]) == c.left[i] - c.left[0]
  {
    hide Inv, Fired, Decremented;
    WaitsInOrder(c);
    LessTwice(c.left);
    var a, h, d := c.queue[0], HeadGone(Promoted(c)), Tick(c).0;
    assert h.queue == c.queue[1..] && h.left == Less(c.left[1..], c.left[0]);
    var p := Position(h.left, h.alarms[a].ticks);
    var k := if h.alarms[a].times != 0 && p <= i - 1 then i else i - 1;
    assert d == if h.alarms[a].times != 0 then Queued(h, a, h.alarms[a].ticks) else h;
    assert d.queue[k] == h.queue[i - 1] && d.left[k] == h.left[i - 1];
    WaitsInOrder(d);
    WaitAt(d, k);
  }

  lemma WaitsInOrder<A>(c: Clock<A>)
    requires Inv(c)
    ensures |c.left| == |c.queue| && NoDup(c.queue) && Applicable(c)
  {}

  // ----- Exact lateness.

  /** The tick at which the `i`-th waiting alarm fires when nothing is inserted or removed:
      each alarm takes the tick its difference says, and at least one of its own. */
  function Slot(left: seq<int>, i: nat): int
    requires i < |left|
  {
    if i == 0 then AtLeastOne(left[0])
    else Slot(left, i - 1) + AtLeastOne(left[i] - left[i - 1])
  }

  function AtLeastOne(d: int): int {
    if d < 1 then 1 else d
  }

  /** Elements that wait as long as their predecessor. */
  function Ties(left: seq<int>, i: nat): nat
    requires i < |left|
  {
    if i == 0 then 0 else Ties(left, i - 1) + if left[i] == left[i - 1] then 1 else 0
  }

  /** The lateness is exactly the number of ties so far. */
  lemma {:induction false} SlotIsDuePlusTies(left: seq<int>, i: nat)
    requires Sorted(left) && i < |left| && 1 <= left[0]
    ensures Slot(left, i) == left[i] + Ties(left, i)
  {
    if i > 0 {
      SlotIsDuePlusTies(left, i - 1);
    }
  }

  lemma {:induction false} SlotAfterTick(left: seq<int>, i: nat)
    requires i < |left| && 1 < left[0]
    ensures Slot(Less(left, 1), i) == Slot(left, i) - 1
  {
    if i > 0 {
      SlotAfterTick(left, i - 1);
    }
  }

  lemma {:induction false} SlotAfterFiring(left: seq<int>, i: nat)
    requires i + 1 < |left| && left[0] <= 1
    ensures Slot(Less(left[1..], left[0]), i) == Slot(left, i + 1) - 1
  {
    if i > 0 {
      SlotAfterFiring(left, i - 1);
    } else {
      assert Slot(left, 1) == Slot(left, 0) + AtLeastOne(left[1] - left[0]);
    }
  }

  lemma {:induction false} SlotsAscend(left: seq<int>, i: nat, j: nat)
    requires i < j < |left|
    ensures 1 <= Slot(left, i) < Slot(left, j)
    decreases j
  {
    if i > 0 {
      SlotsAscend(left, i - 1, i);
    }
    if i < j - 1 {
      SlotsAscend(left, i, j - 1);
    }
  }

  /** The state after `n` ticks in a row. */
  function AfterTicks<A>(c: Clock<A>, n: nat): (d: Clock<A>)
    requires Applicable(c)
    ensures Applicable(d)
    decreases n
  {
    if n == 0 then c else TickApplicable(c); AfterTicks(Tick(c).0, n - 1)
  }

  lemma TickApplicable<A>(c: Clock<A>)
    requires Applicable(c)
    ensures Applicable(Tick(c).0)
  {
    if c.queue != [] && c.left[0] <= 1 {
      var d := HeadGone(Promoted(c));
      InsertMembers<A>(d.queue, Position(d.left, d.alarms[c.queue[0]].ticks), c.queue[0]);
    }
  }

  ghost predicate OneShots<A>(c: Clock<A>) {
    forall a :: a in c.queue ==> a in c.alarms && c.alarms[a].times == 1
  }

  lemma OneShotTick<A>(c: Clock<A>)
    requires Inv(c) && OneShots(c) && c.queue != []
    ensures var (d, fired) := Tick(c);
      && Inv(d) && OneShots(d)
      && (if c.left[0] <= 1 then
            fired == Some(c.queue[0]) && d.queue == c.queue[1..] && d.left == Less(c.left[1..], c.left[0])
          else fired == None && d.queue == c.queue && d.left == Less(c.left, 1))
  {
    TickKeeps(c);
    LessTwice(c.left);
    if c.left[0] <= 1 {
      HeadLeaves(c);
    }
  }

  lemma TickShiftsSlots(left: seq<int>)
    requires left != []
    ensures 1 < left[0] ==> forall i :: 0 <= i < |left| ==> Slot(Less(left, 1), i) == Slot(left, i) - 1
    ensures left[0] <= 1 ==>
              && Slot(left, 0) == 1
              && forall i :: 0 < i < |left| ==>
                   Slot(Less(left[1..], left[0]), i - 1) == Slot(left, i) - 1
  {
    if 1 < left[0] {
      forall i | 0 <= i < |left|
        ensures Slot(Less(left, 1), i) == Slot(left, i) - 1
      {
        SlotAfterTick(left, i);
      }
    } else {
      forall i | 0 < i < |left|
        ensures Slot(Less(left[1..], left[0]), i - 1) == Slot(left, i) - 1
      {
        SlotAfterFiring(left, i - 1);
      }
    }
  }

  lemma {:induction false} NothingFires<A>(c: Clock<A>, n: nat)
    requires Applicable(c) && c.queue == []
    ensures AfterTicks(c, n).queue == []
    decreases n
  {
    if n > 0 {
      NothingFires(Tick(c).0, n - 1);
    }
  }

  /** Alarm `fired` is the one of the queue whose slot is `n`. */
  ghost predicate FiresAt<A>(queue: seq<A>, left: seq<int>, n: int, fired: Option<A>)
    requires |left| == |queue|
  {
    && (forall i :: 0 <= i < |queue| ==> (fired == Some(queue[i]) <==> Slot(left, i) == n))
    && (fired != None ==> fired.value in queue)
  }

  ghost predicate FiresInSlot<A>(c: Clock<A>, n: int, fired: Option<A>)
    requires |c.left| == |c.queue|
  {
    FiresAt(c.queue, c.left, n, fired)
  }

  lemma FirstSlot<A>(c: Clock<A>)
    requires Inv(c) && OneShots(c)
    ensures FiresInSlot(c, 1, Tick(c).1)
  {
    if c.queue != [] {
      OneShotTick(c);
      hide Tick, Inv;
      forall i | 0 < i < |c.queue|
        ensures Slot(c.left, i) > Slot(c.left, 0) && c.queue[i] != c.queue[0]
      {
        SlotsAscend(c.left, 0, i);
      }
    }
  }

  lemma LaterSlot<A>(c: Clock<A>, n: int, fired: Option<A>)
    requires Inv(c) && OneShots(c) && c.queue != [] && 1 < n
    requires Inv(Tick(c).0) && FiresInSlot(Tick(c).0, n - 1, fired)
    ensures FiresInSlot(c, n, fired)
  {
    assert Applicable(c);
    hide Inv, Tick, FiresAt;
    OneShotTick(c);
    if c.left[0] <= 1 {
      HeadOnce(c);
      SlotBehindHead(c.queue, c.left, n, fired);
    } else {
      SlotOneLater(c.queue, c.left, n, fired);
    }
  }

  lemma SlotOneLater<A>(queue: seq<A>, left: seq<int>, n: int, fired: Option<A>)
    requires |left| == |queue| && queue != [] && 1 < left[0] && FiresAt(queue, Less(left, 1), n - 1, fired)
    ensures FiresAt(queue, left, n, fired)
  {
    hide Slot;
    TickShiftsSlots(left);
  }

  lemma SlotBehindHead<A>(queue: seq<A>, left: seq<int>, n: int, fired: Option<A>)
    requires |left| == |queue| && queue != [] && left[0] <= 1 && queue[0] !in queue[1..] && 1 < n
    requires FiresAt(queue[1..], Less(left[1..], left[0]), n - 1, fired)
    ensures FiresAt(queue, left, n, fired)
  {
    hide Slot;
    TickShiftsSlots(left);
    forall i | 0 <= i < |queue|
      ensures fired == Some(queue[i]) <==> Slot(left, i) == n
    {
      assert i > 0 ==> queue[i] == queue[1..][i - 1];
    }
  }

  lemma HeadOnce<A>(c: Clock<A>)
    requires Inv(c) && c.queue != []
    ensures c.queue[0] !in c.queue[1..]
  {
    forall i | 0 < i < |c.queue|
      ensures c.queue[i] == c.queue[1..][i - 1] && c.queue[i] != c.queue[0]
    {}
  }

  /** The alarm fired by the `n`-th of a run of ticks. */
  function FiredBy<A>(c: Clock<A>, n: nat): Option<A>
    requires Applicable(c) && 1 <= n
  {
    Tick(AfterTicks(c, n - 1)).1
  }

  lemma FiredByLater<A>(c: Clock<A>, n: nat)
    requires Applicable(c) && Applicable(Tick(c).0) && 1 < n
    ensures FiredBy(c, n) == FiredBy(Tick(c).0, n - 1)
  {
    assert AfterTicks(c, n - 1) == AfterTicks(Tick(c).0, n - 2);
  }

  lemma TickKeepsOneShots<A>(c: Clock<A>)
    requires Inv(c) && OneShots(c) && c.queue != []
    ensures Inv(Tick(c).0) && OneShots(Tick(c).0)
  {
    OneShotTick(c);
  }

  lemma ScheduleEmpty<A>(c: Clock<A>, n: nat)
    requires Applicable(c) && c.queue == [] && 1 <= n
    ensures FiresInSlot(c, n, FiredBy(c, n))
  {
    NothingFires(c, n - 1);
  }

  lemma ScheduleFirst<A>(c: Clock<A>)
    requires Inv(c) && OneShots(c)
    ensures FiresInSlot(c, 1, FiredBy(c, 1))
  {
    FirstSlot(c);
  }

  lemma ScheduleNext<A>(c: Clock<A>, n: nat)
    requires Inv(c) && OneShots(c) && c.queue != [] && 1 < n && Inv(Tick(c).0)
    requires FiresInSlot(Tick(c).0, n - 1, FiredBy(Tick(c).0, n - 1))
    ensures FiresInSlot(c, n, FiredBy(c, n))
  {
    LaterSlot(c, n, FiredBy(Tick(c).0, n - 1));
    FiredByLater(c, n);
  }

  /** With one-shot alarms only and nothing inserted or removed, the `n`-th tick fires exactly
      the alarm whose slot is `n`, and nothing when there is none. */
  lemma {:induction false} Schedule<A>(c: Clock<A>, n: nat)
    requires Inv(c) && OneShots(c) && 1 <= n
    ensures FiresInSlot(c, n, FiredBy(c, n))
    decreases n
  {
    hide FiredBy, AfterTicks, Tick, Slot;
    if c.queue == [] {
      ScheduleEmpty(c, n);
    } else if n == 1 {
      ScheduleFirst(c);
    } else {
      TickKeepsOneShots(c);
      Schedule(Tick(c).0, n - 1);
      ScheduleNext(c, n);
    }
  }

  /** The exact lateness law: queued to wait D1 <= ... <= Dn ticks, D1 at least 1, the i-th
      alarm fires at tick Di plus the number of ties among the first i. */
  lemma ExactLateness<A>(c: Clock<A>, i: nat)
    requires Inv(c) && OneShots(c) && i < |c.queue| && 1 <= c.left[0]
    ensures forall n: nat :: 1 <= n ==>
              (FiredBy(c, n) == Some(c.queue[i]) <==> n == c.left[i] + Ties(c.left, i))
  {
    SlotIsDuePlusTies(c.left, i);
    forall n: nat | 1 <= n
      ensures FiredBy(c, n) == Some(c.queue[i]) <==> n == Slot(c.left, i)
    {
      Schedule(c, n);
    }
  }
}
