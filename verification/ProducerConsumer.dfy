/** The demonstration application: a producer and a consumer share a circular buffer under two
    semaphores, on the kernel, among other threads that do whatever the kernel allows. */
module ProducerConsumer {
  import opened RankOrder
  import opened KernelModel
  import opened Words
  import opened KernelLaws
  import opened KernelAdmin
  import opened KernelRuns
  import opened KernelOrder
  import opened Semaphores

  /** `size` slots; `iterations` rounds of each of the two loops. */
  datatype Setup = Setup(idle: Tid, producer: Tid, consumer: Tid, empty: Qid, full: Qid, size: nat, iterations: nat)

  ghost predicate Proper(c: Setup) {
    && c.idle != c.producer && c.idle != c.consumer && c.producer != c.consumer
    && c.empty != c.full && 0 < c.size <= MAX
  }

  /** Where a thread is in its loop: before `p`, past `p` or waiting in it, before `v`. */
  datatype Place = WANT | USE | SIGNAL

  /** `i`, `put` and `at`, `j`, `take` and `from` are the rounds, the index and the place of the
      producer and of the consumer. `produced` and `consumed` is everything so far. */
  datatype App = App(k: Kernel, i: nat, put: nat, at: Place, j: nat, take: nat, from: Place,
                     buffer: seq<int>, produced: seq<int>, consumed: seq<int>)

  /** A step of the running thread: the producer's, with the item it makes, the consumer's, or
      any operation on the kernel by whoever runs. */
  datatype Action = Produce(item: int) | Consume | Other(op: Op)

  predicate Foreign(op: Op, q: Qid) {
    Private(op, q) && op != POp(q) && op != VOp(q)
  }

  ghost predicate Enabled(c: Setup, s: App, a: Action) {
    match a
    case Produce(x) => s.k.chosen == c.producer && (s.at == WANT ==> s.i < c.iterations)
    case Consume => s.k.chosen == c.consumer && (s.from == WANT ==> s.j < c.iterations)
    case Other(op) =>
      && Admitted(s.k, c.idle, op)
      && Foreign(op, c.empty) && Foreign(op, c.full)
      && KeepsWaiters(s.k, op, c.empty) && KeepsWaiters(s.k, op, c.full)
  }

  /** The slots the two threads are about to use are in the buffer. */
  predicate InBounds(c: Setup, s: App) {
    0 < c.size == |s.buffer| && s.put < c.size && s.take < c.size
  }

  function Next(c: Setup, s: App, a: Action): App
    requires InBounds(c, s)
  {
    match a
    case Other(op) => s.(k := Step(s.k, op))
    case Produce(x) => (
      match s.at
      case WANT => s.(k := P(s.k, c.empty), at := USE)
      case USE =>
        s.(buffer := s.buffer[s.put := x], put := (s.put + 1) % c.size, produced := s.produced + [x], at := SIGNAL)
      case SIGNAL => s.(k := V(s.k, c.full), i := s.i + 1, at := WANT))
    case Consume => (
      match s.from
      case WANT => s.(k := P(s.k, c.full), from := USE)
      case USE => s.(consumed := s.consumed + [s.buffer[s.take]], take := (s.take + 1) % c.size, from := SIGNAL)
      case SIGNAL => s.(k := V(s.k, c.empty), j := s.j + 1, from := WANT))
  }

  // ----- The invariant.

  /** Only `t` ever waits on `q`, and only past its `p`. */
  ghost predicate OnlyWaiter(k: Kernel, q: Qid, t: Tid, place: Place) {
    && Accounted(k, q)
    && forall u :: u in k.queues[q] ==> u == t && place == USE
  }

  function Begun(place: Place): nat {
    if place == WANT then 0 else 1
  }

  function Done(place: Place): nat {
    if place == SIGNAL then 1 else 0
  }

  ghost predicate SemaphoresOk(c: Setup, s: App) {
    && Inv(s.k, c.idle)
    && OnlyWaiter(s.k, c.empty, c.producer, s.at) && OnlyWaiter(s.k, c.full, c.consumer, s.from)
    && s.k.value[c.empty] == c.size + s.j - (s.i + Begun(s.at))
    && s.k.value[c.full] == s.i - (s.j + Begun(s.from))
  }

  ghost predicate BufferOk(c: Setup, s: App) {
    && InBounds(c, s)
    && |s.produced| == s.i + Done(s.at) && |s.consumed| == s.j + Done(s.from)
    && s.put == |s.produced| % c.size && s.take == |s.consumed| % c.size
    && |s.consumed| <= |s.produced| <= |s.consumed| + c.size
    && s.consumed <= s.produced
    && forall n :: |s.consumed| <= n < |s.produced| ==> s.buffer[n % c.size] == s.produced[n]
  }

  ghost predicate AppInv(c: Setup, s: App) {
    Proper(c) && SemaphoresOk(c, s) && BufferOk(c, s)
  }

  /** A thread that runs is past its `p`: the value it left behind is not negative. */
  lemma PassedP(k: Kernel, idle: Tid, q: Qid, t: Tid, place: Place)
    requires Inv(k, idle) && OnlyWaiter(k, q, t, place) && k.chosen == t
    ensures k.queues[q] == [] && 0 <= k.value[q]
  {
    assert k.queues[q] != [] ==> k.queues[q][0] in k.queues[q];
    ChosenIsThread(k, idle, k.chosen);
    OneList(k, idle, t);
  }

  // ----- Safety of one step.

  lemma ModDiffers(a: nat, b: nat, m: nat)
    requires 0 < m && a < b < a + m
    ensures a % m != b % m
  {
    var q, r, d := a / m, a % m, b - a;
    assert a == q * m + r;
    if r + d < m {
      ModIs(b, m, q, r + d);
    } else {
      ModIs(b, m, q + 1, r + d - m);
    }
  }

  /** The producer writes only into a slot whose item has been consumed. */
  lemma NoOverwrite(c: Setup, s: App, x: int)
    requires AppInv(c, s) && Enabled(c, s, Produce(x)) && s.at == USE
    ensures |s.produced| < |s.consumed| + c.size
    ensures forall n :: |s.consumed| <= n < |s.produced| ==> n % c.size != s.put
  {
    PassedP(s.k, c.idle, c.empty, c.producer, s.at);
    forall n | |s.consumed| <= n < |s.produced|
      ensures n % c.size != s.put
    {
      ModDiffers(n, |s.produced|, c.size);
    }
  }

  /** The consumer reads only a slot that holds the next item not yet consumed. */
  lemma NoEmptyRead(c: Setup, s: App)
    requires AppInv(c, s) && Enabled(c, s, Consume) && s.from == USE
    ensures |s.consumed| < |s.produced| && s.buffer[s.take] == s.produced[|s.consumed|]
  {
    PassedP(s.k, c.idle, c.full, c.consumer, s.from);
  }

  // ----- Every step keeps the invariant.

  lemma OtherKeeps(c: Setup, s: App, op: Op)
    requires AppInv(c, s) && Enabled(c, s, Other(op))
    ensures AppInv(c, Next(c, s, Other(op)))
  {
    StepIff(s.k, c.idle, op);
    ForeignKeeps(s.k, c.idle, op, c.empty);
    ForeignKeeps(s.k, c.idle, op, c.full);
  }

  lemma ForeignKeeps(k: Kernel, idle: Tid, op: Op, q: Qid)
    requires Inv(k, idle) && Admitted(k, idle, op) && Foreign(op, q) && KeepsWaiters(k, op, q) && Accounted(k, q)
    ensures var d := Step(k, op);
      q in d.queues && q in d.value && d.queues[q] == k.queues[q] && d.value[q] == k.value[q]
  {
    hide Step, Inv;
    QueueSteps(k, idle, op, q);
    if op.DestroyOp? {
      LeaveAbsent(k.queues[q], op.thread);
    }
  }

  lemma StepIsPV(k: Kernel, q: Qid)
    ensures P(k, q) == Step(k, POp(q)) && V(k, q) == Step(k, VOp(q))
  {
    hide P, V;
  }

  /** A call on one semaphore leaves the other alone. */
  lemma OtherAlone(k: Kernel, idle: Tid, op: Op, q: Qid, other: Qid)
    requires Inv(k, idle) && (op == POp(q) || op == VOp(q)) && Admitted(k, idle, op)
    requires Accounted(k, other) && q != other
    ensures var d := Step(k, op);
      Accounted(d, other) && d.queues[other] == k.queues[other] && d.value[other] == k.value[other]
  {
    hide Step, Inv;
    QueueSteps(k, idle, op, other);
  }

  lemma NobodyWaits(k: Kernel, q: Qid, t: Tid)
    requires OnlyWaiter(k, q, t, WANT)
    ensures k.queues[q] == [] && 0 <= k.value[q]
  {
    HasHead(k.queues[q]);
  }

  lemma HasHead(s: seq<Tid>)
    ensures s != [] ==> exists u :: u in s
  {
    if s != [] {
      assert s[0] in s;
    }
  }

  lemma PUses(k: Kernel, idle: Tid, q: Qid, t: Tid)
    requires Inv(k, idle) && k.chosen == t != idle && OnlyWaiter(k, q, t, WANT)
    ensures var d := Step(k, POp(q));
      OnlyWaiter(d, q, t, USE) && d.value[q] == k.value[q] - 1
  {
    hide Step, Inv, Enter;
    NobodyWaits(k, q, t);
    QueueSteps(k, idle, POp(q), q);
    AccountingIff(k, idle, POp(q), q);
    EnterMembers(k.queues[q], t, k.rank);
  }

  lemma VFrees(k: Kernel, idle: Tid, q: Qid, t: Tid, place: Place)
    requires Inv(k, idle) && OnlyWaiter(k, q, t, place) && k.value[q] < MAX
    ensures var d := Step(k, VOp(q));
      OnlyWaiter(d, q, t, place) && d.value[q] == k.value[q] + 1
  {
    hide Step, Inv;
    QueueSteps(k, idle, VOp(q), q);
    AccountingIff(k, idle, VOp(q), q);
    if k.queues[q] != [] {
      assert forall u :: u in k.queues[q][1..] ==> u in k.queues[q];
    }
  }

  /** The value of `q` has changed by `change`, and the other semaphore is as before. */
  ghost predicate Moved(k: Kernel, d: Kernel, q: Qid, other: Qid, change: int)
    requires Accounted(k, q) && Accounted(k, other)
  {
    && Accounted(d, q) && d.value[q] == k.value[q] + change
    && Accounted(d, other) && d.queues[other] == k.queues[other] && d.value[other] == k.value[other]
  }

  /** What `p` by `t` does to the semaphore it is called on and to the other one. */
  lemma PKeeps(k: Kernel, idle: Tid, q: Qid, other: Qid, t: Tid)
    requires Inv(k, idle) && k.chosen == t && t != idle && q != other
    requires OnlyWaiter(k, q, t, WANT) && Accounted(k, other)
    ensures Inv(P(k, q), idle) && OnlyWaiter(P(k, q), q, t, USE) && Moved(k, P(k, q), q, other, -1)
  {
    StepIsPV(k, q);
    hide Step, Inv, P;
    PIff(k, idle, q);
    PUses(k, idle, q, t);
    OtherAlone(k, idle, POp(q), q, other);
  }

  lemma VKeepsBoth(k: Kernel, idle: Tid, q: Qid, other: Qid, t: Tid, place: Place)
    requires Inv(k, idle) && q != other
    requires OnlyWaiter(k, q, t, place) && Accounted(k, other) && k.value[q] < MAX
    ensures Inv(V(k, q), idle) && OnlyWaiter(V(k, q), q, t, place) && Moved(k, V(k, q), q, other, 1)
  {
    StepIsPV(k, q);
    hide Step, Inv, V;
    VKeeps(k, idle, q);
    VFrees(k, idle, q, t, place);
    OtherAlone(k, idle, VOp(q), q, other);
  }

  lemma ProduceKeeps(c: Setup, s: App, x: int)
    requires AppInv(c, s) && Enabled(c, s, Produce(x))
    ensures AppInv(c, Next(c, s, Produce(x)))
  {
    hide Inv, P, V;
    match s.at
    case WANT => PKeeps(s.k, c.idle, c.empty, c.full, c.producer);
    case USE => WriteKeeps(c, s, x);
    case SIGNAL => VKeepsBoth(s.k, c.idle, c.full, c.empty, c.consumer, s.from);
  }

  lemma WriteKeeps(c: Setup, s: App, x: int)
    requires AppInv(c, s) && Enabled(c, s, Produce(x)) && s.at == USE
    ensures AppInv(c, Next(c, s, Produce(x)))
  {
    hide Inv, P, V, Step;
    PassedP(s.k, c.idle, c.empty, c.producer, s.at);
    NoOverwrite(c, s, x);
    WriteBuffer(c, s, x);
    hide BufferOk;
  }

  lemma WriteBuffer(c: Setup, s: App, x: int)
    requires BufferOk(c, s) && s.at == USE && |s.produced| < |s.consumed| + c.size
    requires forall n :: |s.consumed| <= n < |s.produced| ==> n % c.size != s.put
    ensures BufferOk(c, Next(c, s, Produce(x)))
  {
    hide P, V, Step;
    NextPlace(|s.produced|, c.size);
    var d := Next(c, s, Produce(x));
    forall n | |d.consumed| <= n < |d.produced|
      ensures d.buffer[n % c.size] == d.produced[n]
    {
      if n < |s.produced| {
        assert s.buffer[n % c.size] == s.produced[n];
      }
    }
  }

  lemma NextPlace(n: nat, m: nat)
    requires 0 < m
    ensures (n % m + 1) % m == (n + 1) % m
  {
    NextIndex(n + 1, m);
    if n % m + 1 < m {
      ModIs(n % m + 1, m, 0, n % m + 1);
    } else {
      ModIs(m, m, 1, 0);
    }
  }

  lemma ConsumeKeeps(c: Setup, s: App)
    requires AppInv(c, s) && Enabled(c, s, Consume)
    ensures AppInv(c, Next(c, s, Consume))
  {
    hide Inv, P, V;
    match s.from
    case WANT => PKeeps(s.k, c.idle, c.full, c.empty, c.consumer);
    case USE => ReadKeeps(c, s);
    case SIGNAL => VKeepsBoth(s.k, c.idle, c.empty, c.full, c.producer, s.at);
  }

  lemma ReadKeeps(c: Setup, s: App)
    requires AppInv(c, s) && Enabled(c, s, Consume) && s.from == USE
    ensures AppInv(c, Next(c, s, Consume))
  {
    hide Inv, P, V, Step;
    PassedP(s.k, c.idle, c.full, c.consumer, s.from);
    NoEmptyRead(c, s);
    ReadBuffer(c, s);
    hide BufferOk;
  }

  lemma ReadBuffer(c: Setup, s: App)
    requires BufferOk(c, s) && s.from == USE
    requires |s.consumed| < |s.produced| && s.buffer[s.take] == s.produced[|s.consumed|]
    ensures BufferOk(c, Next(c, s, Consume))
  {
    hide P, V, Step;
    NextPlace(|s.consumed|, c.size);
  }

  // ----- Runs.

  ghost predicate Starts(c: Setup, s: App) {
    && Proper(c) && Inv(s.k, c.idle)
    && QueueOf(s.k, c.empty) == [] && QueueOf(s.k, c.full) == []
    && c.empty in s.k.queues && c.empty in s.k.value && s.k.value[c.empty] == c.size
    && c.full in s.k.queues && c.full in s.k.value && s.k.value[c.full] == 0
    && |s.buffer| == c.size
    && s == App(s.k, 0, 0, WANT, 0, 0, WANT, s.buffer, [], [])
  }

  /** The kernel boots, and the constructors of the two semaphores run. */
  function Started(c: Setup, main: Tid, r: int, low: int): Kernel
    requires c.size <= MAX
  {
    CreateSemaphore(CreateSemaphore(Boot(main, r, c.idle, low), c.empty, c.size), c.full, 0)
  }

  /** Every run of the kernel that begins with the construction of the two semaphores is where
      the application can start. */
  lemma StartsFromBoot(c: Setup, main: Tid, r: int, low: int, buffer: seq<int>)
    requires Proper(c) && c.empty != 0 && c.full != 0 && |buffer| == c.size
    requires main != c.idle && main != 0 && c.idle != 0 && r < low
    ensures var (k, ops) := (Boot(main, r, c.idle, low), [NewSemaphoreOp(c.empty, c.size), NewSemaphoreOp(c.full, 0)]);
      IsRun([k, Step(k, ops[0]), Started(c, main, r, low)], ops, main, r, c.idle, low)
    ensures Starts(c, App(Started(c, main, r, low), 0, 0, WANT, 0, 0, WANT, buffer, [], []))
  {
    hide Boot, Inv;
    var k := Boot(main, r, c.idle, low);
    BootIff(main, r, c.idle, low);
    BootQueues(main, r, c.idle, low);
    NewSemaphoreKeeps(k, c.idle, c.empty, c.size);
    NewSemaphoreKeeps(CreateSemaphore(k, c.empty, c.size), c.idle, c.full, 0);
  }

  lemma BootQueues(main: Tid, r: int, idle: Tid, low: int)
    ensures Boot(main, r, idle, low).queues == map[]
  {
    hide Create;
    CreateQueues(HALTED, main, RUNNING, r);
    CreateQueues(Create(HALTED, main, RUNNING, r), idle, READY, low);
  }

  lemma CreateQueues(k: Kernel, t: Tid, s: State, r: int)
    ensures Create(k, t, s, r).queues == k.queues
  {
    hide Reschedule, Enter, Leave;
    var i := Insert(NewThread(k, t, s, r), t);
    RescheduleQueues(if s != READY && s != RUNNING then Remove(i, t) else i);
  }

  ghost predicate IsAppRun(c: Setup, trace: seq<App>, actions: seq<Action>) {
    && |trace| == |actions| + 1 && Starts(c, trace[0])
    && forall n :: 0 <= n < |actions| ==>
         Enabled(c, trace[n], actions[n]) &&
         (InBounds(c, trace[n]) ==> trace[n + 1] == Next(c, trace[n], actions[n]))
  }

  lemma {:induction false} AppRunKeeps(c: Setup, trace: seq<App>, actions: seq<Action>, n: nat)
    requires IsAppRun(c, trace, actions) && n < |trace|
    ensures AppInv(c, trace[n])
  {
    hide Inv, Next, Enabled;
    if n == 0 {
      StartsOk(c, trace[0]);
    } else {
      AppRunKeeps(c, trace, actions, n - 1);
      match actions[n - 1]
      case Produce(x) => ProduceKeeps(c, trace[n - 1], x);
      case Consume => ConsumeKeeps(c, trace[n - 1]);
      case Other(op) => OtherKeeps(c, trace[n - 1], op);
    }
  }

  lemma StartsOk(c: Setup, s: App)
    requires Starts(c, s)
    ensures AppInv(c, s)
  {
    hide Inv;
  }

  /** Whatever the interleaving and the number of rounds, what has been consumed is always a
      prefix of what has been produced, and never more than a buffer behind. */
  lemma ConsumedIsPrefix(c: Setup, trace: seq<App>, actions: seq<Action>, n: nat)
    requires IsAppRun(c, trace, actions) && n < |trace|
    ensures trace[n].consumed <= trace[n].produced
    ensures |trace[n].produced| <= |trace[n].consumed| + c.size
  {
    AppRunKeeps(c, trace, actions, n);
  }
}
