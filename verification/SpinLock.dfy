/** The recursive spin lock: `acquire` and `release` as steps of any number of CPUs that interleave
    at every access to the lock's two words, and as calls by one CPU that run to their end. */
module SpinLock {

  type Id = int

  /** The level is an unsigned word. */
  const WRAP := 0x1_0000_0000

  /** Where a CPU is: at rest, at the compare-and-swap, before and after reading the level in
      `acquire`, before and after reading it in `release`, at the test that ends `release`. */
  datatype Phase = Calm | Trying | Raise | Raised(read: int) | Lower | Lowered(read: int) | Test(left: int)

  /** `depth` is how many acquisitions the CPU has completed and not yet released. */
  datatype Cpu = Cpu(depth: nat, phase: Phase)

  datatype Lock = Lock(owner: Id, level: int, cpus: map<Id, Cpu>)

  /** Atomic; gives the value found. */
  function Cas(value: int, compare: int, replacement: int): (int, int) {
    (if value == compare then replacement else value, value)
  }

  function Go(s: Lock, c: Id, cpu: Cpu): Lock {
    s.(cpus := s.cpus[c := cpu])
  }

  datatype Move = Acquire(cpu: Id) | Release(cpu: Id) | Next(cpu: Id)

  /** A CPU starts a call only at rest, and releases only what it has acquired. */
  predicate Allowed(s: Lock, m: Move) {
    && m.cpu in s.cpus
    && match m
       case Acquire(c) => s.cpus[c].phase == Calm
       case Release(c) => s.cpus[c].phase == Calm && s.cpus[c].depth > 0
       case Next(c) => s.cpus[c].phase != Calm
  }

  function Step(s: Lock, m: Move): Lock
    requires Allowed(s, m)
  {
    var c, p := m.cpu, s.cpus[m.cpu];
    match m
    case Acquire(_) => Go(s, c, p.(phase := Trying))
    case Release(_) => Go(s, c, p.(phase := Lower))
    case Next(_) =>
      match p.phase
      case Calm => s
      case Trying =>
        var (value, found) := Cas(s.owner, 0, c);
        Go(s.(owner := value), c, if found == c then p.(phase := Raise) else p)
      case Raise => Go(s, c, p.(phase := Raised(s.level)))
      case Raised(read) => Go(s.(level := (read + 1) % WRAP), c, Cpu(p.depth + 1, Calm))
      case Lower => Go(s, c, p.(phase := Lowered(s.level)))
      case Lowered(read) => Go(s.(level := (read - 1) % WRAP), c, p.(phase := Test((read - 1) % WRAP)))
      case Test(left) =>
        Go(if left == 0 then s.(owner := 0) else s, c, Cpu(if p.depth > 0 then p.depth - 1 else 0, Calm))
  }

  /** Between the compare-and-swap that let it in and the end of its last release. */
  predicate Inside(p: Cpu) {
    p.depth > 0 || p.phase.Raise? || p.phase.Raised?
  }

  /** What the level must be while `p` owns the lock. */
  function LevelOf(p: Cpu): int {
    (if p.phase.Test? then p.depth - 1 else p.depth) % WRAP
  }

  predicate CpuOk(s: Lock, c: Id)
    requires c in s.cpus
  {
    var p := s.cpus[c];
    && c != 0
    && (Inside(p) ==> s.owner == c)
    && (s.owner == c ==> s.level == LevelOf(p) && (Inside(p) || p.phase.Trying?))
    && (p.phase.Raised? || p.phase.Lowered? ==> p.phase.read == s.level)
    && (p.phase.Test? ==> p.phase.left == s.level)
    && (p.phase.Lower? || p.phase.Lowered? || p.phase.Test? ==> p.depth > 0)
  }

  predicate Inv(s: Lock) {
    && (forall c :: c in s.cpus ==> CpuOk(s, c))
    && (s.owner == 0 ==> s.level == 0)
    && (s.owner != 0 ==> s.owner in s.cpus)
  }

  /** The test at the end of a release that leaves acquisitions behind, but so many that the level
      has come round to zero. */
  predicate TooDeep(s: Lock, m: Move)
    requires Allowed(s, m)
  {
    var p := s.cpus[m.cpu];
    m.Next? && p.phase.Test? && p.depth > 1 && (p.depth - 1) % WRAP == 0
  }

  lemma StepIff(s: Lock, m: Move)
    requires Inv(s) && Allowed(s, m)
    ensures Inv(Step(s, m)) <==> !TooDeep(s, m)
  {
    var d := Step(s, m);
    assert CpuOk(s, m.cpu);
    if TooDeep(s, m) {
      assert Inside(d.cpus[m.cpu]) && d.owner == 0;
      assert !CpuOk(d, m.cpu);
    } else {
      LevelSteps(s.level, s.cpus[m.cpu].depth);
      hide Inv;
      StepKeeps(s, m);
    }
  }

  lemma LevelSteps(level: int, depth: nat)
    ensures level == depth % WRAP ==> (level + 1) % WRAP == (depth + 1) % WRAP
    ensures level == depth % WRAP ==> (level - 1) % WRAP == (depth - 1) % WRAP
  {}

  lemma StepKeeps(s: Lock, m: Move)
    requires Inv(s) && Allowed(s, m) && !TooDeep(s, m)
    ensures Inv(Step(s, m))
  {
    var d := Step(s, m);
    assert CpuOk(s, m.cpu);
    LevelSteps(s.level, s.cpus[m.cpu].depth);
    forall c | c in d.cpus
      ensures CpuOk(d, c)
    {
      assert CpuOk(s, c);
    }
  }

  /** No CPU nests more acquisitions than the level can count. */
  predicate Shallow(s: Lock, m: Move)
    requires Allowed(s, m)
  {
    m.Acquire? ==> s.cpus[m.cpu].depth < WRAP
  }

  predicate IsRun(trace: seq<Lock>, moves: seq<Move>, cpus: set<Id>) {
    && |trace| == |moves| + 1 && 0 !in cpus
    && trace[0] == Lock(0, 0, map c | c in cpus :: Cpu(0, Calm))
    && forall i :: 0 <= i < |moves| ==>
         Allowed(trace[i], moves[i]) && Shallow(trace[i], moves[i]) && trace[i + 1] == Step(trace[i], moves[i])
  }

  predicate DepthOk(p: Cpu) {
    p.depth <= WRAP && (p.phase.Trying? || p.phase.Raise? || p.phase.Raised? ==> p.depth < WRAP)
  }

  lemma {:induction false} RunKeeps(trace: seq<Lock>, moves: seq<Move>, cpus: set<Id>, n: nat)
    requires IsRun(trace, moves, cpus) && n < |trace|
    ensures Inv(trace[n]) && forall c :: c in trace[n].cpus ==> DepthOk(trace[n].cpus[c])
  {
    if n > 0 {
      RunKeeps(trace, moves, cpus, n - 1);
      assert DepthOk(trace[n - 1].cpus[moves[n - 1].cpu]);
      StepIff(trace[n - 1], moves[n - 1]);
      hide Inv;
      StepDepths(trace[n - 1], moves[n - 1]);
    }
  }

  lemma StepDepths(s: Lock, m: Move)
    requires Allowed(s, m) && Shallow(s, m) && forall c :: c in s.cpus ==> DepthOk(s.cpus[c])
    ensures forall c :: c in Step(s, m).cpus ==> DepthOk(Step(s, m).cpus[c])
  {
    assert DepthOk(s.cpus[m.cpu]);
  }

  /** In every run at most one CPU is inside; it owns the lock and the level is its depth but for
      the release it may be finishing; and with nobody inside the lock is free, or belongs to a
      CPU that has won it and is about to notice. */
  lemma MutualExclusion(trace: seq<Lock>, moves: seq<Move>, cpus: set<Id>, n: nat, a: Id, b: Id)
    requires IsRun(trace, moves, cpus) && n < |trace| && a in trace[n].cpus && b in trace[n].cpus
    ensures Inside(trace[n].cpus[a]) && Inside(trace[n].cpus[b]) ==> a == b
    ensures Inside(trace[n].cpus[a]) ==> trace[n].owner == a && trace[n].level == LevelOf(trace[n].cpus[a])
    ensures !Inside(trace[n].cpus[a]) && trace[n].owner == a ==> trace[n].cpus[a].phase.Trying? && trace[n].level == 0
    ensures trace[n].owner == 0 ==> trace[n].level == 0 && !Inside(trace[n].cpus[a])
  {
    RunKeeps(trace, moves, cpus, n);
    assert CpuOk(trace[n], a) && CpuOk(trace[n], b);
  }

  /** A release gives the lock up exactly when it takes the depth to zero. */
  lemma ReleasedAtZero(s: Lock, c: Id)
    requires Inv(s) && c in s.cpus && s.cpus[c].phase.Test? && s.cpus[c].depth <= WRAP
    ensures var d := Step(s, Next(c));
      && d.cpus[c] == Cpu(s.cpus[c].depth - 1, Calm)
      && (d.owner == 0 <==> d.cpus[c].depth == 0)
      && (d.owner != 0 ==> d.owner == c && d.level == d.cpus[c].depth)
  {
    assert CpuOk(s, c);
  }

  // ----- Calls that run to their end without interference.

  function Steps(s: Lock, c: Id, n: nat): Lock
    decreases n
  {
    if n == 0 || !Allowed(s, Next(c)) then s else Steps(Step(s, Next(c)), c, n - 1)
  }

  /** A CPU that finds the lock free swaps twice: the second time it finds itself the owner. */
  function Acquired(s: Lock, c: Id): Lock
    requires Allowed(s, Move.Acquire(c))
  {
    Steps(Step(s, Move.Acquire(c)), c, if s.owner == c then 3 else 4)
  }

  function Released(s: Lock, c: Id): Lock
    requires Allowed(s, Move.Release(c))
  {
    Steps(Step(s, Move.Release(c)), c, 3)
  }

  lemma AcquiredIs(s: Lock, c: Id)
    requires Allowed(s, Move.Acquire(c)) && (s.owner == 0 || s.owner == c) && c != 0
    ensures Acquired(s, c) == Lock(c, (s.level + 1) % WRAP, s.cpus[c := Cpu(s.cpus[c].depth + 1, Calm)])
  {
    var depth := s.cpus[c].depth;
    var level := (s.level + 1) % WRAP;
    var a1 := Step(s, Move.Acquire(c));
    var a2 := if s.owner == c then a1 else Step(a1, Next(c));
    assert a2 == Lock(c, s.level, s.cpus[c := Cpu(depth, Trying)]);
    var a3 := Step(a2, Next(c));
    assert a3 == Lock(c, s.level, s.cpus[c := Cpu(depth, Raise)]);
    var a4 := Step(a3, Next(c));
    assert a4 == Lock(c, s.level, s.cpus[c := Cpu(depth, Raised(s.level))]);
    assert Step(a4, Next(c)) == Lock(c, level, s.cpus[c := Cpu(depth + 1, Calm)]);
    assert Steps(a2, c, 3) == Steps(a3, c, 2) == Steps(a4, c, 1);
  }

  lemma ReleasedIs(s: Lock, c: Id)
    requires Allowed(s, Move.Release(c))
    ensures var level := (s.level - 1) % WRAP;
      Released(s, c) == Lock(if level == 0 then 0 else s.owner, level, s.cpus[c := Cpu(s.cpus[c].depth - 1, Calm)])
  {
    var depth := s.cpus[c].depth;
    var level := (s.level - 1) % WRAP;
    var r1 := Step(s, Move.Release(c));
    var r2 := Step(r1, Next(c));
    assert r2 == Lock(s.owner, s.level, s.cpus[c := Cpu(depth, Lowered(s.level))]);
    var r3 := Step(r2, Next(c));
    assert r3 == Lock(s.owner, level, s.cpus[c := Cpu(depth, Test(level))]);
    assert Steps(r1, c, 3) == Steps(r2, c, 2) == Steps(r3, c, 1);
  }

  /** A CPU that releases what it holds keeps the lock in order, unless it holds too much; one that
      holds nothing takes a level away that is not its own. */
  lemma ReleaseIff(s: Lock, c: Id)
    requires Inv(s) && c in s.cpus && s.cpus[c].phase == Calm
    ensures var (level, p) := ((s.level - 1) % WRAP, s.cpus[c]);
      var d := Lock(if level == 0 then 0 else s.owner, level,
                    s.cpus[c := Cpu(if p.depth > 0 then p.depth - 1 else 0, Calm)]);
      Inv(d) <==> p.depth > 0 && (p.depth > 1 ==> (p.depth - 1) % WRAP != 0)
  {
    var p, level := s.cpus[c], (s.level - 1) % WRAP;
    var d := Lock(if level == 0 then 0 else s.owner, level,
                  s.cpus[c := Cpu(if p.depth > 0 then p.depth - 1 else 0, Calm)]);
    assert CpuOk(s, c);
    LevelSteps(s.level, p.depth);
    if p.depth > 0 && (p.depth > 1 ==> (p.depth - 1) % WRAP != 0) {
      forall o | o in d.cpus
        ensures CpuOk(d, o)
      {
        assert CpuOk(s, o);
      }
    } else if p.depth > 0 {
      assert !CpuOk(d, c);
    } else if s.owner != 0 {
      assert d.cpus == s.cpus;
      StrangersLevel(s, d, c);
    } else {
      assert d.owner == 0 && d.level == WRAP - 1;
    }
  }

  lemma StrangersLevel(s: Lock, d: Lock, c: Id)
    requires Inv(s) && c in s.cpus && s.cpus[c] == Cpu(0, Calm) && s.owner != 0
    requires d == Lock(if d.level == 0 then 0 else s.owner, d.level, s.cpus) && d.level == (s.level - 1) % WRAP
    ensures !Inv(d)
  {
    var o := s.owner;
    assert CpuOk(s, o) && CpuOk(s, c);
    if d.level == 0 {
      assert s.level == 1;
      assert Inside(s.cpus[o]);
      assert !CpuOk(d, o);
    } else {
      assert d.level != s.level;
      assert !CpuOk(d, o);
    }
  }

  lemma AcquireKeeps(s: Lock, c: Id)
    requires Inv(s) && Allowed(s, Move.Acquire(c)) && (s.owner == 0 || s.owner == c)
    ensures c != 0 && Inv(Acquired(s, c))
  {
    assert CpuOk(s, c);
    AcquiredIs(s, c);
    LevelSteps(s.level, s.cpus[c].depth);
    var d := Acquired(s, c);
    forall o | o in d.cpus
      ensures CpuOk(d, o)
    {
      assert CpuOk(s, o);
    }
  }

  /** The lock as the two words it is. */
  class Spin {
    var level: int
    var owner: Id
    ghost var cpus: map<Id, Cpu>

    ghost function View(): Lock
      reads this
    {
      Lock(owner, level, cpus)
    }

    constructor (ghost ids: set<Id>)
      requires 0 !in ids
      ensures View() == Lock(0, 0, map c | c in ids :: Cpu(0, Calm)) && Inv(View())
    {
      level, owner := 0, 0;
      cpus := map c | c in ids :: Cpu(0, Calm);
    }

    method Swap(compare: int, replacement: int) returns (found: int)
      modifies this`owner
      ensures (owner, found) == Cas(old(owner), compare, replacement)
    {
      found := owner;
      if owner == compare {
        owner := replacement;
      }
    }

    /** The caller owns the lock when nobody else does. */
    method Acquire(me: Id)
      requires Inv(View()) && Allowed(View(), Move.Acquire(me)) && (owner == 0 || owner == me)
      modifies this
      ensures View() == Acquired(old(View()), me)
      ensures Inv(View()) && owner == me && cpus[me] == Cpu(old(cpus[me].depth) + 1, Calm)
    {
      hide Inv, Acquired;
      AcquireKeeps(View(), me);
      AcquiredIs(View(), me);
      var found := Swap(0, me);
      while found != me
        invariant owner == me && level == old(level) && (found == 0 || found == me) && cpus == old(cpus)
        decreases if found == me then 0 else 1
      {
        found := Swap(0, me);
      }
      level := (level + 1) % WRAP;
      cpus := cpus[me := Cpu(cpus[me].depth + 1, Calm)];
    }

    /** The lock stays in order exactly if the caller holds it, and not more often than the level
        can tell. */
    method Release(ghost me: Id)
      requires Inv(View()) && me in cpus && cpus[me].phase == Calm
      modifies this
      ensures var depth := old(cpus[me].depth);
        && (depth > 0 ==> View() == Released(old(View()), me))
        && (Inv(View()) <==> depth > 0 && (depth > 1 ==> (depth - 1) % WRAP != 0))
        && (Inv(View()) ==> (owner == 0 <==> depth == 1))
    {
      ReleaseIff(View(), me);
      Held(View(), me);
      if cpus[me].depth > 0 {
        ReleasedIs(View(), me);
      }
      hide Inv, Released;
      level := (level - 1) % WRAP;
      if level == 0 {
        owner := 0;
      }
      cpus := cpus[me := Cpu(if cpus[me].depth > 0 then cpus[me].depth - 1 else 0, Calm)];
    }
  }

  lemma Held(s: Lock, c: Id)
    requires Inv(s) && c in s.cpus
    ensures s.cpus[c].phase == Calm && s.cpus[c].depth > 0 ==> s.owner == c != 0 && s.level == s.cpus[c].depth % WRAP
    ensures s.cpus[c].phase == Calm && s.cpus[c].depth > 0 ==> (s.level - 1) % WRAP == (s.cpus[c].depth - 1) % WRAP
  {
    assert CpuOk(s, c);
    LevelSteps(s.level, s.cpus[c].depth);
  }
}
