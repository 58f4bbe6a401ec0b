/** Runs of the SIP transactions: what the user agent hears, how often, and for how long. */
module SipLaws {
  import opened SipModel

  datatype Step = Tick(to: int) | Happen(event: Event)

  datatype World = World(agent: Agent, now: int)

  /** Time does not pass a running timer by more than `late`. */
  predicate Allowed(w: World, s: Step, late: nat) {
    match s
    case Tick(to) => w.now <= to && forall t :: t in w.agent.due ==> to <= w.agent.due[t] + late
    case Happen(e) => Possible(w.agent, w.now, e)
  }

  function Next(k: Kind, w: World, s: Step): World {
    match s
    case Tick(to) => w.(now := to)
    case Happen(e) => w.(agent := On(k, w.agent, w.now, e))
  }

  ghost predicate IsRun(k: Kind, trace: seq<World>, steps: seq<Step>, late: nat) {
    && |trace| == |steps| + 1
    && trace[0].agent == FRESH
    && forall i :: 0 <= i < |steps| ==>
         Allowed(trace[i], steps[i], late) && trace[i + 1] == Next(k, trace[i], steps[i])
  }

  /** In every run exactly the timers of the state are running. */
  lemma {:induction false} RunExact(k: Kind, trace: seq<World>, steps: seq<Step>, late: nat, n: nat)
    requires IsRun(k, trace, steps, late) && n < |trace|
    ensures Exact(k, trace[n].agent)
  {
    hide On;
    if n > 0 {
      RunExact(k, trace, steps, late, n - 1);
      if steps[n - 1].Happen? {
        OnKeeps(k, trace[n - 1].agent, trace[n - 1].now, steps[n - 1].event);
      }
    }
  }

  // ----- What the user agent hears.

  function Finals(log: seq<Note>): nat {
    if log == [] then 0
    else
      var n := log[|log| - 1];
      Finals(log[..|log| - 1]) + if n.Told? && n.message.Response? && n.message.code >= 200 then 1 else 0
  }

  function Heard(log: seq<Note>): nat {
    if log == [] then 0
    else
      var n := log[|log| - 1];
      Heard(log[..|log| - 1]) + if n.Told? && n.message.Request? then 1 else 0
  }

  function Requests(log: seq<Note>): nat {
    if log == [] then 0
    else
      var n := log[|log| - 1];
      Requests(log[..|log| - 1]) + if n.Sent? && n.message.Request? then 1 else 0
  }

  lemma Noted(log: seq<Note>, n: Note)
    ensures Finals(log + [n]) == Finals(log) + if n.Told? && n.message.Response? && n.message.code >= 200 then 1 else 0
    ensures Heard(log + [n]) == Heard(log) + if n.Told? && n.message.Request? then 1 else 0
    ensures Requests(log + [n]) == Requests(log) + if n.Sent? && n.message.Request? then 1 else 0
  {
    assert (log + [n])[..|log|] == log;
  }

  predicate Ended(s: State) {
    s == Completed || s == Terminated
  }

  predicate OneFinal(a: Agent) {
    Finals(a.log) == if Ended(a.state) then 1 else 0
  }

  /** What each note that an event can add to the log counts for. */
  lemma Notes(log: seq<Note>)
    ensures forall m: Message :: Requests(log + [Sent(m)]) == Requests(log) + if m.Request? then 1 else 0
    ensures forall m: Message :: Finals(log + [Sent(m)]) == Finals(log) && Heard(log + [Sent(m)]) == Heard(log)
    ensures forall m: Message :: Requests(log + [Told(m)]) == Requests(log)
    ensures forall m: Message ::
              && Finals(log + [Told(m)]) == Finals(log) + (if m.Response? && m.code >= 200 then 1 else 0)
              && Heard(log + [Told(m)]) == Heard(log) + if m.Request? then 1 else 0
  {
    forall m: Message
      ensures Requests(log + [Sent(m)]) == Requests(log) + if m.Request? then 1 else 0
      ensures Finals(log + [Sent(m)]) == Finals(log) && Heard(log + [Sent(m)]) == Heard(log)
      ensures Requests(log + [Told(m)]) == Requests(log)
      ensures Finals(log + [Told(m)]) == Finals(log) + if m.Response? && m.code >= 200 then 1 else 0
      ensures Heard(log + [Told(m)]) == Heard(log) + if m.Request? then 1 else 0
    {
      Noted(log, Sent(m));
      Noted(log, Told(m));
    }
  }

  /** A client tells its user agent one final response and no more, exactly unless an error of the
      transport reaches an INVITE client that already has one. */
  lemma OneFinalIff(k: Kind, a: Agent, now: int, e: Event)
    requires (k == ClientInvite || k == ClientNonInvite) && Exact(k, a) && Possible(a, now, e) && OneFinal(a)
    ensures OneFinal(On(k, a, now, e)) <==> !(k == ClientInvite && e.ErrorEvent? && a.state == Completed)
  {
    hide OneFinal, OnClientInvite, OnClientNonInvite;
    if k == ClientInvite {
      ClientInviteFinal(a, now, e);
    } else {
      ClientNonInviteFinal(a, now, e);
    }
  }

  lemma ClientInviteFinal(a: Agent, now: int, e: Event)
    requires Exact(ClientInvite, a) && Possible(a, now, e) && OneFinal(a)
    ensures OneFinal(OnClientInvite(a, now, e)) <==> !(e.ErrorEvent? && a.state == Completed)
  {
    Notes(a.log);
    Notes(a.log + [Sent(Ack)]);
    hide Finals, Requests, Heard;
  }

  lemma ClientNonInviteFinal(a: Agent, now: int, e: Event)
    requires Exact(ClientNonInvite, a) && Possible(a, now, e) && OneFinal(a)
    ensures OneFinal(OnClientNonInvite(a, now, e))
  {
    Notes(a.log);
    hide Finals, Requests, Heard;
  }

  /** A server tells its user agent of the request once, whatever is repeated. */
  predicate HeardOnce(a: Agent) {
    Heard(a.log) == if a.state == Idle then 0 else 1
  }

  lemma HeardOnceKeeps(k: Kind, a: Agent, now: int, e: Event)
    requires (k == ServerInvite || k == ServerNonInvite) && Exact(k, a) && Possible(a, now, e) && HeardOnce(a)
    ensures HeardOnce(On(k, a, now, e))
  {
    Notes(a.log);
    hide Finals, Requests, Heard;
  }

  lemma {:induction false} RunOneFinal(k: Kind, trace: seq<World>, steps: seq<Step>, late: nat, n: nat)
    requires IsRun(k, trace, steps, late) && n < |trace| && (k == ClientInvite || k == ClientNonInvite)
    requires k == ClientInvite ==>
               forall i :: 0 <= i < |steps| ==> !(steps[i] == Happen(ErrorEvent) && trace[i].agent.state == Completed)
    ensures OneFinal(trace[n].agent)
  {
    hide On, Exact;
    if n > 0 {
      RunOneFinal(k, trace, steps, late, n - 1);
      RunExact(k, trace, steps, late, n - 1);
      if steps[n - 1].Happen? {
        OneFinalIff(k, trace[n - 1].agent, trace[n - 1].now, steps[n - 1].event);
      }
    }
  }

  lemma {:induction false} RunHeardOnce(k: Kind, trace: seq<World>, steps: seq<Step>, late: nat, n: nat)
    requires IsRun(k, trace, steps, late) && n < |trace| && (k == ServerInvite || k == ServerNonInvite)
    ensures HeardOnce(trace[n].agent)
  {
    hide On, Exact;
    if n > 0 {
      RunHeardOnce(k, trace, steps, late, n - 1);
      RunExact(k, trace, steps, late, n - 1);
      if steps[n - 1].Happen? {
        HeardOnceKeeps(k, trace[n - 1].agent, trace[n - 1].now, steps[n - 1].event);
      }
    }
  }

  // ----- How long.

  /** When a client that sent its request at `t0` is over and done with. */
  predicate Bounded(a: Agent, t0: int, late: nat) {
    && ((a.state == Trying || a.state == Proceeding) && F in a.due ==> a.due[F] == t0 + 64 * T1)
    && (a.state == Completed && K in a.due ==> a.due[K] <= t0 + 64 * T1 + late + T4)
  }

  lemma BoundedKeeps(a: Agent, now: int, e: Event, t0: int, late: nat)
    requires Exact(ClientNonInvite, a) && Possible(a, now, e) && Bounded(a, t0, late)
    requires forall t :: t in a.due ==> now <= a.due[t] + late
    requires a.state == Idle && e.RequestEvent? ==> now == t0
    ensures Bounded(On(ClientNonInvite, a, now, e), t0, late)
  {}

  /** No running timer is overdue by more than `late`. */
  predicate Punctual(a: Agent, now: int, late: nat) {
    && (forall t :: t in a.due ==> now <= a.due[t] + late)
    && (forall t :: t in a.value ==> a.value[t] >= 0)
  }

  lemma PunctualKeeps(k: Kind, a: Agent, now: int, e: Event, late: nat)
    requires Exact(k, a) && Possible(a, now, e) && Punctual(a, now, late)
    ensures Punctual(On(k, a, now, e), now, late)
  {
    hide Exact;
    match k
    case ClientInvite => ClientInvitePunctual(a, now, e, late);
    case ClientNonInvite => ClientNonInvitePunctual(a, now, e, late);
    case ServerInvite => ServerInvitePunctual(a, now, e, late);
    case ServerNonInvite => ServerNonInvitePunctual(a, now, e, late);
  }

  lemma ClientInvitePunctual(a: Agent, now: int, e: Event, late: nat)
    requires Exact(ClientInvite, a) && Possible(a, now, e) && Punctual(a, now, late)
    ensures Punctual(OnClientInvite(a, now, e), now, late)
  {}

  lemma ClientNonInvitePunctual(a: Agent, now: int, e: Event, late: nat)
    requires Exact(ClientNonInvite, a) && Possible(a, now, e) && Punctual(a, now, late)
    ensures Punctual(OnClientNonInvite(a, now, e), now, late)
  {}

  lemma ServerInvitePunctual(a: Agent, now: int, e: Event, late: nat)
    requires Exact(ServerInvite, a) && Possible(a, now, e) && Punctual(a, now, late)
    ensures Punctual(OnServerInvite(a, now, e), now, late)
  {}

  lemma ServerNonInvitePunctual(a: Agent, now: int, e: Event, late: nat)
    requires Exact(ServerNonInvite, a) && Possible(a, now, e) && Punctual(a, now, late)
    ensures Punctual(OnServerNonInvite(a, now, e), now, late)
  {}

  /** The request goes out at `t0`, at the time of the first step or later. */
  predicate StartsAt(trace: seq<World>, steps: seq<Step>, t0: int)
    requires |trace| == |steps| + 1
  {
    forall i :: 0 <= i < |steps| && steps[i] == Happen(RequestEvent) && trace[i].agent.state == Idle ==>
      trace[i].now == t0
  }

  lemma {:induction false} RunBounded(trace: seq<World>, steps: seq<Step>, late: nat, t0: int, n: nat)
    requires IsRun(ClientNonInvite, trace, steps, late) && n < |trace| && StartsAt(trace, steps, t0)
    ensures Punctual(trace[n].agent, trace[n].now, late) && Bounded(trace[n].agent, t0, late)
  {
    hide On, Exact;
    if n > 0 {
      RunBounded(trace, steps, late, t0, n - 1);
      RunExact(ClientNonInvite, trace, steps, late, n - 1);
      var w, s := trace[n - 1], steps[n - 1];
      if s.Happen? {
        PunctualKeeps(ClientNonInvite, w.agent, w.now, s.event, late);
        BoundedKeeps(w.agent, w.now, s.event, t0, late);
      }
    }
  }

  /** A non-INVITE client that sent its request is gone once timers F and K have run out, one after
      the other, give or take how late alarms fire. */
  lemma ClientTerminates(trace: seq<World>, steps: seq<Step>, late: nat, t0: int, n: nat)
    requires IsRun(ClientNonInvite, trace, steps, late) && n < |trace| && StartsAt(trace, steps, t0)
    requires trace[n].now > t0 + 64 * T1 + T4 + 2 * late
    ensures trace[n].agent.state == Idle || trace[n].agent.state == Terminated
  {
    RunBounded(trace, steps, late, t0, n);
    RunExact(ClientNonInvite, trace, steps, late, n);
  }

  // ----- How often an INVITE goes out.

  function Pow2(n: nat): nat {
    if n == 0 then 1 else 2 * Pow2(n - 1)
  }

  /** The `n`-th INVITE is followed by a pause of 2^(n-1) times T1. */
  predicate Paced(a: Agent, t0: int) {
    var n := Requests(a.log);
    && n <= 7
    && (a.state == Idle ==> n == 0)
    && (a.state == Calling ==>
          && n > 0 && A in a.due && B in a.due && A in a.value
          && a.value[A] == T1 * Pow2(n - 1)
          && a.due[A] >= t0 + T1 * (Pow2(n) - 1)
          && a.due[B] == t0 + 64 * T1)
  }

  lemma {:induction false} Pow2Above(n: nat)
    requires n >= 7
    ensures Pow2(n) >= 128
  {
    if n > 7 {
      Pow2Above(n - 1);
    } else {
      assert Pow2(3) == 8;
      assert Pow2(7) == 16 * Pow2(3);
    }
  }

  lemma PacedKeeps(a: Agent, now: int, e: Event, t0: int, late: nat)
    requires Exact(ClientInvite, a) && Possible(a, now, e) && Punctual(a, now, late) && late <= T1 && Paced(a, t0)
    requires a.state == Idle && e.RequestEvent? ==> now == t0
    ensures Paced(On(ClientInvite, a, now, e), t0)
  {
    Notes(a.log);
    Notes(a.log + [Sent(Ack)]);
    var n := Requests(a.log);
    hide Finals, Requests, Heard;
    if e == ExpireEvent(A) && a.state == Calling {
      assert T1 * (Pow2(n) - 1) <= 65 * T1;
      if n == 7 {
        Pow2Above(n);
      }
      var d := On(ClientInvite, a, now, e);
      assert Requests(d.log) == n + 1 && d.value[A] == T1 * Pow2(n - 1) * 2;
      assert Pow2(n + 1) == 2 * Pow2(n) && Pow2(n) == 2 * Pow2(n - 1);
    } else if e.RequestEvent? {
      assert Pow2(0) == 1 && Pow2(1) == 2;
    }
  }

  /** Alarms that fire no later than T1 let an INVITE go out at most seven times. */
  lemma {:induction false} AtMostSeven(trace: seq<World>, steps: seq<Step>, late: nat, t0: int, n: nat)
    requires IsRun(ClientInvite, trace, steps, late) && n < |trace| && late <= T1 && StartsAt(trace, steps, t0)
    ensures Punctual(trace[n].agent, trace[n].now, late) && Paced(trace[n].agent, t0)
    ensures Requests(trace[n].agent.log) <= 7
  {
    hide On, Exact;
    if n > 0 {
      AtMostSeven(trace, steps, late, t0, n - 1);
      RunExact(ClientInvite, trace, steps, late, n - 1);
      var w, s := trace[n - 1], steps[n - 1];
      if s.Happen? {
        PunctualKeeps(ClientInvite, w.agent, w.now, s.event, late);
        PacedKeeps(w.agent, w.now, s.event, t0, late);
      }
    }
  }

  // ----- Deadlines.

  /** The timer that ends a state, and when it is due after the state was entered. */
  function Limit(k: Kind, s: State): (Timer, int) {
    match (k, s)
    case (ClientInvite, Calling) => (B, 64 * T1)
    case (ClientInvite, _) => (D, T32)
    case (ClientNonInvite, Trying) => (F, 64 * T1)
    case (ClientNonInvite, _) => (K, T4)
    case (ServerInvite, Confirmed) => (I, T4)
    case (ServerInvite, _) => (H, 64 * T1)
    case (ServerNonInvite, _) => (J, 64 * T1)
  }

  /** The states that have such a timer; a client that proceeds without INVITE keeps timer F. */
  predicate Timed(k: Kind, s: State) {
    s == Completed || s == Confirmed || s == Calling || (s == Trying && k == ClientNonInvite)
  }

  predicate DueAfter(k: Kind, a: Agent, since: int) {
    Timed(k, a.state) ==>
      var (t, v) := Limit(k, a.state);
      t in a.due && a.due[t] == since + v
  }

  lemma DueAfterKeeps(k: Kind, a: Agent, now: int, e: Event, since: int)
    requires Exact(k, a) && Possible(a, now, e) && DueAfter(k, a, since)
    ensures DueAfter(k, On(k, a, now, e), if On(k, a, now, e).state == a.state then since else now)
  {
    hide Exact;
    match k
    case ClientInvite => ClientInviteDue(a, now, e, since);
    case ClientNonInvite => ClientNonInviteDue(a, now, e, since);
    case ServerInvite => ServerInviteDue(a, now, e, since);
    case ServerNonInvite => ServerNonInviteDue(a, now, e, since);
  }

  lemma ClientInviteDue(a: Agent, now: int, e: Event, since: int)
    requires Exact(ClientInvite, a) && Possible(a, now, e) && DueAfter(ClientInvite, a, since)
    ensures var d := OnClientInvite(a, now, e);
      DueAfter(ClientInvite, d, if d.state == a.state then since else now)
  {}

  lemma ClientNonInviteDue(a: Agent, now: int, e: Event, since: int)
    requires Exact(ClientNonInvite, a) && Possible(a, now, e) && DueAfter(ClientNonInvite, a, since)
    ensures var d := OnClientNonInvite(a, now, e);
      DueAfter(ClientNonInvite, d, if d.state == a.state then since else now)
  {}

  lemma ServerInviteDue(a: Agent, now: int, e: Event, since: int)
    requires Exact(ServerInvite, a) && Possible(a, now, e) && DueAfter(ServerInvite, a, since)
    ensures var d := OnServerInvite(a, now, e);
      DueAfter(ServerInvite, d, if d.state == a.state then since else now)
  {}

  lemma ServerNonInviteDue(a: Agent, now: int, e: Event, since: int)
    requires Exact(ServerNonInvite, a) && Possible(a, now, e) && DueAfter(ServerNonInvite, a, since)
    ensures var d := OnServerNonInvite(a, now, e);
      DueAfter(ServerNonInvite, d, if d.state == a.state then since else now)
  {}

  /** When the state before step `n` was entered. */
  function Since(trace: seq<World>, n: nat): int
    requires n < |trace|
  {
    if n == 0 then trace[0].now
    else if trace[n].agent.state == trace[n - 1].agent.state then Since(trace, n - 1)
    else trace[n - 1].now
  }

  /** Over every run a timed state has its deadline exactly so long after it was entered, and lasts no
      longer but for how late an alarm fires. */
  lemma {:induction false} Lasts(k: Kind, trace: seq<World>, steps: seq<Step>, late: nat, n: nat)
    requires IsRun(k, trace, steps, late) && n < |trace|
    ensures DueAfter(k, trace[n].agent, Since(trace, n)) && Punctual(trace[n].agent, trace[n].now, late)
    ensures Timed(k, trace[n].agent.state) ==>
              trace[n].now <= Since(trace, n) + Limit(k, trace[n].agent.state).1 + late
  {
    hide On, Exact, Timed, Limit;
    if n > 0 {
      Lasts(k, trace, steps, late, n - 1);
      RunExact(k, trace, steps, late, n - 1);
      var w, s := trace[n - 1], steps[n - 1];
      assert trace[n] == Next(k, w, s);
      if s.Happen? {
        PunctualKeeps(k, w.agent, w.now, s.event, late);
        DueAfterKeeps(k, w.agent, w.now, s.event, Since(trace, n - 1));
      }
    } else {
      NotTimed(k);
    }
  }

  lemma NotTimed(k: Kind)
    ensures !Timed(k, Idle)
  {}

  /** And so a timed state is left by its timer no earlier than its deadline. */
  lemma NotBefore(k: Kind, trace: seq<World>, steps: seq<Step>, late: nat, n: nat)
    requires IsRun(k, trace, steps, late) && n < |steps| && Timed(k, trace[n].agent.state)
    requires steps[n] == Happen(ExpireEvent(Limit(k, trace[n].agent.state).0))
    ensures trace[n].now >= Since(trace, n) + Limit(k, trace[n].agent.state).1
    ensures trace[n + 1].agent.state == Terminated
  {
    Lasts(k, trace, steps, late, n);
    RunExact(k, trace, steps, late, n);
  }

  // ----- Retransmissions to and from the network.

  /** The timer that repeats a request without INVITE, or a final response to one. */
  predicate Repeats(k: Kind, t: Timer) {
    (k == ClientNonInvite && t == E) || (k == ServerInvite && t == G)
  }

  /** The pauses double from T1 up to T2, which is eight times T1. */
  predicate OnLadder(v: int) {
    v == T1 || v == 2 * T1 || v == 4 * T1 || v == T2
  }

  predicate Laddered(k: Kind, a: Agent, t: Timer) {
    t in Running(k, a.state) ==> t in a.value && OnLadder(a.value[t])
  }

  /** One repetition: the next one is due after twice the pause, or after T2 if that was reached or the
      client proceeds. */
  lemma LadderStep(k: Kind, a: Agent, now: int, e: Event, t: Timer)
    requires Repeats(k, t) && Exact(k, a) && Possible(a, now, e) && Laddered(k, a, t)
    ensures Laddered(k, On(k, a, now, e), t)
    ensures e == ExpireEvent(t) && t in Running(k, a.state) ==>
              var (d, v) := (On(k, a, now, e), ValueOf(a, t));
              t in d.due && d.due[t] == now + if v == T2 || a.state == Proceeding then T2 else 2 * v
  {}

  lemma {:induction false} RunLaddered(k: Kind, trace: seq<World>, steps: seq<Step>, late: nat, t: Timer, n: nat)
    requires IsRun(k, trace, steps, late) && n < |trace| && Repeats(k, t)
    ensures Laddered(k, trace[n].agent, t)
  {
    hide On, Exact, Laddered, Possible;
    if n > 0 {
      RunLaddered(k, trace, steps, late, t, n - 1);
      RunExact(k, trace, steps, late, n - 1);
      var w, s := trace[n - 1], steps[n - 1];
      assert trace[n] == Next(k, w, s);
      if s.Happen? {
        LadderStep(k, w.agent, w.now, s.event, t);
      }
    } else {
      NoLadder(k, t);
    }
  }

  lemma NoLadder(k: Kind, t: Timer)
    ensures Laddered(k, FRESH, t)
  {}
}
