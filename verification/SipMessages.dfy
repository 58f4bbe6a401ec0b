/** What the SIP transactions send and tell: which events are answered, and with what. */
module SipMessages {
  import opened SipModel
  import opened SipLaws

  predicate Serves(k: Kind) {
    k == ServerInvite || k == ServerNonInvite
  }

  /** The transaction waits for a final response, from the network or from the user agent. */
  predicate Busy(k: Kind, s: State) {
    s == Proceeding || (s == Calling && k == ClientInvite) || (s == Trying && k != ClientInvite && k != ServerInvite)
  }

  function Repeat(given: seq<Message>): seq<Note> {
    if given == [] then [] else [Sent(given[0])]
  }

  /** A server that has been given a response sends it, and again when the request is repeated or
      timer G expires; the request itself is told once. */
  function Answers(k: Kind, s: State, given: seq<Message>, e: Event): seq<Note> {
    match e
    case RequestEvent =>
      if s == Idle then [Told(Request)] else if s == Proceeding || s == Completed then Repeat(given) else []
    case ReplyEvent(code) => if Busy(k, s) then [Sent(Response(code))] else []
    case ExpireEvent(t) => if t == G && k == ServerInvite && s == Completed then Repeat(given) else []
    case _ => []
  }

  /** A client tells each response it waits for, 503 for an error of the transport and 408 once timer B
      or F has expired, and an INVITE client acknowledges each one from 300 on. An error finds the INVITE
      client deaf while it proceeds, but not once it has completed. */
  function Calls(k: Kind, s: State, e: Event): seq<Note> {
    match e
    case RequestEvent => if s == Idle then [Sent(Request)] else []
    case AckEvent => []
    case ReplyEvent(code) =>
      (if k == ClientInvite && code >= 300 && (Busy(k, s) || s == Completed) then [Sent(Ack)] else []) +
      (if Busy(k, s) then [Told(Response(code))] else [])
    case ErrorEvent =>
      if (if k == ClientInvite then s == Calling || s == Completed else Busy(k, s)) then [Told(Response(503))] else []
    case ExpireEvent(t) =>
      if (t == A && k == ClientInvite && s == Calling) || (t == E && k == ClientNonInvite && Busy(k, s)) then
        [Sent(Request)]
      else if (t == B && k == ClientInvite && s == Calling) || (t == F && k == ClientNonInvite && Busy(k, s)) then
        [Told(Response(408))]
      else []
  }

  function Said(k: Kind, s: State, given: seq<Message>, e: Event): seq<Note> {
    if Serves(k) then Answers(k, s, given, e) else Calls(k, s, e)
  }

  /** `d` has said `notes` since `a`. */
  predicate Speaks(a: Agent, d: Agent, notes: seq<Note>) {
    d.log == a.log + notes
  }

  lemma SaysStep(k: Kind, a: Agent, now: int, e: Event)
    requires Reachable(k, a.state)
    ensures Speaks(a, On(k, a, now, e), Said(k, a.state, a.last, e))
  {
    hide OnClientInvite, OnClientNonInvite, OnServerInvite, OnServerNonInvite, Speaks;
    match k
    case ClientInvite => ClientInviteSays(a, now, e);
    case ClientNonInvite => ClientNonInviteSays(a, now, e);
    case ServerInvite => ServerInviteSays(a, now, e);
    case ServerNonInvite => ServerNonInviteSays(a, now, e);
  }

  lemma ClientInviteSays(a: Agent, now: int, e: Event)
    requires Reachable(ClientInvite, a.state)
    ensures Speaks(a, OnClientInvite(a, now, e), Calls(ClientInvite, a.state, e))
  {}

  lemma ClientNonInviteSays(a: Agent, now: int, e: Event)
    requires Reachable(ClientNonInvite, a.state)
    ensures Speaks(a, OnClientNonInvite(a, now, e), Calls(ClientNonInvite, a.state, e))
  {}

  lemma ServerInviteSays(a: Agent, now: int, e: Event)
    requires Reachable(ServerInvite, a.state)
    ensures Speaks(a, OnServerInvite(a, now, e), Answers(ServerInvite, a.state, a.last, e))
  {}

  lemma ServerNonInviteSays(a: Agent, now: int, e: Event)
    requires Reachable(ServerNonInvite, a.state)
    ensures Speaks(a, OnServerNonInvite(a, now, e), Answers(ServerNonInvite, a.state, a.last, e))
  {}

  /** Where an event leads: the first request starts, a response leads on by its hundreds, an error of the
      transport ends what it is heard in, and a state that has a deadline ends with its timer. */
  function Moves(k: Kind, s: State, e: Event): State {
    match e
    case RequestEvent =>
      if s != Idle then s
      else if k == ClientInvite then Calling
      else if k == ServerInvite then Proceeding
      else Trying
    case AckEvent => if k == ServerInvite && s == Completed then Confirmed else s
    case ReplyEvent(code) =>
      if !Busy(k, s) then s
      else if code < 200 then Proceeding
      else if code < 300 && (k == ClientInvite || k == ServerInvite) then Terminated
      else Completed
    case ErrorEvent =>
      if (match k
          case ClientInvite => s == Calling || s == Completed
          case ClientNonInvite => Busy(k, s)
          case _ => s == Proceeding || s == Completed) then Terminated
      else s
    case ExpireEvent(t) =>
      if (Timed(k, s) && t == Limit(k, s).0) || (k == ClientNonInvite && s == Proceeding && t == F) then Terminated
      else s
  }

  lemma MovesStep(k: Kind, a: Agent, now: int, e: Event)
    requires Reachable(k, a.state)
    ensures On(k, a, now, e).state == Moves(k, a.state, e)
  {
    if Serves(k) {
      ServerMoves(k, a, now, e);
    } else {
      ClientMoves(k, a, now, e);
    }
    hide On, Moves;
  }

  lemma ClientMoves(k: Kind, a: Agent, now: int, e: Event)
    requires Reachable(k, a.state) && !Serves(k)
    ensures On(k, a, now, e).state == Moves(k, a.state, e)
  {
    hide Start;
    KeepState();
  }

  lemma ServerMoves(k: Kind, a: Agent, now: int, e: Event)
    requires Reachable(k, a.state) && Serves(k)
    ensures On(k, a, now, e).state == Moves(k, a.state, e)
  {
    hide Start;
    KeepState();
  }

  lemma KeepState()
    ensures forall a: Agent, t: Timer, v: int, now: int :: Start(a, t, v, now).state == a.state
  {}

  // ----- Servers over runs.

  /** The response that the user agent last gave to the server before step `n` while it could. */
  function Given(k: Kind, trace: seq<World>, steps: seq<Step>, n: nat): seq<Message>
    requires n <= |steps| < |trace|
  {
    if n == 0 then []
    else
      var s := steps[n - 1];
      if s.Happen? && s.event.ReplyEvent? && Busy(k, trace[n - 1].agent.state) then [Response(s.event.code)]
      else Given(k, trace, steps, n - 1)
  }

  predicate Final(given: seq<Message>) {
    given != [] && given[0].Response? && given[0].code >= 200
  }

  /** The final responses that have gone out. */
  function Finally(log: seq<Note>): set<int> {
    set n | n in log && n.Sent? && n.message.Response? && n.message.code >= 200 :: n.message.code
  }

  lemma FinallyNext(log: seq<Note>, notes: seq<Note>)
    ensures Finally(log + notes) == Finally(log) + Finally(notes)
  {}

  /** What a server keeps of the responses it was given, and where it is because of them. */
  predicate Keeps(a: Agent, given: seq<Message>) {
    && (a.state != Terminated ==> a.last == given)
    && (Final(given) ==> a.state in {Completed, Confirmed, Terminated})
    && (a.state in {Completed, Confirmed} ==> Final(given))
    && (a.state == Idle ==> given == [])
    && (given == [] || given[0].Response?)
  }

  function Codes(given: seq<Message>): set<int> {
    if Final(given) then {given[0].code} else {}
  }

  predicate FinalsAre(log: seq<Note>, given: seq<Message>) {
    Finally(log) == Codes(given)
  }

  ghost predicate Remembers(a: Agent, given: seq<Message>) {
    Keeps(a, given) && FinalsAre(a.log, given)
  }

  function NextGiven(k: Kind, s: State, given: seq<Message>, e: Event): seq<Message> {
    if e.ReplyEvent? && Busy(k, s) then [Response(e.code)] else given
  }

  lemma KeepsStep(k: Kind, a: Agent, now: int, e: Event, given: seq<Message>)
    requires Serves(k) && Reachable(k, a.state) && Keeps(a, given)
    ensures Keeps(On(k, a, now, e), NextGiven(k, a.state, given, e))
  {}

  lemma FinalsStep(k: Kind, a: Agent, now: int, e: Event, given: seq<Message>)
    requires Serves(k) && Reachable(k, a.state) && Remembers(a, given)
    ensures FinalsAre(On(k, a, now, e).log, NextGiven(k, a.state, given, e))
  {
    hide On, Keeps;
    SaysStep(k, a, now, e);
    var notes := Said(k, a.state, a.last, e);
    FinallyNext(a.log, notes);
    SaidFinals(k, a, e, given);
  }

  lemma SaidFinals(k: Kind, a: Agent, e: Event, given: seq<Message>)
    requires Serves(k) && Reachable(k, a.state) && Keeps(a, given)
    ensures Codes(given) + Finally(Said(k, a.state, a.last, e)) == Codes(NextGiven(k, a.state, given, e))
  {
    var notes := Said(k, a.state, a.last, e);
    assert notes == [] || notes == [notes[0]];
  }

  /** Over every run a server knows the response it was given last, until it ends; once that is a final
      one it takes no other, and that is the only final response that has gone out. */
  lemma {:induction false} RunRemembers(k: Kind, trace: seq<World>, steps: seq<Step>, late: nat, n: nat)
    requires IsRun(k, trace, steps, late) && n < |trace| && Serves(k)
    ensures Remembers(trace[n].agent, Given(k, trace, steps, n))
  {
    hide On, Exact, Keeps, FinalsAre, Busy, Possible;
    if n == 0 {
      FreshRemembers();
    } else {
      RunRemembers(k, trace, steps, late, n - 1);
      RunExact(k, trace, steps, late, n - 1);
      var w, s, given := trace[n - 1], steps[n - 1], Given(k, trace, steps, n - 1);
      assert trace[n] == Next(k, w, s);
      if s.Happen? {
        IsReachable(k, w.agent);
        KeepsStep(k, w.agent, w.now, s.event, given);
        FinalsStep(k, w.agent, w.now, s.event, given);
      }
    }
  }

  lemma FreshRemembers()
    ensures Remembers(FRESH, [])
  {}

  lemma IsReachable(k: Kind, a: Agent)
    requires Exact(k, a)
    ensures Reachable(k, a.state)
  {}

  /** Over every run each step goes where its event leads, and sends and tells just what it asks for: a
      server its request once, each response it is given while it takes one, and when the request is
      repeated, or timer G expires, the one it was given last; a client the request, each response, and
      503 or 408 when there is none. */
  lemma RunSays(k: Kind, trace: seq<World>, steps: seq<Step>, late: nat, n: nat)
    requires IsRun(k, trace, steps, late) && n < |steps|
    ensures var (a, d) := (trace[n].agent, trace[n + 1].agent);
      match steps[n]
      case Tick(_) => d == a
      case Happen(e) =>
        Speaks(a, d, Said(k, a.state, Given(k, trace, steps, n), e)) && d.state == Moves(k, a.state, e)
  {
    hide On, Exact, Given, Speaks, Possible, Keeps, Moves;
    RunExact(k, trace, steps, late, n);
    var w, s := trace[n], steps[n];
    assert trace[n + 1] == Next(k, w, s);
    if s.Happen? {
      IsReachable(k, w.agent);
      SaysStep(k, w.agent, w.now, s.event);
      MovesStep(k, w.agent, w.now, s.event);
      if Serves(k) {
        RunRemembers(k, trace, steps, late, n);
        SameSaid(k, w.agent, Given(k, trace, steps, n), s.event);
      } else {
        assert Said(k, w.agent.state, w.agent.last, s.event) == Calls(k, w.agent.state, s.event);
      }
    }
  }

  lemma SameSaid(k: Kind, a: Agent, given: seq<Message>, e: Event)
    requires Serves(k) && Keeps(a, given)
    ensures Said(k, a.state, a.last, e) == Said(k, a.state, given, e)
  {}

  /** The first final response that a server is given while it takes one is the only one it ever sends. */
  lemma {:induction false} OnlyFinal(k: Kind, trace: seq<World>, steps: seq<Step>, late: nat, i: nat, code: int, n: nat)
    requires IsRun(k, trace, steps, late) && i < n < |trace| && Serves(k)
    requires steps[i] == Happen(ReplyEvent(code)) && code >= 200 && Busy(k, trace[i].agent.state)
    ensures Given(k, trace, steps, n) == [Response(code)] && Finally(trace[n].agent.log) == {code}
    ensures trace[n].agent.state in {Completed, Confirmed, Terminated}
    decreases n
  {
    hide On, Exact, Possible;
    RunRemembers(k, trace, steps, late, n);
    if i + 1 < n {
      OnlyFinal(k, trace, steps, late, i, code, n - 1);
    }
  }

  // ----- Clients over runs.

  function Acks(log: seq<Note>): nat {
    multiset(log)[Sent(Ack)]
  }

  /** How many of the first `n` steps bring a response from 300 on to a client that is not done. */
  function Rejections(trace: seq<World>, steps: seq<Step>, n: nat): nat
    requires n <= |steps| < |trace|
  {
    if n == 0 then 0
    else
      Rejections(trace, steps, n - 1) + if Rejected(trace[n - 1].agent.state, steps[n - 1]) then 1 else 0
  }

  predicate Rejected(state: State, s: Step) {
    && s.Happen? && s.event.ReplyEvent? && s.event.code >= 300
    && (state == Calling || state == Proceeding || state == Completed)
  }

  /** Over every run an INVITE client sends one acknowledgement for each such response, repeated or not. */
  lemma {:induction false} OneAckEach(trace: seq<World>, steps: seq<Step>, late: nat, n: nat)
    requires IsRun(ClientInvite, trace, steps, late) && n < |trace|
    ensures Acks(trace[n].agent.log) == Rejections(trace, steps, n)
  {
    hide On, Exact, Given, Possible, Acks, Said, Speaks, Rejected;
    if n == 0 {
      NoAcks();
    } else {
      OneAckEach(trace, steps, late, n - 1);
      RunSays(ClientInvite, trace, steps, late, n - 1);
      RunExact(ClientInvite, trace, steps, late, n - 1);
      var a, s := trace[n - 1].agent, steps[n - 1];
      IsReachable(ClientInvite, a);
      if s.Happen? {
        AckStep(a, trace[n].agent, Given(ClientInvite, trace, steps, n - 1), s.event);
      } else {
        NotRejected(a.state, s);
      }
    }
  }

  lemma NoAcks()
    ensures Acks([]) == 0
  {}

  lemma NotRejected(state: State, s: Step)
    requires s.Tick?
    ensures !Rejected(state, s)
  {}

  lemma AckStep(a: Agent, d: Agent, given: seq<Message>, e: Event)
    requires Reachable(ClientInvite, a.state) && Speaks(a, d, Said(ClientInvite, a.state, given, e))
    ensures Acks(d.log) == Acks(a.log) + if Rejected(a.state, Happen(e)) then 1 else 0
  {
    hide Acks, Calls;
    AcksNext(a.log, Calls(ClientInvite, a.state, e));
    AcksCalled(a.state, e);
  }

  lemma AcksNext(log: seq<Note>, notes: seq<Note>)
    ensures Acks(log + notes) == Acks(log) + Acks(notes)
  {}

  lemma AcksOne(n: Note)
    ensures Acks([n]) == if n == Sent(Ack) then 1 else 0
  {}

  lemma AcksCalled(state: State, e: Event)
    requires Reachable(ClientInvite, state)
    ensures Acks(Calls(ClientInvite, state, e)) == if Rejected(state, Happen(e)) then 1 else 0
  {
    hide Acks;
    NoAcks();
    AcksOne(Sent(Ack));
    AcksOne(Sent(Request));
    match e
    case ReplyEvent(code) =>
      AcksOne(Told(Response(code)));
      AcksNext([Sent(Ack)], if Busy(ClientInvite, state) then [Told(Response(code))] else []);
      AcksNext([], if Busy(ClientInvite, state) then [Told(Response(code))] else []);
    case RequestEvent =>
    case AckEvent =>
    case ErrorEvent => AcksOne(Told(Response(503)));
    case ExpireEvent(t) => AcksOne(Told(Response(408)));
  }

  /** Why a client tells `code`: it came from the network, or the transport failed, or time ran out. */
  predicate Cause(s: Step, code: int) {
    && s.Happen?
    && (|| s.event == ReplyEvent(code)
        || (code == 503 && s.event.ErrorEvent?)
        || (code == 408 && s.event.ExpireEvent? && s.event.timer in {B, F}))
  }

  /** Over every run a client tells no response without a cause. */
  lemma {:induction false} ToldForCause(k: Kind, trace: seq<World>, steps: seq<Step>, late: nat, n: nat, code: int)
    requires IsRun(k, trace, steps, late) && n < |trace| && !Serves(k)
    requires Told(Response(code)) in trace[n].agent.log
    ensures exists i :: 0 <= i < n && Cause(steps[i], code)
  {
    hide On, Exact, Given, Possible, Said, Speaks, Moves, Cause;
    if n > 0 {
      RunSays(k, trace, steps, late, n - 1);
      var a := trace[n - 1].agent;
      if Told(Response(code)) in a.log {
        ToldForCause(k, trace, steps, late, n - 1, code);
      } else {
        CauseStep(k, a, trace[n].agent, Given(k, trace, steps, n - 1), steps[n - 1].event, code);
        assert Cause(steps[n - 1], code);
      }
    }
  }

  lemma CauseStep(k: Kind, a: Agent, d: Agent, given: seq<Message>, e: Event, code: int)
    requires !Serves(k) && Speaks(a, d, Said(k, a.state, given, e))
    requires Told(Response(code)) in d.log && Told(Response(code)) !in a.log
    ensures Cause(Happen(e), code)
  {
    assert Told(Response(code)) in Calls(k, a.state, e);
  }
}
