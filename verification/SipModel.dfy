/** The four SIP transactions (section 17 of RFC 3261): the timers each state has started, what
    goes out and what the user agent is told. */
module SipModel {

  datatype Timer = A | B | D | E | F | G | H | I | J | K

  /** In microseconds. */
  const T1 := 25000
  const T2 := 200000
  const T4 := 250000
  const T32 := 1600000

  datatype Kind = ClientInvite | ClientNonInvite | ServerInvite | ServerNonInvite

  datatype State = Idle | Calling | Trying | Proceeding | Completed | Confirmed | Terminated

  datatype Message = Request | Ack | Response(code: int)

  datatype Note = Sent(message: Message) | Told(message: Message)

  /** A transaction with its user agent: when the started timers are due, the values last set, the
      timers of which another alarm is going that nobody can stop, the last response of a server,
      and everything the transaction has sent and told so far. */
  datatype Agent = Agent(state: State, due: map<Timer, int>, value: map<Timer, int>, stray: set<Timer>,
                         last: seq<Message>, log: seq<Note>)

  const FRESH := Agent(Idle, map[], map[], {}, [], [])

  function ValueOf(a: Agent, t: Timer): int {
    if t in a.value then a.value[t] else 0
  }

  /** `setTimerValue` and `startTimer`. The alarm of a timer that is still running goes on. */
  function Start(a: Agent, t: Timer, v: int, now: int): Agent {
    a.(value := a.value[t := v], due := a.due[t := now + v],
       stray := if t in a.due then a.stray + {t} else a.stray)
  }

  function Stop(a: Agent, t: Timer): Agent {
    a.(due := a.due - {t})
  }

  function Send(a: Agent, m: Message): Agent {
    a.(log := a.log + [Sent(m)])
  }

  function Tell(a: Agent, m: Message): Agent {
    a.(log := a.log + [Told(m)])
  }

  function SendLast(a: Agent): Agent {
    if a.last == [] then a else Send(a, a.last[0])
  }

  /** `clear`: the transaction is deleted, which stops its timers. */
  function Clear(a: Agent, own: set<Timer>): Agent {
    a.(state := Terminated, due := a.due - own)
  }

  function Own(k: Kind): set<Timer> {
    match k
    case ClientInvite => {A, B, D}
    case ClientNonInvite => {E, F, K}
    case ServerInvite => {G, H, I}
    case ServerNonInvite => {J}
  }

  /** The timers a state has running. */
  function Running(k: Kind, s: State): set<Timer> {
    match (k, s)
    case (ClientInvite, Calling) => {A, B}
    case (ClientInvite, Completed) => {D}
    case (ClientNonInvite, Trying) => {E, F}
    case (ClientNonInvite, Proceeding) => {E, F}
    case (ClientNonInvite, Completed) => {K}
    case (ServerInvite, Completed) => {G, H}
    case (ServerInvite, Confirmed) => {I}
    case (ServerNonInvite, Completed) => {J}
    case _ => {}
  }

  predicate Reachable(k: Kind, s: State) {
    match s
    case Idle => true
    case Calling => k == ClientInvite
    case Trying => k == ClientNonInvite || k == ServerNonInvite
    case Proceeding => true
    case Completed => true
    case Confirmed => k == ServerInvite
    case Terminated => true
  }

  /** Of the transaction's own timers exactly those of its state are running, each with one alarm.
      The user agent may have other transactions with timers of their own. */
  ghost predicate Exact(k: Kind, a: Agent) {
    && Reachable(k, a.state)
    && forall t :: t in Own(k) ==> (t in a.due <==> t in Running(k, a.state)) && t !in a.stray
  }

  /** The timers of which an alarm is going. */
  function Going(a: Agent): set<Timer> {
    a.due.Keys + a.stray
  }

  /** A timer that has been started can be stopped exactly if it was not running before. */
  lemma StopStarted(a: Agent, t: Timer, v: int, now: int)
    requires t !in a.stray
    ensures t !in Going(Stop(Start(a, t, v, now), t)) <==> t !in a.due
    ensures Going(Stop(Start(a, t, v, now), t)) == Going(a) - if t in a.due then {} else {t}
  {
    assert Going(Stop(Start(a, t, v, now), t)) == Going(a) - if t in a.due then {} else {t};
  }

  /** What a transaction reacts to. `Request` is the first or a repeated request of either side,
      `Reply` a response received by a client or sent by a server. */
  datatype Event =
    | RequestEvent
    | AckEvent
    | ReplyEvent(code: int)
    | ErrorEvent
    | ExpireEvent(timer: Timer)

  function Doubled(v: int): int {
    if v * 2 < T2 then v * 2 else T2
  }

  // ----- The handlers.

  function OnClientInvite(a: Agent, now: int, e: Event): Agent {
    match e
    case RequestEvent =>
      if a.state != Idle then a
      else Start(Start(Send(a.(state := Calling), Request), A, T1, now), B, T1 * 64, now)
    case AckEvent => a
    case ReplyEvent(code) =>
      if code < 200 then
        match a.state
        case Calling => Tell(Stop(Stop(a.(state := Proceeding), A), B), Response(code))
        case Proceeding => Tell(a, Response(code))
        case _ => a
      else if code < 300 then
        match a.state
        case Calling => Clear(Tell(Stop(Stop(a, A), B), Response(code)), Own(ClientInvite))
        case Proceeding => Clear(Tell(a, Response(code)), Own(ClientInvite))
        case _ => a
      else
        (match a.state
         case Calling =>
           Tell(Stop(Stop(Start(Send(a.(state := Completed), Ack), D, T32, now), A), B), Response(code))
         case Proceeding => Tell(Start(Send(a.(state := Completed), Ack), D, T32, now), Response(code))
         case Completed => Send(a, Ack)
         case _ => a)
    case ErrorEvent =>
      (match a.state
       case Calling => Clear(Tell(Stop(Stop(a, A), B), Response(503)), Own(ClientInvite))
       case Completed => Clear(Tell(Stop(a, D), Response(503)), Own(ClientInvite))
       case _ => a)
    case ExpireEvent(t) =>
      var s := Stop(a, t);
      if t == A && a.state == Calling then Send(Start(s, A, ValueOf(a, A) * 2, now), Request)
      else if t == B && a.state == Calling then Clear(Tell(Stop(s, A), Response(408)), Own(ClientInvite))
      else if t == D && a.state == Completed then Clear(s, Own(ClientInvite))
      else s
  }

  function OnClientNonInvite(a: Agent, now: int, e: Event): Agent {
    var busy := a.state == Trying || a.state == Proceeding;
    match e
    case RequestEvent =>
      if a.state != Idle then a
      else Start(Start(Send(a.(state := Trying), Request), E, T1, now), F, T1 * 64, now)
    case AckEvent => a
    case ReplyEvent(code) =>
      if !busy then a
      else if code < 200 then Tell(a.(state := Proceeding), Response(code))
      else Tell(Stop(Stop(Start(a.(state := Completed), K, T4, now), E), F), Response(code))
    case ErrorEvent =>
      if busy then Clear(Tell(Stop(Stop(a, E), F), Response(503)), Own(ClientNonInvite)) else a
    case ExpireEvent(t) =>
      var s := Stop(a, t);
      if t == E && a.state == Trying then Send(Start(s, E, Doubled(ValueOf(a, E)), now), Request)
      else if t == E && a.state == Proceeding then Send(Start(s, E, T2, now), Request)
      else if t == F && busy then Clear(Tell(Stop(s, E), Response(408)), Own(ClientNonInvite))
      else if t == K && a.state == Completed then Clear(s, Own(ClientNonInvite))
      else s
  }

  function OnServerInvite(a: Agent, now: int, e: Event): Agent {
    match e
    case RequestEvent =>
      if a.state == Idle then Tell(a.(state := Proceeding), Request)
      else if a.state == Proceeding || a.state == Completed then SendLast(a)
      else a
    case AckEvent =>
      if a.state != Completed then a
      else Stop(Stop(Start(a.(state := Confirmed), I, T4, now), G), H)
    case ReplyEvent(code) =>
      if a.state != Proceeding then a
      else if code < 200 then SendLast(a.(last := [Response(code)]))
      else if code < 300 then Clear(Send(a, Response(code)), Own(ServerInvite))
      else
        Start(Start(SendLast(a.(state := Completed, last := [Response(code)])), G, T1, now), H, T1 * 64, now)
    case ErrorEvent =>
      if a.state == Proceeding then Clear(a, Own(ServerInvite))
      else if a.state == Completed then Clear(Stop(Stop(a, G), H), Own(ServerInvite))
      else a
    case ExpireEvent(t) =>
      var s := Stop(a, t);
      if t == G && a.state == Completed then SendLast(Start(s, G, Doubled(ValueOf(a, G)), now))
      else if t == H && a.state == Completed then Clear(Stop(s, G), Own(ServerInvite))
      else if t == I && a.state == Confirmed then Clear(s, Own(ServerInvite))
      else s
  }

  function OnServerNonInvite(a: Agent, now: int, e: Event): Agent {
    var busy := a.state == Trying || a.state == Proceeding;
    match e
    case RequestEvent =>
      if a.state == Idle then Tell(a.(state := Trying), Request)
      else if a.state == Proceeding || a.state == Completed then SendLast(a)
      else a
    case AckEvent => a
    case ReplyEvent(code) =>
      if !busy then a
      else if code < 200 then SendLast(a.(state := Proceeding, last := [Response(code)]))
      else Start(SendLast(a.(state := Completed, last := [Response(code)])), J, T1 * 64, now)
    case ErrorEvent =>
      if a.state == Proceeding then Clear(a, Own(ServerNonInvite))
      else if a.state == Completed then Clear(Stop(a, J), Own(ServerNonInvite))
      else a
    case ExpireEvent(t) =>
      var s := Stop(a, t);
      if t == J && a.state == Completed then Clear(s, Own(ServerNonInvite)) else s
  }

  function On(k: Kind, a: Agent, now: int, e: Event): Agent {
    match k
    case ClientInvite => OnClientInvite(a, now, e)
    case ClientNonInvite => OnClientNonInvite(a, now, e)
    case ServerInvite => OnServerInvite(a, now, e)
    case ServerNonInvite => OnServerNonInvite(a, now, e)
  }

  /** An alarm fires only if it is set, and not early. */
  predicate Possible(a: Agent, now: int, e: Event) {
    e.ExpireEvent? ==> e.timer in a.due && a.due[e.timer] <= now
  }

  lemma ClientInviteKeeps(a: Agent, now: int, e: Event)
    requires Exact(ClientInvite, a) && Possible(a, now, e)
    ensures Exact(ClientInvite, OnClientInvite(a, now, e))
  {}

  lemma ClientNonInviteKeeps(a: Agent, now: int, e: Event)
    requires Exact(ClientNonInvite, a) && Possible(a, now, e)
    ensures Exact(ClientNonInvite, OnClientNonInvite(a, now, e))
  {}

  lemma ServerInviteKeeps(a: Agent, now: int, e: Event)
    requires Exact(ServerInvite, a) && Possible(a, now, e)
    ensures Exact(ServerInvite, OnServerInvite(a, now, e))
  {}

  lemma ServerNonInviteKeeps(a: Agent, now: int, e: Event)
    requires Exact(ServerNonInvite, a) && Possible(a, now, e)
    ensures Exact(ServerNonInvite, OnServerNonInvite(a, now, e))
  {}

  /** In every state exactly its own timers run. */
  lemma OnKeeps(k: Kind, a: Agent, now: int, e: Event)
    requires Exact(k, a) && Possible(a, now, e)
    ensures Exact(k, On(k, a, now, e))
  {
    hide Exact, Possible, OnClientInvite, OnClientNonInvite, OnServerInvite, OnServerNonInvite;
    match k
    case ClientInvite => ClientInviteKeeps(a, now, e);
    case ClientNonInvite => ClientNonInviteKeeps(a, now, e);
    case ServerInvite => ServerInviteKeeps(a, now, e);
    case ServerNonInvite => ServerNonInviteKeeps(a, now, e);
  }

  /** When the alarm of a timer is due, if it is running, and whether another one is going. */
  function Slot(a: Agent, t: Timer): (seq<int>, bool) {
    (if t in a.due then [a.due[t]] else [], t in a.stray)
  }

  lemma SlotsElsewhere(t: Timer)
    ensures forall a: Agent, u: Timer, v: int, now: int :: u != t ==> Slot(Start(a, u, v, now), t) == Slot(a, t)
    ensures forall a: Agent, u: Timer :: u != t ==> Slot(Stop(a, u), t) == Slot(a, t)
    ensures forall a: Agent, own: set<Timer> :: t !in own ==> Slot(Clear(a, own), t) == Slot(a, t)
    ensures forall a: Agent, m: Message :: Slot(Send(a, m), t) == Slot(a, t) && Slot(Tell(a, m), t) == Slot(a, t)
    ensures forall a: Agent :: Slot(SendLast(a), t) == Slot(a, t)
  {}

  /** The timers of other transactions are left alone. */
  lemma OthersRun(k: Kind, a: Agent, now: int, e: Event, t: Timer)
    requires t !in Own(k) && (e.ExpireEvent? ==> e.timer in Own(k))
    ensures Slot(On(k, a, now, e), t) == Slot(a, t)
  {
    hide OnClientInvite, OnClientNonInvite, OnServerInvite, OnServerNonInvite, Slot;
    match k
    case ClientInvite => ClientInviteOthers(a, now, e, t);
    case ClientNonInvite => ClientNonInviteOthers(a, now, e, t);
    case ServerInvite => ServerInviteOthers(a, now, e, t);
    case ServerNonInvite => ServerNonInviteOthers(a, now, e, t);
  }

  lemma ClientInviteOthers(a: Agent, now: int, e: Event, t: Timer)
    requires t !in Own(ClientInvite) && (e.ExpireEvent? ==> e.timer in Own(ClientInvite))
    ensures Slot(OnClientInvite(a, now, e), t) == Slot(a, t)
  {
    hide Start, Stop, Clear, Send, Tell, SendLast, ValueOf, Doubled;
    SlotsElsewhere(t);
  }

  lemma ClientNonInviteOthers(a: Agent, now: int, e: Event, t: Timer)
    requires t !in Own(ClientNonInvite) && (e.ExpireEvent? ==> e.timer in Own(ClientNonInvite))
    ensures Slot(OnClientNonInvite(a, now, e), t) == Slot(a, t)
  {
    hide Start, Stop, Clear, Send, Tell, SendLast, ValueOf, Doubled;
    SlotsElsewhere(t);
  }

  lemma ServerInviteOthers(a: Agent, now: int, e: Event, t: Timer)
    requires t !in Own(ServerInvite) && (e.ExpireEvent? ==> e.timer in Own(ServerInvite))
    ensures Slot(OnServerInvite(a, now, e), t) == Slot(a, t)
  {
    hide Start, Stop, Clear, Send, Tell, SendLast, ValueOf, Doubled;
    SlotsElsewhere(t);
  }

  lemma ServerNonInviteOthers(a: Agent, now: int, e: Event, t: Timer)
    requires t !in Own(ServerNonInvite) && (e.ExpireEvent? ==> e.timer in Own(ServerNonInvite))
    ensures Slot(OnServerNonInvite(a, now, e), t) == Slot(a, t)
  {
    hide Start, Stop, Clear, Send, Tell, SendLast, ValueOf, Doubled;
    SlotsElsewhere(t);
  }
}
