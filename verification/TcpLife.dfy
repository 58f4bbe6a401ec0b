/** The life of a connection as its application is told of it, how connections end, and what is
    acknowledged on the way. */
module TcpLife {
  import opened TcpModel
  import opened TcpSafety

  // ----- The callbacks of a connection, in order.

  /** Where a connection is, as far as its application has been told. */
  datatype Phase = Opening | Open | Ending | Failing | Over | Broken

  function Next(p: Phase, e: Event): Phase {
    match e
    case Connected => if p.Opening? then Open else Broken
    case Received(_) => if p.Open? then Open else Broken
    case Sent => if p.Open? then Open else Broken
    case Closing => if p.Open? then Ending else Broken
    case Failed(_) => if p.Opening? || p.Open? || p.Ending? then Failing else Broken
    case Closed => if p.Over? || p.Broken? then Broken else Over
  }

  function Follow(p: Phase, told: seq<Event>): Phase
    decreases told
  {
    if told == [] then p else Follow(Next(p, told[0]), told[1..])
  }

  lemma {:induction false} FollowAppend(p: Phase, a: seq<Event>, b: seq<Event>)
    ensures Follow(p, a + b) == Follow(Follow(p, a), b)
    decreases a
  {
    if a == [] {
      assert a + b == b;
    } else {
      assert (a + b)[1..] == a[1..] + b;
      FollowAppend(Next(p, a[0]), a[1..], b);
    }
  }

  lemma FollowOne(p: Phase, e: Event)
    ensures Follow(p, [e]) == Next(p, e)
  {
    assert Follow(Next(p, e), []) == Next(p, e);
  }

  lemma FollowTwo(p: Phase, e: Event, f: Event)
    ensures Follow(p, [e, f]) == Next(Next(p, e), f)
  {
    assert [e, f][1..] == [f];
    FollowOne(Next(p, e), f);
  }

  /** What the state has to do with it. */
  function PhaseOf(state: State): Phase {
    match state
    case LISTEN => Opening
    case SYN_SENT => Opening
    case SYN_RCVD => Opening
    case ESTABLISHED => Open
    case FIN_WAIT1 => Open
    case FIN_WAIT2 => Open
    case CLOSING => Open
    case TIME_WAIT => Open
    case CLOSE_WAIT => Ending
    case LAST_ACK => Ending
    case CLOSED => Over
  }

  /** The application has been told just what happened to its connection. */
  ghost predicate Informed(me: Side) {
    if me.begun then Follow(Opening, me.told) == PhaseOf(me.sock.state) else me.told == []
  }

  /** The callbacks of a handler, of which there are at most two, lead from phase to phase. */
  lemma HandlePhase(s: Socket, r: Segment)
    requires s.state != LISTEN
    ensures var (d, p) := (Handle(s, r), PhaseOf(s.state));
      match |d.events|
      case 0 => PhaseOf(d.socket.state) == p
      case 1 => PhaseOf(d.socket.state) == Next(p, d.events[0])
      case n => n == 2 && PhaseOf(d.socket.state) == Next(Next(p, d.events[0]), d.events[1])
  {}

  lemma InformedHandle(s: Socket, r: Segment)
    requires s.state != LISTEN
    ensures Follow(PhaseOf(s.state), Handle(s, r).events) == PhaseOf(Handle(s, r).socket.state)
  {
    hide Handle, PhaseOf, Next, Follow;
    HandlePhase(s, r);
    var events, p := Handle(s, r).events, PhaseOf(s.state);
    if |events| == 0 {
      FollowNone(p);
    } else if |events| == 1 {
      assert events == [events[0]];
      FollowOne(p, events[0]);
    } else {
      assert events == [events[0], events[1]];
      FollowTwo(p, events[0], events[1]);
    }
  }

  lemma InformedStep(me: Side, peer: Side, op: Op)
    requires Sound(me) && Informed(me) && Allowed(me, peer, op)
    ensures Informed(Local(me, op))
  {
    hide Honest, At, Timely, Payload, SetOf, Follow;
    match op
    case ConnectOp(random) => InformedConnect(me, random);
    case SendOp(data) => InformedSend(me, data);
    case CloseOp => InformedClose(me);
    case ArriveOp(r, accept, random) =>
      if me.sock.state != LISTEN {
        InformedArrive(me, r);
      } else if Accepts(r) && accept {
        InformedAccept(me, r, random);
      }
  }

  lemma FollowNone(p: Phase)
    ensures Follow(p, []) == p
  {}

  lemma InformedConnect(me: Side, random: nat)
    requires me.told == []
    ensures Informed(Local(me, ConnectOp(random)))
  {
    assert Local(me, ConnectOp(random)).told == [];
    FollowNone(Opening);
  }

  lemma InformedSend(me: Side, data: seq<Byte>)
    requires Informed(me)
    ensures Informed(Local(me, SendOp(data)))
  {
    assert me.told + [] == me.told;
  }

  lemma InformedAccept(me: Side, r: Segment, random: nat)
    requires me.told == []
    ensures Informed(Accepted(me, r, random))
  {
    assert Accepted(me, r, random).told == [];
    FollowNone(Opening);
  }

  lemma InformedClose(me: Side)
    requires me.begun && Informed(me) && me.sock.state != LISTEN && me.sock.state != TIME_WAIT
    ensures Informed(Local(me, CloseOp))
  {
    var p := PhaseOf(me.sock.state);
    FollowAppend(Opening, me.told, Close(me.sock).events);
    FollowOne(p, Closed);
    FollowNone(p);
    hide Follow, Payload, SetOf;
  }

  lemma InformedArrive(me: Side, r: Segment)
    requires Informed(me) && me.sock.state != LISTEN && (!me.begun ==> me.sock.state == CLOSED)
    ensures Informed(Take(me, Handle(me.sock, r)))
  {
    hide Handle;
    if me.begun {
      InformedHandle(me.sock, r);
      FollowAppend(Opening, me.told, Handle(me.sock, r).events);
    } else {
      ClosedIgnores(me.sock, r);
    }
  }

  lemma ClosedIgnores(s: Socket, r: Segment)
    requires s.state == CLOSED
    ensures Handle(s, r) == Same(s)
  {}

  // ----- What order means.

  function Times(told: seq<Event>, e: Event): nat {
    multiset(told)[e]
  }

  function Once(b: bool): nat {
    if b then 1 else 0
  }

  /** Each of the three is told at most once, as `p` says. */
  predicate Tally(told: seq<Event>, p: Phase) {
    && Times(told, Closed) == Once(p == Over)
    && Times(told, Connected) <= 1 && (p == Opening ==> Times(told, Connected) == 0)
    && (p in {Open, Ending} ==> Times(told, Connected) == 1)
    && Times(told, Closing) <= 1 && (p in {Opening, Open} ==> Times(told, Closing) == 0)
    && (p == Ending ==> Times(told, Closing) == 1)
  }

  /** Bytes, and that the peer closes, come after the connection is there, and nothing comes after all
      is over. */
  predicate Orderly(told: seq<Event>, p: Phase) {
    && (p == Opening ==> told == [])
    && (p in {Open, Ending} ==> told != [] && told[0] == Connected)
    && (p == Over ==> told != [] && told[|told| - 1] == Closed)
    && forall i :: 0 <= i < |told| && (told[i].Received? || told[i].Sent? || told[i].Closing?) ==>
         told[0] == Connected
  }

  /** Whoever is told in that order is told at most once that the connection is there, that the peer
      closes and that all is over; gets bytes only after the first and nothing after the last. */
  lemma {:induction false} Story(told: seq<Event>)
    requires Follow(Opening, told) != Broken
    ensures Tally(told, Follow(Opening, told)) && Orderly(told, Follow(Opening, told))
  {
    hide Tally, Orderly;
    if told == [] {
      Untold();
    } else {
      var last := |told| - 1;
      var a, e := told[..last], told[last];
      assert told == a + [e];
      FollowAppend(Opening, a, [e]);
      FollowOne(Follow(Opening, a), e);
      BrokenStays(Follow(Opening, a), e);
      Story(a);
      TallyNext(told, a, e, Follow(Opening, a));
      OrderlyNext(told, a, e, Follow(Opening, a));
    }
  }

  lemma Untold()
    ensures Tally([], Opening) && Orderly([], Opening)
  {}

  lemma BrokenStays(p: Phase, e: Event)
    ensures Next(p, e) != Broken ==> p != Broken
  {}

  lemma TallyNext(told: seq<Event>, a: seq<Event>, e: Event, p: Phase)
    requires told == a + [e] && Tally(a, p) && Next(p, e) != Broken
    ensures Tally(told, Next(p, e))
  {
    assert forall f :: Times(told, f) == Times(a, f) + Once(e == f);
  }

  lemma OrderlyNext(told: seq<Event>, a: seq<Event>, e: Event, p: Phase)
    requires told == a + [e] && Orderly(a, p) && Next(p, e) != Broken
    ensures Orderly(told, Next(p, e))
  {
    assert a != [] ==> told[0] == a[0];
    assert forall i :: 0 <= i < |a| ==> told[i] == a[i];
  }

  // ----- Runs.

  function End(s: System, onLeft: bool): Side {
    if onLeft then s.left else s.right
  }

  lemma EndStep(trace: seq<System>, moves: seq<Move>, left: Socket, right: Socket, onLeft: bool, n: nat)
    requires IsRun(trace, moves, left, right) && n < |moves|
    ensures var (me, peer, d) := (End(trace[n], onLeft), End(trace[n], !onLeft), End(trace[n + 1], onLeft));
      && Sound(me)
      && (d == me || (Allowed(me, peer, moves[n].op) && d == Local(me, moves[n].op)))
  {
    hide Sound, Agrees, Local, Allowed;
    RunKeeps(trace, moves, left, right, n);
    assert trace[n + 1] == Step(trace[n], moves[n]);
  }

  /** Over every run each application is told just what happens to its connection: that it is there
      exactly if it has been established, that the peer closes exactly if the end has been in
      CLOSE_WAIT. */
  lemma {:induction false} Told(trace: seq<System>, moves: seq<Move>, left: Socket, right: Socket,
                                onLeft: bool, n: nat)
    requires IsRun(trace, moves, left, right) && n < |trace|
    ensures Informed(End(trace[n], onLeft))
    ensures Connected in End(trace[n], onLeft).told <==> Been(trace, onLeft, ESTABLISHED, n)
    ensures Closing in End(trace[n], onLeft).told <==> Been(trace, onLeft, CLOSE_WAIT, n)
  {
    hide Local, Allowed, Informed, Sound;
    if n == 0 {
      StartsUntold(trace[0], left, right, onLeft);
    } else {
      Told(trace, moves, left, right, onLeft, n - 1);
      EndStep(trace, moves, left, right, onLeft, n - 1);
      var me, peer, d := End(trace[n - 1], onLeft), End(trace[n - 1], !onLeft), End(trace[n], onLeft);
      if d != me {
        InformedStep(me, peer, moves[n - 1].op);
        ToldStep(me, peer, moves[n - 1].op);
      }
    }
  }

  /** The end was in that state at some time up to `n`. */
  ghost predicate Been(trace: seq<System>, onLeft: bool, state: State, n: nat)
    requires n < |trace|
  {
    exists m :: 0 <= m <= n && End(trace[m], onLeft).sock.state == state
  }

  lemma StartsUntold(s: System, left: Socket, right: Socket, onLeft: bool)
    requires s == System(Idle(left), Idle(right))
    requires (left.state == LISTEN || left.state == CLOSED) && (right.state == LISTEN || right.state == CLOSED)
    ensures Informed(End(s, onLeft)) && End(s, onLeft).told == []
    ensures End(s, onLeft).sock.state in {LISTEN, CLOSED}
  {}

  lemma ToldStep(me: Side, peer: Side, op: Op)
    requires Sound(me) && Informed(me) && Allowed(me, peer, op) && Informed(Local(me, op))
    ensures var d := Local(me, op);
      && (Connected in d.told <==> Connected in me.told || d.sock.state == ESTABLISHED)
      && (Closing in d.told <==> Closing in me.told || d.sock.state == CLOSE_WAIT)
  {
    SoundStep(me, peer, op);
    StateTold(me);
    StateTold(Local(me, op));
    hide Honest, At, Timely, Payload, SetOf, Informed;
    match op
    case ConnectOp(random) =>
    case SendOp(data) =>
    case CloseOp =>
    case ArriveOp(r, accept, random) =>
      if me.sock.state != LISTEN {
        HandleTells(me.sock, r);
      }
  }

  lemma HandleTells(s: Socket, r: Segment)
    requires s.state != LISTEN
    ensures var d := Handle(s, r);
      && (Connected in d.events ==> d.socket.state == ESTABLISHED)
      && (Closing in d.events ==> d.socket.state == CLOSE_WAIT)
  {}

  lemma StateTold(me: Side)
    requires Informed(me) && Sound(me)
    ensures me.sock.state == ESTABLISHED ==> Connected in me.told
    ensures me.sock.state == CLOSE_WAIT ==> Closing in me.told
  {
    if me.begun {
      Story(me.told);
      assert Times(me.told, Connected) > 0 ==> Connected in me.told;
      assert Times(me.told, Closing) > 0 ==> Closing in me.told;
    }
  }

  /** And so, over every run: it is told once that the connection is there before it is given any
      bytes, once that the peer closes while the end is in CLOSE_WAIT or LAST_ACK, and last and once that
      all is over exactly if the end, once begun, is in CLOSED. */
  lemma ToldOnce(trace: seq<System>, moves: seq<Move>, left: Socket, right: Socket, onLeft: bool, n: nat)
    requires IsRun(trace, moves, left, right) && n < |trace|
    ensures var me := End(trace[n], onLeft);
      && Times(me.told, Closed) == Once(me.begun && me.sock.state == CLOSED)
      && Times(me.told, Connected) == Once(Been(trace, onLeft, ESTABLISHED, n))
      && Times(me.told, Closing) == Once(Been(trace, onLeft, CLOSE_WAIT, n))
      && (me.sock.state in {CLOSE_WAIT, LAST_ACK} ==> Times(me.told, Closing) == 1)
      && (me.begun && me.sock.state !in {CLOSE_WAIT, LAST_ACK, CLOSED} ==> Times(me.told, Closing) == 0)
      && Orderly(me.told, if me.begun then PhaseOf(me.sock.state) else Opening)
  {
    hide Local, Allowed, Orderly, Been;
    Told(trace, moves, left, right, onLeft, n);
    RunKeeps(trace, moves, left, right, n);
    var me := End(trace[n], onLeft);
    if me.begun {
      Story(me.told);
    } else {
      Untold();
    }
    assert Times(me.told, Connected) > 0 <==> Connected in me.told;
    assert Times(me.told, Closing) > 0 <==> Closing in me.told;
  }

  // ----- How connections end.

  /** The segment breaks the connection off: a reset where one is heeded, a FIN or an acknowledgement
      that cannot be while the connection opens, bytes behind the peer's FIN. */
  predicate Breaks(s: Socket, r: Segment) {
    || (s.state == SYN_SENT && (r.rst || r.fin || (r.ack && !(s.sndIni < r.ackNum <= s.sndNxt))))
    || (s.state == SYN_RCVD && CheckSeq(s, r) && (r.rst || r.fin))
    || (s.state == ESTABLISHED && CheckSeq(s, r) && r.rst)
    || (s.state == CLOSE_WAIT && CheckSeq(s, r) && (r.rst || r.data != []))
  }

  /** The segment brings what the closing of both ends still lacks. */
  predicate Completes(s: Socket, r: Segment) {
    CheckSeq(s, r) && match s.state
      case FIN_WAIT1 => r.fin && r.ack
      case FIN_WAIT2 => r.fin
      case CLOSING => r.ack
      case LAST_ACK => r.ack
      case TIME_WAIT => r.fin && r.ack
      case _ => false
  }

  function LastWords(s: Socket, r: Segment): seq<Event> {
    if s.state == CLOSE_WAIT && r.data == [] then [Closed]
    else [Failed(if s.state == SYN_SENT && (r.rst || r.fin) then ERR_REFUSED else ERR_RESET), Closed]
  }

  /** A connection ends exactly with a segment of the one kind or the other. The application is told
      of an error exactly if it is broken off, but not for a reset without bytes behind the peer's
      FIN, and then that all is over; and only a last FIN is acknowledged. */
  lemma EndsIff(s: Socket, r: Segment)
    requires s.state != CLOSED
    ensures var d := Handle(s, r);
      && (d.socket.state == CLOSED <==> Breaks(s, r) || Completes(s, r))
      && (Breaks(s, r) ==> d.out == [] && d.events == LastWords(s, r))
      && (Completes(s, r) ==>
            d.events == [Closed] && d.out == if s.state in {FIN_WAIT1, FIN_WAIT2} then [Ack(s)] else [])
      && d.socket.sndNxt == if s.state == TIME_WAIT && Completes(s, r) then Add(s.sndNxt, 1) else s.sndNxt
  {}

  /** The peer's window is taken over from each segment that takes an opening connection on, and while it
      is there from all that is in its place; the peer's first number and what it has acknowledged only
      from the answer to a SYN. */
  lemma WindowTaken(s: Socket, r: Segment)
    ensures var d := Handle(s, r).socket;
      && d.sndWnd == (if Opens(s, d) || (s.state == ESTABLISHED && CheckSeq(s, r) && !r.rst) then r.wnd else s.sndWnd)
      && d.rcvWnd == s.rcvWnd
      && (d.rcvIni, d.sndUna) ==
         (if s.state == SYN_SENT && d.state == ESTABLISHED then (r.seqNum, r.ackNum) else (s.rcvIni, s.sndUna))
  {}

  predicate Opens(s: Socket, d: Socket) {
    (s.state == SYN_SENT && d.state in {SYN_RCVD, ESTABLISHED}) || (s.state == SYN_RCVD && d.state == ESTABLISHED)
  }

  /** A bare reset in place is heeded exactly while the connection opens and until the application has
      closed its end. */
  lemma ResetHeededIff(s: Socket, r: Segment)
    requires s.state !in {LISTEN, CLOSED} && CheckSeq(s, r)
    requires r.rst && !r.syn && !r.ack && !r.fin && r.data == []
    ensures Handle(s, r).socket.state == CLOSED <==> s.state in {SYN_SENT, SYN_RCVD, ESTABLISHED, CLOSE_WAIT}
  {
    EndsIff(s, r);
  }

  /** Out of its place a segment changes nothing and is not answered, except while opening. */
  lemma OutOfPlace(s: Socket, r: Segment)
    requires s.state != SYN_SENT && !CheckSeq(s, r)
    ensures Handle(s, r) == Same(s)
  {}

  /** Without a flag, and without bytes that anybody waits for, a segment tells no more than its window. */
  lemma FlaglessIgnored(s: Socket, r: Segment)
    requires !r.syn && !r.ack && !r.fin && !r.rst
    requires r.data == [] || s.state !in {ESTABLISHED, CLOSE_WAIT}
    ensures Handle(s, r) == Same(if s.state == ESTABLISHED && CheckSeq(s, r) then s.(sndWnd := r.wnd) else s)
  {}

  /** A FIN in its place takes each state that waits for one on, and is acknowledged: by the
      application's close to come, by the peer's acknowledgement, or by both the connection ends. */
  lemma FinTaken(s: Socket, r: Segment)
    requires s.state in {ESTABLISHED, FIN_WAIT1, FIN_WAIT2} && CheckSeq(s, r) && r.fin && !r.rst
    ensures var d := Handle(s, r);
      && d.out != [] && d.out[|d.out| - 1] == Ack(d.socket)
      && d.socket.rcvNxt ==
         (if s.state == ESTABLISHED && r.data != [] then Add(s.rcvNxt, |r.data|) else s.rcvNxt)
      && d.socket.state == match s.state
           case ESTABLISHED => CLOSE_WAIT
           case FIN_WAIT1 => if r.ack then CLOSED else CLOSING
           case _ => CLOSED
  {
    if r.data != [] {
      AddAdd(s.rcvNxt, |r.data| - 1, 1);
    }
  }

  // ----- What is acknowledged.

  /** Bytes taken in from the peer are acknowledged at once, but for the last of them; a FIN with the
      place behind them, as if it took none. Nothing else that arrives is answered once the connection
      is there, and the peer's window is taken over from all that is in its place. */
  lemma Acknowledged(me: Side, peer: Side, r: Segment)
    requires Inv(me, peer) && me.sock.state == ESTABLISHED && r in peer.net && Timely(r, peer, |me.delivered|)
    ensures var (d, given) := (Handle(me.sock, r), Take(me, Handle(me.sock, r)).delivered);
      && given == me.delivered + (if CheckSeq(me.sock, r) then r.data else [])
      && AckNums(d.out) == (if !CheckSeq(me.sock, r) then []
                            else if r.data != [] then [Add(peer.isn, |given|)]
                            else if r.fin then [Add(peer.isn + 1, |given|)]
                            else [])
      && d.socket.sndWnd == if CheckSeq(me.sock, r) then r.wnd else me.sock.sndWnd
  {
    var n := |me.delivered|;
    assert Honest(r, peer.isn, peer.stream, peer.closes);
    if CheckSeq(me.sock, r) {
      TakenInOrder(r, peer, n);
      EstablishedPayload(me.sock, r);
      EstablishedAcks(me.sock, r);
      if r.data != [] {
        AddAdd(peer.isn + 1, n, |r.data| - 1);
        assert Add(peer.isn + 1, n + |r.data| - 1) == Add(peer.isn, n + |r.data|);
      }
    }
    hide Honest, At, Sound, Timely, Payload, SetOf;
  }

  function AckNums(out: seq<Segment>): (s: seq<nat>)
    ensures |s| == |out|
  {
    seq(|out|, i requires 0 <= i < |out| => out[i].ackNum)
  }

  lemma EstablishedAcks(s: Socket, r: Segment)
    requires s.state == ESTABLISHED && CheckSeq(s, r) && !r.rst && (r.data != [] ==> !r.fin)
    ensures AckNums(Handle(s, r).out) ==
            if r.data != [] then [Add(s.rcvNxt, |r.data| - 1)] else if r.fin then [s.rcvNxt] else []
    ensures Handle(s, r).socket.sndWnd == r.wnd
  {}

  /** What the application sends acknowledges all that it has been given but the last byte. */
  lemma SentAcknowledges(me: Side, peer: Side, data: seq<Byte>)
    requires Inv(me, peer) && me.sock.state == ESTABLISHED
    ensures Data(me.sock, data) in Local(me, SendOp(data)).net
    ensures Data(me.sock, data).ackNum == Add(peer.isn, |me.delivered|)
  {
    assert Data(me.sock, data) in SetOf([Data(me.sock, data)]);
    AddAdd(peer.isn, 1, |me.delivered|);
    MinusOne(peer.isn, |me.delivered|);
  }

  lemma MinusOne(x: nat, n: nat)
    ensures Minus1(Add(x + 1, n)) == Add(x, n)
  {}

  /** Bytes that come in their place after the application has closed its end are not given to it. The
      first of them are acknowledged all the same, if they acknowledge the FIN; later ones are not. */
  lemma AfterClose(s: Socket, r: Segment)
    requires s.state in {FIN_WAIT1, FIN_WAIT2, CLOSING, LAST_ACK, TIME_WAIT, CLOSED}
    ensures Payload(Handle(s, r).events) == []
    ensures s.state == FIN_WAIT1 && CheckSeq(s, r) && r.ack && !r.fin ==>
              var d := Handle(s, r);
              && d.socket == s.(state := FIN_WAIT2, rcvNxt := Add(s.rcvNxt, |r.data|))
              && d.out == [Ack(d.socket)]
    ensures s.state != FIN_WAIT1 && !r.fin ==> Handle(s, r).out == []
  {
    assert Payload([Closed]) == [] && Payload([]) == [];
    hide Payload;
  }

  // ----- Closing completes.

  lemma Posted(me: Side, reply: Reply, r: Segment)
    requires r in reply.out
    ensures r in Take(me, reply).net
  {}

  lemma Closes(me: Side)
    requires me.sock.state in {ESTABLISHED, CLOSE_WAIT}
    ensures var d := Local(me, CloseOp);
      && Fin(me.sock) in d.net && d.told == me.told
      && d.sock == me.sock.(state := if me.sock.state == ESTABLISHED then FIN_WAIT1 else LAST_ACK)
  {
    Posted(me, Close(me.sock), Fin(me.sock));
  }

  lemma PeerCloses(me: Side, r: Segment)
    requires me.sock.state == ESTABLISHED && CheckSeq(me.sock, r)
    requires r.fin && r.ack && !r.rst && r.data == []
    ensures var d := Local(me, ArriveOp(r, false, 0));
      && Ack(d.sock) in d.net && d.told == me.told + [Sent, Closing]
      && d.sock == me.sock.(state := CLOSE_WAIT, sndWnd := r.wnd)
  {
    var d := Handle(me.sock, r);
    assert d.events == [Sent] + [Closing] && d.out == [] + [Ack(d.socket)];
    Posted(me, d, Ack(d.socket));
  }

  lemma CloseAcked(me: Side, r: Segment)
    requires me.sock.state == FIN_WAIT1 && CheckSeq(me.sock, r) && me.sock.rcvNxt < WRAP
    requires r.ack && !r.fin && r.data == []
    ensures var d := Local(me, ArriveOp(r, false, 0));
      Ack(d.sock) in d.net && d.told == me.told && d.sock == me.sock.(state := FIN_WAIT2)
  {
    var d := Handle(me.sock, r);
    Posted(me, d, Ack(d.socket));
  }

  lemma Finishes(me: Side, r: Segment)
    requires CheckSeq(me.sock, r) && r.ack
    requires me.sock.state == LAST_ACK || (me.sock.state in {FIN_WAIT1, FIN_WAIT2} && r.fin)
    ensures var d := Local(me, ArriveOp(r, false, 0));
      && d.sock == me.sock.(state := CLOSED) && d.told == me.told + [Closed]
      && (me.sock.state != LAST_ACK ==> Ack(me.sock) in d.net)
  {
    var d := Handle(me.sock, r);
    if me.sock.state != LAST_ACK {
      Posted(me, d, Ack(me.sock));
    }
  }

  /** What each end expects next is what the other one would send. */
  lemma NextExpected(me: Side, peer: Side)
    requires Inv(me, peer) && InStep(me, peer)
    ensures me.sock.rcvNxt == peer.sock.sndNxt < WRAP
  {}

  /** One application closes, then the other: once the two FINs and their acknowledgements have arrived
      both ends are in CLOSED and each application has been told, the second one also, before it
      closed, that the first had. */
  lemma CloseCompletes(a: Side, b: Side)
    requires Inv(a, b) && InStep(a, b) && InStep(b, a)
    ensures var a1 := Local(a, CloseOp);
      var b1 := Local(b, ArriveOp(Fin(a.sock), false, 0));
      var a2 := Local(a1, ArriveOp(Ack(b1.sock), false, 0));
      var b2 := Local(b1, CloseOp);
      var a3 := Local(a2, ArriveOp(Fin(b1.sock), false, 0));
      var b3 := Local(b2, ArriveOp(Ack(a2.sock), false, 0));
      && Fin(a.sock) in a1.net && Ack(b1.sock) in b1.net && Fin(b1.sock) in b2.net && Ack(a2.sock) in a3.net
      && b1.sock.state == CLOSE_WAIT && b1.told == b.told + [Sent, Closing]
      && a2.sock.state == FIN_WAIT2 && a2.told == a.told
      && a3.sock.state == CLOSED && a3.told == a.told + [Closed]
      && b3.sock.state == CLOSED && b3.told == b1.told + [Closed]
  {
    NextExpected(a, b);
    InvMirrors(a, b);
    NextExpected(b, a);
    hide Inv, Local;
    Closes(a);
    PeerCloses(b, Fin(a.sock));
    var a1, b1 := Local(a, CloseOp), Local(b, ArriveOp(Fin(a.sock), false, 0));
    CloseAcked(a1, Ack(b1.sock));
    Closes(b1);
    var a2, b2 := Local(a1, ArriveOp(Ack(b1.sock), false, 0)), Local(b1, CloseOp);
    Finishes(a2, Fin(b1.sock));
    Finishes(b2, Ack(a2.sock));
  }

  /** Both close at once: each other's FIN is all that it takes, and neither is told that the other one
      closes. */
  lemma ClosesCross(a: Side, b: Side)
    requires Inv(a, b) && InStep(a, b) && InStep(b, a)
    ensures var a1, b1 := Local(a, CloseOp), Local(b, CloseOp);
      var a2 := Local(a1, ArriveOp(Fin(b.sock), false, 0));
      && Fin(b.sock) in b1.net
      && a2.sock.state == CLOSED && a2.told == a.told + [Closed]
  {
    NextExpected(a, b);
    hide Inv, Local;
    Closes(a);
    Closes(b);
    Finishes(Local(a, CloseOp), Fin(b.sock));
  }
}
