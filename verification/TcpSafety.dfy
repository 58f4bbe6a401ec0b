/** Two endpoints and a network that loses, repeats and reorders what they send but makes
    nothing up: whatever arrives, each application gets a prefix of what the other one sent. */
module TcpSafety {
  import opened TcpModel

  /** An endpoint and its history: the bytes its application sent, how many it had sent at each
      close, the bytes it was given, every segment that it ever put on the network and every callback
      it made. */
  datatype Side = Side(sock: Socket, begun: bool, isn: nat, stream: seq<Byte>, closes: set<nat>,
                       delivered: seq<Byte>, net: set<Segment>, told: seq<Event>)

  datatype Op =
    | ConnectOp(random: nat)
    | SendOp(data: seq<Byte>)
    | CloseOp
    | ArriveOp(segment: Segment, accept: bool, random: nat)

  function Payload(events: seq<Event>): seq<Byte> {
    if events == [] then []
    else (if events[0].Received? then events[0].data else []) + Payload(events[1..])
  }

  lemma {:induction false} PayloadAppend(a: seq<Event>, b: seq<Event>)
    ensures Payload(a + b) == Payload(a) + Payload(b)
  {
    if a == [] {
      assert a + b == b;
    } else {
      assert (a + b)[1..] == a[1..] + b;
      PayloadAppend(a[1..], b);
    }
  }

  lemma NoPayload(events: seq<Event>)
    requires forall e :: e in events ==> !e.Received?
    ensures Payload(events) == []
  {}

  function SetOf(out: seq<Segment>): set<Segment> {
    set r | r in out
  }

  function Take(me: Side, reply: Reply): Side {
    me.(sock := reply.socket, net := me.net + SetOf(reply.out), delivered := me.delivered + Payload(reply.events),
        told := me.told + reply.events)
  }

  /** The application opens once, and sends or closes only after that. What arrives was sent by the
      peer, and is timely. */
  ghost predicate Allowed(me: Side, peer: Side, op: Op) {
    match op
    case ConnectOp(_) => !me.begun && me.sock.state == CLOSED
    case SendOp(data) => me.begun && |data| < 0x1_0000
    case CloseOp => me.begun
    case ArriveOp(r, _, _) => r in peer.net && Timely(r, peer, |me.delivered|)
  }

  /** When `r` arrives at a receiver that has `n` bytes it is fewer than 2^32 bytes behind or ahead: it
      carries bytes that are not so far from the next ones. */
  ghost predicate Timely(r: Segment, peer: Side, n: nat) {
    r.syn || exists off: nat :: At(r, peer.isn, peer.stream, peer.closes, off) && off < n + WRAP && n < off + WRAP
  }

  /** The connection that a listening side has accepted. */
  function Accepted(me: Side, r: Segment, random: nat): Side {
    var reply := OnListen(me.sock, r, random);
    Take(me, reply).(begun := true, isn := reply.socket.sndIni)
  }

  function Local(me: Side, op: Op): Side {
    match op
    case ConnectOp(random) =>
      var reply := Connect(me.sock, random);
      Take(me, reply).(begun := true, isn := reply.socket.sndIni)
    case SendOp(data) => Take(me, Send(me.sock, data)).(stream := me.stream + data)
    case CloseOp => Take(me, Close(me.sock)).(closes := me.closes + {|me.stream|})
    case ArriveOp(r, accept, random) =>
      if me.sock.state != LISTEN then Take(me, Handle(me.sock, r))
      else if Accepts(r) && accept then Accepted(me, r, random)
      else me
  }

  // ----- What a side puts on the network.

  /** `r` carries the bytes of the stream at offset `off`. */
  predicate At(r: Segment, isn: nat, stream: seq<Byte>, closes: set<nat>, off: nat) {
    && off + |r.data| <= |stream|
    && r.seqNum == Add(isn + 1, off)
    && r.data == stream[off..off + |r.data|]
    && (r.fin ==> r.data == [] && off in closes)
  }

  ghost predicate Honest(r: Segment, isn: nat, stream: seq<Byte>, closes: set<nat>) {
    && !r.rst
    && if r.syn then r.seqNum == isn && r.data == [] && !r.fin
       else exists off: nat :: At(r, isn, stream, closes, off)
  }

  ghost predicate Sound(me: Side) {
    && me.sock.state != TIME_WAIT
    && (me.begun ==>
          && me.isn < WRAP && me.sock.state != LISTEN
          && me.sock.sndNxt == Add(me.isn + 1, |me.stream|))
    && (!me.begun ==>
          && (me.sock.state == LISTEN || me.sock.state == CLOSED)
          && me.stream == [] && me.net == {} && me.delivered == [])
    && forall r :: r in me.net ==> Honest(r, me.isn, me.stream, me.closes)
  }

  // ----- What a side has taken from its peer.

  ghost predicate Agrees(me: Side, peer: Side) {
    && me.delivered <= peer.stream
    && (me.sock.state in {LISTEN, SYN_SENT, SYN_RCVD} ==> me.delivered == [])
    && (me.sock.state in {SYN_RCVD, ESTABLISHED} ==>
          peer.begun && me.sock.rcvNxt == Add(peer.isn + 1, |me.delivered|))
    && (me.sock.state in {CLOSE_WAIT, LAST_ACK} ==> |me.delivered| in peer.closes)
  }

  ghost predicate Inv(me: Side, peer: Side) {
    Sound(me) && Sound(peer) && Agrees(me, peer) && Agrees(peer, me)
  }

  // ----- Sequence numbers.

  lemma AddAdd(x: nat, m: nat, n: nat)
    ensures Add(Add(x, m), n) == Add(x, m + n)
  {}

  /** Offsets less than 2^32 apart are told apart. */
  lemma AddInjective(x: nat, m: nat, n: nat)
    requires m < n + WRAP && n < m + WRAP && Add(x, m) == Add(x, n)
    ensures m == n
  {
    SameResidue(x, m, n);
  }

  lemma SameResidue(x: nat, m: nat, n: nat)
    ensures Add(x, m) == Add(x, n) <==> (n - m) % WRAP == 0
  {
    assert (x + n) - (x + m) == n - m;
  }

  /** As long as the peer has sent less than 2^32 bytes everything is timely. */
  lemma ShortStreamTimely(peer: Side, r: Segment, n: nat)
    requires Sound(peer) && r in peer.net && n <= |peer.stream| < WRAP
    ensures Timely(r, peer, n)
  {
    assert Honest(r, peer.isn, peer.stream, peer.closes);
  }

  /** And beyond that, what arrives before the peer has sent 2^32 bytes more, at a receiver that is not
      as far behind. */
  lemma YoungTimely(peer: Side, r: Segment, n: nat, off: nat)
    requires At(r, peer.isn, peer.stream, peer.closes, off) && n <= |peer.stream|
    requires |peer.stream| < off + WRAP && |peer.stream| < n + WRAP
    ensures Timely(r, peer, n)
  {}

  // ----- What a side sends stays true as it sends more.

  lemma HonestGrows(me: Side, d: Side)
    requires forall r :: r in me.net ==> Honest(r, me.isn, me.stream, me.closes)
    requires d.isn == me.isn && me.stream <= d.stream && me.closes <= d.closes
    ensures forall r :: r in me.net ==> Honest(r, d.isn, d.stream, d.closes)
  {
    forall r | r in me.net
      ensures Honest(r, d.isn, d.stream, d.closes)
    {
      assert Honest(r, me.isn, me.stream, me.closes);
      if !r.syn {
        var off: nat :| At(r, me.isn, me.stream, me.closes, off);
        assert At(r, d.isn, d.stream, d.closes, off);
      }
    }
  }

  /** A segment without payload at the end of the stream. */
  lemma TailHonest(me: Side, r: Segment)
    requires !r.syn && !r.rst && r.data == [] && r.seqNum == Add(me.isn + 1, |me.stream|)
    requires r.fin ==> |me.stream| in me.closes
    ensures Honest(r, me.isn, me.stream, me.closes)
  {
    assert At(r, me.isn, me.stream, me.closes, |me.stream|);
  }

  /** The handlers only send acknowledgements, and only move the state forward. */
  lemma HandleSends(s: Socket, r: Segment)
    requires s.state != LISTEN && s.state != TIME_WAIT
    ensures var d := Handle(s, r);
      && d.socket.sndNxt == s.sndNxt && d.socket.state != LISTEN && d.socket.state != TIME_WAIT
      && forall a :: a in d.out ==> !a.syn && !a.rst && !a.fin && a.data == [] && a.seqNum == s.sndNxt
  {}

  lemma SoundArrive(me: Side, r: Segment)
    requires Sound(me) && me.begun
    ensures Sound(Take(me, Handle(me.sock, r)))
  {
    var d := Take(me, Handle(me.sock, r));
    HandleSends(me.sock, r);
    forall a | a in d.net
      ensures Honest(a, d.isn, d.stream, d.closes)
    {
      if a !in me.net {
        TailHonest(me, a);
      }
    }
  }

  lemma SoundSend(me: Side, data: seq<Byte>)
    requires Sound(me) && me.begun
    ensures Sound(Local(me, SendOp(data)))
  {
    var d, r := Local(me, SendOp(data)), Data(me.sock, data);
    HonestGrows(me, d);
    assert d.stream[|me.stream|..|me.stream| + |data|] == data;
    assert At(r, d.isn, d.stream, d.closes, |me.stream|);
    AddAdd(me.isn + 1, |me.stream|, |data|);
    assert d.net == me.net + {r};
  }

  lemma CloseShape(me: Side)
    requires me.sock.state != LISTEN && me.sock.state != TIME_WAIT
    ensures var d := Local(me, CloseOp);
      && d == me.(sock := d.sock, net := me.net + {Fin(me.sock)}, closes := me.closes + {|me.stream|}, told := d.told)
      && d.sock.sndNxt == me.sock.sndNxt && d.sock.state != LISTEN && d.sock.state != TIME_WAIT
  {
    assert SetOf([Fin(me.sock)]) == {Fin(me.sock)};
    NoPayload(Close(me.sock).events);
  }

  lemma SoundClose(me: Side)
    requires Sound(me) && me.begun
    ensures Sound(Local(me, CloseOp))
  {
    var d := Local(me, CloseOp);
    CloseShape(me);
    hide Honest, At, Local;
    HonestGrows(me, d);
    TailHonest(d, Fin(me.sock));
  }

  lemma SoundConnect(me: Side, random: nat)
    requires Sound(me) && !me.begun
    ensures Sound(Local(me, ConnectOp(random)))
  {
    var d := Local(me, ConnectOp(random));
    assert d.net == {Syn(d.sock)};
  }

  lemma SoundAccept(me: Side, r: Segment, random: nat)
    requires Sound(me) && !me.begun
    ensures Sound(Accepted(me, r, random))
  {
    var d := Accepted(me, r, random);
    assert d.net == {SynAck(d.sock)};
  }

  lemma SoundStep(me: Side, peer: Side, op: Op)
    requires Sound(me) && Allowed(me, peer, op)
    ensures Sound(Local(me, op))
  {
    match op
    case ConnectOp(random) => SoundConnect(me, random);
    case SendOp(data) => SoundSend(me, data);
    case CloseOp => SoundClose(me);
    case ArriveOp(r, accept, random) =>
      if me.sock.state == LISTEN {
        if Accepts(r) && accept {
          SoundAccept(me, r, random);
        }
      } else if me.begun {
        SoundArrive(me, r);
      } else {
        assert Take(me, Same(me.sock)) == me;
      }
  }

  // ----- What a side takes from an honest peer.

  /** A segment that the receiver takes in continues what it has. */
  lemma TakenInOrder(r: Segment, peer: Side, n: nat)
    requires peer.begun && Sound(peer) && Honest(r, peer.isn, peer.stream, peer.closes)
    requires n <= |peer.stream| && r.seqNum == Add(peer.isn + 1, n) && Timely(r, peer, n)
    ensures n + |r.data| <= |peer.stream| && peer.stream[n..n + |r.data|] == r.data
    ensures r.fin ==> n in peer.closes && r.data == []
  {
    if !r.syn {
      var off: nat :| At(r, peer.isn, peer.stream, peer.closes, off) && off < n + WRAP && n < off + WRAP;
      AddInjective(peer.isn + 1, off, n);
    }
  }

  lemma AgreesEstablished(me: Side, peer: Side, r: Segment)
    requires Sound(peer) && Agrees(me, peer) && me.sock.state == ESTABLISHED && r in peer.net
    requires Timely(r, peer, |me.delivered|)
    ensures Agrees(Take(me, Handle(me.sock, r)), peer)
  {
    if CheckSeq(me.sock, r) {
      var n := |me.delivered|;
      TakenInOrder(r, peer, n);
      if r.data != [] {
        AddAdd(peer.isn + 1, n, |r.data| - 1);
        AddAdd(peer.isn + 1, n + |r.data| - 1, 1);
      }
      assert me.delivered + r.data <= peer.stream;
      EstablishedPayload(me.sock, r);
    }
  }

  lemma EstablishedPayload(s: Socket, r: Segment)
    requires s.state == ESTABLISHED && CheckSeq(s, r) && !r.rst
    ensures Payload(Handle(s, r).events) == r.data
  {
    var events := Handle(s, r).events;
    if r.data == [] {
      NoPayload(events);
    } else {
      NoPayload(events[1..]);
    }
  }

  lemma AgreesSynSent(me: Side, peer: Side, r: Segment)
    requires Sound(peer) && Agrees(me, peer) && me.sock.state == SYN_SENT && r in peer.net
    ensures Agrees(Take(me, Handle(me.sock, r)), peer)
  {
    assert Honest(r, peer.isn, peer.stream, peer.closes) && peer.begun;
    AddAdd(peer.isn, 1, 0);
    NoPayload(Handle(me.sock, r).events);
  }

  lemma AgreesArrive(me: Side, peer: Side, r: Segment)
    requires Sound(peer) && Agrees(me, peer) && r in peer.net && Timely(r, peer, |me.delivered|)
    requires me.sock.state != LISTEN && me.sock.state != TIME_WAIT
    ensures Agrees(Take(me, Handle(me.sock, r)), peer)
  {
    if me.sock.state == ESTABLISHED {
      AgreesEstablished(me, peer, r);
    } else if me.sock.state == SYN_SENT {
      AgreesSynSent(me, peer, r);
    } else {
      NoPayload(Handle(me.sock, r).events);
    }
  }

  lemma AgreesStep(me: Side, peer: Side, op: Op)
    requires Sound(me) && Sound(peer) && Agrees(me, peer) && Allowed(me, peer, op)
    ensures Agrees(Local(me, op), peer)
  {
    match op
    case ConnectOp(random) =>
    case SendOp(data) =>
    case CloseOp => NoPayload(Close(me.sock).events);
    case ArriveOp(r, accept, random) =>
      if me.sock.state != LISTEN {
        AgreesArrive(me, peer, r);
      } else {
        assert Honest(r, peer.isn, peer.stream, peer.closes) && peer.begun;
        AddAdd(peer.isn, 1, 0);
      }
  }

  /** What has been taken in stays a part of what the peer sent. */
  lemma PeerStep(me: Side, peer: Side, op: Op)
    requires Sound(peer) && Agrees(me, peer) && Allowed(peer, me, op)
    ensures Agrees(me, Local(peer, op))
  {
    var d := Local(peer, op);
    assert peer.stream <= d.stream && peer.closes <= d.closes;
    assert peer.begun ==> d.begun && d.isn == peer.isn;
  }

  lemma StepKeeps(me: Side, peer: Side, op: Op)
    requires Inv(me, peer) && Allowed(me, peer, op)
    ensures Inv(Local(me, op), peer)
  {
    SoundStep(me, peer, op);
    AgreesStep(me, peer, op);
    PeerStep(peer, me, op);
  }

  // ----- Runs.

  datatype System = System(left: Side, right: Side)

  datatype Move = Move(onLeft: bool, op: Op)

  function Step(s: System, m: Move): System {
    if m.onLeft then s.(left := Local(s.left, m.op)) else s.(right := Local(s.right, m.op))
  }

  ghost predicate Permitted(s: System, m: Move) {
    if m.onLeft then Allowed(s.left, s.right, m.op) else Allowed(s.right, s.left, m.op)
  }

  function Idle(sock: Socket): Side {
    Side(sock, false, 0, [], {}, [], {}, [])
  }

  ghost predicate IsRun(trace: seq<System>, moves: seq<Move>, left: Socket, right: Socket) {
    && |trace| == |moves| + 1
    && (left.state == LISTEN || left.state == CLOSED) && (right.state == LISTEN || right.state == CLOSED)
    && trace[0] == System(Idle(left), Idle(right))
    && forall i :: 0 <= i < |moves| ==> Permitted(trace[i], moves[i]) && trace[i + 1] == Step(trace[i], moves[i])
  }

  lemma {:induction false} RunKeeps(trace: seq<System>, moves: seq<Move>, left: Socket, right: Socket, n: nat)
    requires IsRun(trace, moves, left, right) && n < |trace|
    ensures Inv(trace[n].left, trace[n].right)
  {
    hide Inv, Local, Allowed;
    if n == 0 {
      IdleInv(left, right);
    } else {
      RunKeeps(trace, moves, left, right, n - 1);
      var s, m := trace[n - 1], moves[n - 1];
      InvMirrors(s.left, s.right);
      if m.onLeft {
        StepKeeps(s.left, s.right, m.op);
      } else {
        StepKeeps(s.right, s.left, m.op);
        InvMirrors(Local(s.right, m.op), s.left);
      }
    }
  }

  lemma IdleInv(left: Socket, right: Socket)
    requires (left.state == LISTEN || left.state == CLOSED) && (right.state == LISTEN || right.state == CLOSED)
    ensures Inv(Idle(left), Idle(right))
  {}

  lemma InvMirrors(me: Side, peer: Side)
    requires Inv(me, peer)
    ensures Inv(peer, me)
  {}

  /** Stream safety: however much is sent, each application has been given a prefix of what the other one
      sent; and one that was told that its peer is closing has all that the peer sent before closing. */
  lemma StreamSafety(trace: seq<System>, moves: seq<Move>, left: Socket, right: Socket, n: nat)
    requires IsRun(trace, moves, left, right) && n < |trace|
    ensures trace[n].left.delivered <= trace[n].right.stream
    ensures trace[n].right.delivered <= trace[n].left.stream
    ensures trace[n].left.sock.state in {CLOSE_WAIT, LAST_ACK} ==> |trace[n].left.delivered| in trace[n].right.closes
    ensures trace[n].right.sock.state in {CLOSE_WAIT, LAST_ACK} ==> |trace[n].right.delivered| in trace[n].left.closes
  {
    RunKeeps(trace, moves, left, right, n);
  }

  // ----- The handshake.

  /** A side that never sends a bare SYN, and one that keeps its initial number. */
  predicate Answers(me: Side) {
    me.sock.state != SYN_SENT && forall r :: r in me.net && r.syn ==> r.ack
  }

  predicate KeepsIni(me: Side) {
    me.begun ==> me.sock.sndIni == me.isn
  }

  /** Nor does the other end's initial number get lost. */
  predicate KnowsIni(me: Side, peer: Side) {
    me.sock.state in {SYN_RCVD, ESTABLISHED} ==> peer.begun && me.sock.rcvIni == peer.isn
  }

  lemma KnowsStep(me: Side, peer: Side, op: Op)
    requires Sound(me) && Sound(peer) && KnowsIni(me, peer) && Allowed(me, peer, op)
    requires me.sock.state == SYN_SENT ==> Answers(peer)
    ensures KnowsIni(Local(me, op), peer)
  {
    if op.ArriveOp? {
      assert Honest(op.segment, peer.isn, peer.stream, peer.closes) && peer.begun;
    }
  }

  lemma KnownStep(me: Side, peer: Side, op: Op)
    requires Sound(peer) && KnowsIni(me, peer) && Allowed(peer, me, op)
    ensures KnowsIni(me, Local(peer, op))
  {}

  lemma AnswersStep(me: Side, peer: Side, op: Op)
    requires Sound(me) && Answers(me) && KeepsIni(me) && Allowed(me, peer, op) && !op.ConnectOp?
    ensures Answers(Local(me, op)) && KeepsIni(Local(me, op))
  {
    if op.ArriveOp? && me.sock.state != LISTEN {
      HandleSends(me.sock, op.segment);
    }
  }

  lemma CallerStep(me: Side, peer: Side, op: Op)
    requires Sound(me) && KeepsIni(me) && Answers(peer) && Allowed(me, peer, op)
    ensures KeepsIni(Local(me, op))
  {}

  /** Between a client and a server both ends know where the other one's numbers start: what
      `rcv_nxt` expects is the peer's `snd_ini`, its SYN and the bytes taken in so far. */
  lemma {:induction false} Handshake(trace: seq<System>, moves: seq<Move>, client: Socket, server: Socket, n: nat)
    requires IsRun(trace, moves, client, server) && n < |trace| && server.state == LISTEN
    ensures Answers(trace[n].right) && KeepsIni(trace[n].right) && KeepsIni(trace[n].left)
    ensures trace[n].right.begun || trace[n].right.sock.state == LISTEN
    ensures trace[n].left.sock.state in {SYN_RCVD, ESTABLISHED} ==>
              trace[n].left.sock.rcvNxt == Add(trace[n].right.sock.sndIni + 1, |trace[n].left.delivered|)
    ensures trace[n].right.sock.state in {SYN_RCVD, ESTABLISHED} ==>
              trace[n].right.sock.rcvNxt == Add(trace[n].left.sock.sndIni + 1, |trace[n].right.delivered|)
    ensures KnowsIni(trace[n].left, trace[n].right) && KnowsIni(trace[n].right, trace[n].left)
  {
    hide Inv, Local, Allowed, KeepsIni, Answers, KnowsIni;
    RunKeeps(trace, moves, client, server, n);
    if n == 0 {
      IdleIni(client, server);
    } else {
      Handshake(trace, moves, client, server, n - 1);
      RunKeeps(trace, moves, client, server, n - 1);
      var s, m := trace[n - 1], moves[n - 1];
      IsSound(s.left, s.right);
      if m.onLeft {
        CallerStep(s.left, s.right, m.op);
        KnowsStep(s.left, s.right, m.op);
        KnownStep(s.right, s.left, m.op);
      } else {
        ServerStep(s.right, s.left, m.op);
        NotCalling(s.right);
        KnowsStep(s.right, s.left, m.op);
        KnownStep(s.left, s.right, m.op);
      }
    }
    InvMirrors(trace[n].left, trace[n].right);
    if trace[n].left.sock.state in {SYN_RCVD, ESTABLISHED} {
      ExpectsNext(trace[n].left, trace[n].right);
    }
    if trace[n].right.sock.state in {SYN_RCVD, ESTABLISHED} {
      ExpectsNext(trace[n].right, trace[n].left);
    }
  }

  lemma IsSound(me: Side, peer: Side)
    requires Inv(me, peer)
    ensures Sound(me) && Sound(peer)
  {}

  lemma IdleIni(client: Socket, server: Socket)
    requires server.state == LISTEN
    ensures Answers(Idle(server)) && KeepsIni(Idle(server)) && KeepsIni(Idle(client))
    ensures client.state in {LISTEN, CLOSED} ==>
              KnowsIni(Idle(client), Idle(server)) && KnowsIni(Idle(server), Idle(client))
  {}

  lemma NotCalling(me: Side)
    requires Answers(me)
    ensures me.sock.state != SYN_SENT
  {}

  lemma ServerStep(me: Side, peer: Side, op: Op)
    requires Sound(me) && Answers(me) && KeepsIni(me) && Allowed(me, peer, op)
    requires me.begun || me.sock.state == LISTEN
    ensures Answers(Local(me, op)) && KeepsIni(Local(me, op))
    ensures Local(me, op).begun || Local(me, op).sock.state == LISTEN
  {
    hide Sound;
    AnswersStep(me, peer, op);
  }

  lemma ExpectsNext(me: Side, peer: Side)
    requires Inv(me, peer) && KeepsIni(peer) && me.sock.state in {SYN_RCVD, ESTABLISHED}
    ensures me.sock.rcvNxt == Add(peer.sock.sndIni + 1, |me.delivered|)
  {}

  /** When both ends connect at once, the one that gets the bare SYN takes the other's initial
      number for its own, and keeps its own only if they are equal. */
  lemma CrossedOpenForgets(me: Side, peer: Side, r: Segment)
    requires Inv(me, peer) && r in peer.net && r.syn && !r.ack && me.sock.state == SYN_SENT
    ensures Take(me, Handle(me.sock, r)).sock.state == SYN_RCVD
    ensures KeepsIni(Take(me, Handle(me.sock, r))) <==> me.isn == peer.isn
    ensures Handle(me.sock, r).socket.rcvIni == me.sock.rcvIni
  {
    assert Honest(r, peer.isn, peer.stream, peer.closes);
  }

  // ----- Why segments have to be timely, and what a loyal network achieves.

  /** Timely or not, a segment with bytes from offset `off` is taken in exactly when the offset looks
      right modulo 2^32, and the application then still has a prefix exactly when the offset is right,
      or the bytes sent there have been or will be sent once more at the right one. */
  lemma TakenIff(me: Side, peer: Side, r: Segment, off: nat)
    requires me.sock.state == ESTABLISHED && me.delivered <= peer.stream
    requires me.sock.rcvNxt == Add(peer.isn + 1, |me.delivered|)
    requires At(r, peer.isn, peer.stream, peer.closes, off) && !r.rst && 0 < |r.data| <= me.sock.rcvWnd
    ensures var d, taken := Take(me, Handle(me.sock, r)), (|me.delivered| - off) % WRAP == 0;
      && d.delivered == (if taken then me.delivered + r.data else me.delivered)
      && (d.delivered <= peer.stream <==>
            !taken || off == |me.delivered| || Repeats(peer.stream, off, |me.delivered|, |r.data|))
  {
    var n := |me.delivered|;
    SameResidue(peer.isn + 1, off, n);
    assert CheckSeq(me.sock, r) <==> (n - off) % WRAP == 0;
    if CheckSeq(me.sock, r) {
      EstablishedPayload(me.sock, r);
      AppendPrefix(me.delivered, r.data, peer.stream);
    }
  }

  /** The same `k` bytes at both offsets. */
  predicate Repeats(stream: seq<Byte>, m: nat, n: nat, k: nat) {
    m + k <= |stream| && n + k <= |stream| && stream[m..m + k] == stream[n..n + k]
  }

  /** Such a segment: after 2^32 zeros comes a one, and the first zero, once more, is taken for it. */
  lemma OldByteTaken(s: Socket)
    requires s.state == ESTABLISHED && s.rcvNxt == 1 && 0 < s.rcvWnd
    ensures var zeros, r := seq(WRAP, i => 0), Segment(1, 0, false, true, false, false, 0, [0]);
      var me, peer := Side(s, true, 0, [], {}, zeros, {}, []), Side(s, true, 0, zeros + [1], {}, [], {}, []);
      && me.delivered <= peer.stream && s.rcvNxt == Add(peer.isn + 1, |me.delivered|)
      && At(r, peer.isn, peer.stream, peer.closes, 0)
      && !(Take(me, Handle(s, r)).delivered <= peer.stream)
  {
    var zeros: seq<Byte>, r := seq(WRAP, i => 0), Segment(1, 0, false, true, false, false, 0, [0]);
    var me, peer := Side(s, true, 0, [], {}, zeros, {}, []), Side(s, true, 0, zeros + [1], {}, [], {}, []);
    assert peer.stream[0..1] == [0] && peer.stream[WRAP..WRAP + 1] == [1];
    TakenIff(me, peer, r, 0);
    assert peer.stream[0..1][0] == 0 && peer.stream[WRAP..WRAP + 1][0] == 1;
  }

  lemma AppendPrefix(a: seq<Byte>, b: seq<Byte>, c: seq<Byte>)
    requires a <= c
    ensures a + b <= c <==> |a| + |b| <= |c| && b == c[|a|..|a| + |b|]
  {
    if a + b <= c {
      assert c[|a|..|a| + |b|] == (a + b)[|a|..];
    }
    if |a| + |b| <= |c| && b == c[|a|..|a| + |b|] {
      assert c[..|a| + |b|] == c[..|a|] + c[|a|..|a| + |b|];
    }
  }

  /** Connected, and up to date with the peer. */
  predicate InStep(me: Side, peer: Side) {
    me.sock.state == ESTABLISHED && peer.begun && me.delivered == peer.stream
  }

  lemma InOrderDelivers(me: Side, peer: Side, data: seq<Byte>)
    requires Inv(me, peer) && InStep(me, peer) && 0 < |data| <= me.sock.rcvWnd
    requires Allowed(peer, me, SendOp(data))
    ensures var p := Local(peer, SendOp(data));
      var d := Local(me, ArriveOp(Data(peer.sock, data), false, 0));
      && Inv(d, p) && InStep(d, p) && d.sock.rcvWnd == me.sock.rcvWnd
  {
    var r, p := Data(peer.sock, data), Local(peer, SendOp(data));
    StepKeeps(peer, me, SendOp(data));
    InvMirrors(p, me);
    assert p.stream[|peer.stream|..|peer.stream| + |data|] == data;
    assert At(r, p.isn, p.stream, p.closes, |peer.stream|);
    StepKeeps(me, p, ArriveOp(r, false, 0));
    EstablishedPayload(me.sock, r);
  }

  function Concat(chunks: seq<seq<Byte>>): seq<Byte> {
    if chunks == [] then [] else chunks[0] + Concat(chunks[1..])
  }

  /** Each chunk is sent and arrives before the next one. */
  function Stream(me: Side, peer: Side, chunks: seq<seq<Byte>>): System
    decreases |chunks|
  {
    if chunks == [] then System(me, peer)
    else
      Stream(Local(me, ArriveOp(Data(peer.sock, chunks[0]), false, 0)), Local(peer, SendOp(chunks[0])), chunks[1..])
  }

  lemma {:induction false} LosslessDelivers(me: Side, peer: Side, chunks: seq<seq<Byte>>)
    requires Inv(me, peer) && InStep(me, peer) && me.sock.rcvWnd < 0x1_0000
    requires forall c :: c in chunks ==> 0 < |c| <= me.sock.rcvWnd
    ensures Stream(me, peer, chunks).left.delivered == peer.stream + Concat(chunks)
    decreases |chunks|
  {
    hide Inv, InStep, Local;
    UpToDate(me, peer);
    if chunks != [] {
      var p := Local(peer, SendOp(chunks[0]));
      var d := Local(me, ArriveOp(Data(peer.sock, chunks[0]), false, 0));
      InOrderDelivers(me, peer, chunks[0]);
      UpToDate(d, p);
      SentSoFar(peer, chunks[0]);
      assert peer.stream + Concat(chunks) == p.stream + Concat(chunks[1..]);
      LosslessDelivers(d, p, chunks[1..]);
    }
  }

  lemma UpToDate(me: Side, peer: Side)
    requires InStep(me, peer)
    ensures me.delivered == peer.stream && peer.begun
  {}

  lemma SentSoFar(peer: Side, data: seq<Byte>)
    ensures Local(peer, SendOp(data)).stream == peer.stream + data
  {}

  /** Three segments connect a client and a server. */
  lemma HandshakeCompletes(client: Socket, server: Socket, random: nat, other: nat)
    requires client.state == CLOSED && server.state == LISTEN
    ensures var c0, s0 := Local(Idle(client), ConnectOp(random)), Idle(server);
      var s1 := Local(s0, ArriveOp(Syn(c0.sock), true, other));
      var c1 := Local(c0, ArriveOp(SynAck(s1.sock), false, 0));
      var s2 := Local(s1, ArriveOp(Ack(c1.sock), false, 0));
      && Syn(c0.sock) in c0.net && SynAck(s1.sock) in s1.net && Ack(c1.sock) in c1.net
      && InStep(c1, s2) && InStep(s2, c1)
      && c1.told == [Connected] && s2.told == [Connected]
      && c1.isn == random % 0x100_0000 && c1.sock.sndUna == c1.sock.sndNxt
      && s2.isn == other % 0x1_0000 && s2.sock.sndUna == s2.isn
      && c1.sock.rcvWnd == 512 && s2.sock.sndWnd == 512 && c1.sock.sndWnd == s2.sock.rcvWnd
  {
    var c0 := Local(Idle(client), ConnectOp(random));
    assert Syn(c0.sock) in SetOf([Syn(c0.sock)]);
    var s1 := Local(Idle(server), ArriveOp(Syn(c0.sock), true, other));
    assert SynAck(s1.sock) in SetOf([SynAck(s1.sock)]);
    var c1 := Local(c0, ArriveOp(SynAck(s1.sock), false, 0));
    assert c1.sock.state == ESTABLISHED;
    assert Ack(c1.sock) in SetOf([Ack(c1.sock)]);
    assert Payload([Connected]) == [];
  }
}
