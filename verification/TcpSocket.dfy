/** `TCP::Socket`: the fields, the calls and the state handlers, updated statement by statement;
    what they do is the step of `TcpModel`, keeps what an endpoint puts on the network sound and
    keeps what it has been given a prefix of what its peer sent. */
module TcpSocket {
  import opened TcpModel
  import opened TcpSafety
  import opened TcpLife

  class SocketObject {
    var state: State
    var sndUna: nat
    var sndNxt: nat
    var sndIni: nat
    var sndWnd: nat
    var rcvNxt: nat
    var rcvIni: nat
    var rcvWnd: nat
    /** What was handed to IP and to the application. */
    var wire: seq<Segment>
    var log: seq<Event>
    /** What the application did. */
    ghost var begun: bool
    ghost var isn: nat
    ghost var stream: seq<Byte>
    ghost var closes: set<nat>

    constructor ()
      ensures state == CLOSED && Valid() && !begun
    {
      state := CLOSED;
      wire, log := [], [];
      begun, isn, stream, closes := false, 0, [], {};
    }

    function View(): Socket
      reads this
    {
      Socket(state, sndUna, sndNxt, sndIni, sndWnd, rcvNxt, rcvIni, rcvWnd)
    }

    /** The endpoint with its history. */
    ghost function History(): Side
      reads this
    {
      Side(View(), begun, isn, stream, closes, Payload(log), SetOf(wire), log)
    }

    /** All it ever put on the network is its SYN, bytes of its stream in place, or a FIN where the
        application closed, `sndNxt` is the place of the next byte, and the application has been told
        just what happened. */
    ghost predicate Valid()
      reads this
    {
      Sound(History()) && Informed(History())
    }

    /** The call left the socket, the network and the application as `reply` says. */
    twostate predicate Answered(reply: Reply)
      reads this
    {
      View() == reply.socket && wire == old(wire) + reply.out && log == old(log) + reply.events
    }

    /** And the application did nothing itself. */
    twostate predicate Replied(reply: Reply)
      reads this
    {
      && Answered(reply)
      && begun == old(begun) && isn == old(isn) && stream == old(stream) && closes == old(closes)
    }

    /** All that went out are acknowledgements at `sndNxt`, which stays where it is. */
    twostate predicate OnlyAcks()
      reads this
    {
      && sndNxt == old(sndNxt) && old(wire) <= wire
      && forall i :: |old(wire)| <= i < |wire| ==>
           wire[i] == Segment(sndNxt, wire[i].ackNum, false, true, false, false, rcvWnd, [])
    }

    twostate lemma Taken(reply: Reply)
      requires Replied(reply)
      ensures History() == Take(old(History()), reply)
    {
      PayloadAppend(old(log), reply.events);
      assert SetOf(wire) == SetOf(old(wire)) + SetOf(reply.out);
    }

    // ----- Sending.

    method Transmit(r: Segment)
      modifies this`wire
      ensures wire == old(wire) + [r.(wnd := rcvWnd)]
    {
      wire := wire + [r.(wnd := rcvWnd)];
    }

    method SendAck()
      modifies this`wire
      ensures wire == old(wire) + [Ack(View())]
    {
      var s := Segment(sndNxt, rcvNxt, false, false, false, false, 0, []);
      s := s.(ack := true);
      Transmit(s);
    }

    method SendFin()
      modifies this`wire
      ensures wire == old(wire) + [Fin(View())]
    {
      var s := Segment(sndNxt, rcvNxt, false, false, false, false, 0, []);
      s := s.(fin := true);
      s := s.(ack := true);
      Transmit(s);
    }

    method Call(e: Event)
      modifies this`log
      ensures log == old(log) + [e]
    {
      log := log + [e];
    }

    method Listen()
      modifies this`state
      ensures View() == old(View()).(state := LISTEN)
      ensures old(Valid()) && !begun ==> Valid()
    {
      state := LISTEN;
    }

    method Connect(random: nat)
      modifies this
      ensures Answered(TcpModel.Connect(old(View()), random))
      ensures History() == Local(old(History()), ConnectOp(random))
      ensures old(Valid()) && !old(begun) ==> Valid()
    {
      SendSyn(random);
      hide Sound, Informed, Payload, SetOf, TcpModel.Connect;
      Taken(TcpModel.Connect(old(View()), random));
      begun, isn := true, sndIni;
      if old(Valid()) && !old(begun) {
        SoundConnect(old(History()), random);
        InformedConnect(old(History()), random);
      }
    }

    method SendSyn(random: nat)
      modifies this
      ensures Replied(TcpModel.Connect(old(View()), random))
    {
      state := SYN_SENT;
      sndIni := random % 0x100_0000;
      sndUna := sndIni;
      sndNxt := Add(sndIni, 1);
      rcvWnd := 512;
      Transmit(Segment(sndIni, 0, true, false, false, false, 0, []));
    }

    /** The stream stays sound, however long it gets. */
    method Send(data: seq<Byte>)
      modifies this
      ensures Answered(TcpModel.Send(old(View()), data))
      ensures History() == Local(old(History()), SendOp(data))
      ensures old(Valid()) && begun ==> Valid()
    {
      hide Sound, Informed, Payload, SetOf;
      var hdr := Segment(sndNxt, Minus1(rcvNxt), false, true, false, false, 0, []);
      sndNxt := Add(sndNxt, |data|);
      Transmit(hdr.(data := data));
      Taken(TcpModel.Send(old(View()), data));
      stream := stream + data;
      if old(Valid()) && begun {
        SoundSend(old(History()), data);
        InformedSend(old(History()), data);
      }
    }

    method Close()
      modifies this
      ensures Answered(TcpModel.Close(old(View())))
      ensures History() == Local(old(History()), CloseOp)
      ensures old(Valid()) && begun ==> Valid()
    {
      hide Sound, Informed, Payload, SetOf;
      SendFin();
      if state == ESTABLISHED {
        state := FIN_WAIT1;
      } else if state == CLOSE_WAIT {
        state := LAST_ACK;
      } else if state == SYN_SENT {
        state := CLOSED;
        Call(Closed);
      }
      Taken(TcpModel.Close(old(View())));
      closes := closes + {|stream|};
      if old(Valid()) && begun {
        SoundClose(old(History()));
        InformedClosing(old(History()));
      }
    }

    // ----- The state handlers.

    method Abort(e: Error)
      modifies this
      ensures Replied(TcpModel.Abort(old(View()), e)) && OnlyAcks()
    {
      Call(Failed(e));
      state := CLOSED;
      Call(Closed);
    }

    /** `n` is what `incoming` returned: null, a socket for the connection or the listening one. */
    method OnListen(n: SocketObject?, r: Segment, random: nat)
      modifies n
      ensures n != null && Accepts(r) ==>
                && n.Answered(TcpModel.OnListen(old(n.View()), r, random))
                && n.History() == Accepted(old(n.History()), r, random)
                && (old(n.Valid()) && !old(n.begun) ==> n.Valid())
      ensures n != null && !Accepts(r) ==> n.Replied(Same(old(n.View())))
    {
      if r.syn && !r.rst && !r.fin {
        if n != null {
          n.Accept(r, random);
        }
      }
    }

    method Accept(r: Segment, random: nat)
      modifies this
      ensures Answered(TcpModel.OnListen(old(View()), r, random))
      ensures History() == Accepted(old(History()), r, random)
      ensures old(Valid()) && !old(begun) ==> Valid()
    {
      SendSynAck(r, random);
      hide Sound, Informed, Payload, SetOf, TcpModel.OnListen;
      Taken(TcpModel.OnListen(old(View()), r, random));
      begun, isn := true, sndIni;
      if old(Valid()) && !old(begun) {
        SoundAccept(old(History()), r, random);
        InformedAccept(old(History()), r, random);
      }
    }

    method SendSynAck(r: Segment, random: nat)
      modifies this
      ensures Replied(TcpModel.OnListen(old(View()), r, random))
    {
      rcvNxt := Add(r.seqNum, 1);
      rcvIni := r.seqNum;
      sndWnd := r.wnd;
      state := SYN_RCVD;
      sndIni := random % 0x1_0000;
      Transmit(Segment(sndIni, rcvNxt, true, true, false, false, 0, []));
      sndNxt := Add(sndIni, 1);
      sndUna := sndIni;
    }

    method OnSynSent(r: Segment)
      modifies this
      ensures Replied(TcpModel.OnSynSent(old(View()), r)) && OnlyAcks()
    {
      if r.rst || r.fin {
        Abort(ERR_REFUSED);
      } else if r.ack {
        if r.ackNum <= sndIni || r.ackNum > sndNxt {
          Abort(ERR_RESET);
        } else if r.ackNum >= sndUna && r.ackNum <= sndNxt {
          if r.syn {
            rcvNxt := Add(r.seqNum, 1);
            rcvIni := r.seqNum;
            sndUna := r.ackNum;
            sndWnd := r.wnd;
            // The source would go to SYN_RCVD here if nothing new were acknowledged.
            assert sndIni < sndUna;
            state := ESTABLISHED;
            SendAck();
            Call(Connected);
          }
        }
      } else if !r.rst && r.syn {
        rcvNxt := Add(r.seqNum, 1);
        sndIni := r.seqNum;
        sndWnd := r.wnd;
        state := SYN_RCVD;
      }
    }

    method OnSynRcvd(r: Segment)
      modifies this
      ensures Replied(TcpModel.OnSynRcvd(old(View()), r)) && OnlyAcks()
    {
      if !CheckSeq(View(), r) {
        return;
      }
      if r.rst || r.fin {
        Abort(ERR_RESET);
      } else if r.ack {
        sndWnd := r.wnd;
        state := ESTABLISHED;
        Call(Connected);
      }
    }

    method Receiving(data: seq<Byte>)
      requires data != []
      modifies this
      ensures Replied(OnData(old(View()), data)) && OnlyAcks()
    {
      rcvNxt := Add(rcvNxt, |data| - 1);
      SendAck();
      rcvNxt := Add(rcvNxt, 1);
      Call(Received(data));
    }

    method OnEstablished(r: Segment)
      modifies this
      ensures Replied(TcpModel.OnEstablished(old(View()), r)) && OnlyAcks()
    {
      if !CheckSeq(View(), r) {
        return;
      }
      if r.rst {
        Abort(ERR_RESET);
      } else if r.seqNum == rcvNxt {
        sndWnd := r.wnd;
        if r.data != [] {
          Receiving(r.data);
        } else if r.ack {
          Call(Sent);
        }
        if r.fin {
          SendAck();
          state := CLOSE_WAIT;
          Call(Closing);
        }
      }
    }

    method OnFinWait1(r: Segment)
      modifies this
      ensures Replied(TcpModel.OnFinWait1(old(View()), r)) && OnlyAcks()
    {
      if !CheckSeq(View(), r) {
        return;
      }
      if r.ack && !r.fin {
        rcvNxt := Add(r.seqNum, |r.data|);
        state := FIN_WAIT2;
        SendAck();
      }
      if r.ack && r.fin {
        state := CLOSED;
        SendAck();
        Call(Closed);
      }
      if !r.ack && r.fin {
        state := CLOSING;
        SendAck();
      }
    }

    method OnFinWait2(r: Segment)
      modifies this
      ensures Replied(TcpModel.OnFinWait2(old(View()), r)) && OnlyAcks()
    {
      if !CheckSeq(View(), r) {
        return;
      }
      if r.fin {
        state := CLOSED;
        SendAck();
        Call(Closed);
      }
    }

    method OnCloseWait(r: Segment)
      modifies this
      ensures Replied(TcpModel.OnCloseWait(old(View()), r)) && OnlyAcks()
    {
      if !CheckSeq(View(), r) {
        return;
      }
      if r.rst || r.data != [] {
        if r.data != [] {
          Call(Failed(ERR_RESET));
        }
        state := CLOSED;
        Call(Closed);
      }
    }

    /** The handlers of CLOSING and of LAST_ACK do the same. */
    method OnClosing(r: Segment)
      modifies this
      ensures Replied(TcpModel.OnClosing(old(View()), r)) && OnlyAcks()
    {
      if !CheckSeq(View(), r) {
        return;
      }
      if r.ack {
        state := CLOSED;
        Call(Closed);
      }
    }

    method OnTimeWait(r: Segment)
      modifies this
      ensures Replied(TcpModel.OnTimeWait(old(View()), r))
    {
      if !CheckSeq(View(), r) {
        return;
      }
      if r.fin && r.ack {
        state := CLOSED;
        sndNxt := Add(sndNxt, 1);
        Call(Closed);
      }
    }

    /** Called with every segment from the peer. What goes out stays sound, and what the
        application has been given stays a prefix of the stream of a peer that sent the segment, if it
        is timely. */
    method Update(r: Segment, n: SocketObject?, random: nat, ghost peer: Side)
      modifies this, n
      ensures old(state) != LISTEN ==> Replied(Handle(old(View()), r))
      ensures old(state) != LISTEN && old(Valid()) ==> Valid()
      ensures old(state) != LISTEN && old(state) != TIME_WAIT && Sound(peer) && r in peer.net ==>
                old(Agrees(History(), peer)) && Timely(r, peer, |Payload(old(log))|) ==> Agrees(History(), peer)
      ensures old(state) == LISTEN && n != this ==> Replied(Same(old(View())))
      ensures n != null && n != this && (old(state) != LISTEN || !Accepts(r)) ==> n.Replied(Same(old(n.View())))
      ensures old(state) == LISTEN && n != null && Accepts(r) ==>
                && n.Answered(TcpModel.OnListen(old(n.View()), r, random))
                && n.History() == Accepted(old(n.History()), r, random)
                && (old(n.Valid()) && !old(n.begun) ==> n.Valid())
    {
      hide Sound, Informed, Agrees, Timely, Handle, TcpModel.OnListen, Accepted, Answered;
      ghost var was := History();
      StateHandler(r, n, random);
      if old(state) != LISTEN {
        Taken(Handle(was.sock, r));
        ArrivalKeeps(was, r);
        if Sound(peer) && r in peer.net && was.sock.state != TIME_WAIT && Agrees(was, peer) &&
           Timely(r, peer, |was.delivered|) {
          AgreesArrive(was, peer, r);
        }
      }
    }

    /** The handler of the table. */
    method StateHandler(r: Segment, n: SocketObject?, random: nat)
      modifies this, n
      ensures old(state) != LISTEN ==> Replied(Handle(old(View()), r))
      ensures old(state) == LISTEN && n != this ==> Replied(Same(old(View())))
      ensures n != null && n != this && (old(state) != LISTEN || !Accepts(r)) ==> n.Replied(Same(old(n.View())))
      ensures old(state) == LISTEN && n != null && Accepts(r) ==>
                && n.Answered(TcpModel.OnListen(old(n.View()), r, random))
                && n.History() == Accepted(old(n.History()), r, random)
                && (old(n.Valid()) && !old(n.begun) ==> n.Valid())
    {
      hide Sound, Informed, Agrees, Payload, SetOf, Accepted, OnlyAcks, History;
      match state {
        case LISTEN => OnListen(n, r, random);
        case SYN_SENT => OnSynSent(r);
        case SYN_RCVD => OnSynRcvd(r);
        case ESTABLISHED => OnEstablished(r);
        case FIN_WAIT1 => OnFinWait1(r);
        case FIN_WAIT2 => OnFinWait2(r);
        case CLOSE_WAIT => OnCloseWait(r);
        case CLOSING => OnClosing(r);
        case LAST_ACK => OnClosing(r);
        case TIME_WAIT => OnTimeWait(r);
        case CLOSED =>
      }
    }
  }

  lemma ArrivalKeeps(me: Side, r: Segment)
    requires me.sock.state != LISTEN
    ensures Sound(me) && Informed(me) ==>
              Sound(Take(me, Handle(me.sock, r))) && Informed(Take(me, Handle(me.sock, r)))
  {
    hide Handle, Follow, Honest, Payload, SetOf;
    if Sound(me) && Informed(me) {
      InformedArrive(me, r);
      if me.begun {
        SoundArrive(me, r);
      } else {
        ClosedIgnores(me.sock, r);
        NothingTaken(me);
      }
    }
  }

  lemma NothingTaken(me: Side)
    ensures Take(me, Same(me.sock)) == me
  {}

  lemma InformedClosing(me: Side)
    requires Sound(me) && Informed(me) && me.begun
    ensures Informed(Local(me, CloseOp))
  {
    InformedClose(me);
  }
}
