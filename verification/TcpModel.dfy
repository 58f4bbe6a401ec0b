/** One TCP endpoint: what each state's handler does with a segment, and what the calls of the
    application send. Sequence numbers wrap at 32 bits. */
module TcpModel {

  const WRAP := 0x1_0000_0000

  type Byte = x: int | 0 <= x < 256

  datatype State =
    | LISTEN | SYN_SENT | SYN_RCVD | ESTABLISHED | FIN_WAIT1 | FIN_WAIT2
    | CLOSE_WAIT | CLOSING | LAST_ACK | TIME_WAIT | CLOSED

  /** The fields of a header that the protocol reads, and the payload. */
  datatype Segment = Segment(seqNum: nat, ackNum: nat, syn: bool, ack: bool, fin: bool, rst: bool, wnd: nat,
                             data: seq<Byte>)

  datatype Error = ERR_RESET | ERR_REFUSED

  /** The callbacks of a socket. */
  datatype Event = Connected | Received(data: seq<Byte>) | Sent | Failed(error: Error) | Closed | Closing

  datatype Socket = Socket(state: State, sndUna: nat, sndNxt: nat, sndIni: nat, sndWnd: nat,
                           rcvNxt: nat, rcvIni: nat, rcvWnd: nat)

  /** A socket after a call, the segments it sent and the callbacks it made, in order. */
  datatype Reply = Reply(socket: Socket, out: seq<Segment>, events: seq<Event>)

  function Add(x: nat, n: nat): nat {
    (x + n) % WRAP
  }

  function Minus1(x: nat): nat {
    (x + WRAP - 1) % WRAP
  }

  // ----- What is sent.

  function Ack(s: Socket): Segment {
    Segment(s.sndNxt, s.rcvNxt, false, true, false, false, s.rcvWnd, [])
  }

  function Fin(s: Socket): Segment {
    Segment(s.sndNxt, s.rcvNxt, false, true, true, false, s.rcvWnd, [])
  }

  function Syn(s: Socket): Segment {
    Segment(s.sndIni, 0, true, false, false, false, s.rcvWnd, [])
  }

  function SynAck(s: Socket): Segment {
    Segment(s.sndIni, s.rcvNxt, true, true, false, false, s.rcvWnd, [])
  }

  function Data(s: Socket, data: seq<Byte>): Segment {
    Segment(s.sndNxt, Minus1(s.rcvNxt), false, true, false, false, s.rcvWnd, data)
  }

  // ----- The calls of the application.

  function Connect(s: Socket, random: nat): Reply {
    var ini := random % 0x100_0000;
    var n := s.(state := SYN_SENT, sndIni := ini, sndUna := ini, sndNxt := Add(ini, 1), rcvWnd := 512);
    Reply(n, [Syn(n)], [])
  }

  function Send(s: Socket, data: seq<Byte>): Reply {
    Reply(s.(sndNxt := Add(s.sndNxt, |data|)), [Data(s, data)], [])
  }

  function Close(s: Socket): Reply {
    match s.state
    case ESTABLISHED => Reply(s.(state := FIN_WAIT1), [Fin(s)], [])
    case CLOSE_WAIT => Reply(s.(state := LAST_ACK), [Fin(s)], [])
    case SYN_SENT => Reply(s.(state := CLOSED), [Fin(s)], [Closed])
    case _ => Reply(s, [Fin(s)], [])
  }

  // ----- The state handlers.

  predicate CheckSeq(s: Socket, r: Segment) {
    |r.data| <= s.rcvWnd && r.seqNum == s.rcvNxt
  }

  function Same(s: Socket): Reply {
    Reply(s, [], [])
  }

  function Abort(s: Socket, error: Error): Reply {
    Reply(s.(state := CLOSED), [], [Failed(error), Closed])
  }

  /** A listening socket answers from `n`, the one its `incoming` made for the connection. */
  function OnListen(n: Socket, r: Segment, random: nat): Reply {
    var ini := random % 0x1_0000;
    var a := n.(state := SYN_RCVD, rcvNxt := Add(r.seqNum, 1), rcvIni := r.seqNum, sndWnd := r.wnd,
                sndIni := ini, sndNxt := Add(ini, 1), sndUna := ini);
    Reply(a, [SynAck(a)], [])
  }

  predicate Accepts(r: Segment) {
    r.syn && !r.rst && !r.fin
  }

  function OnSynSent(s: Socket, r: Segment): Reply {
    if r.rst || r.fin then Abort(s, ERR_REFUSED)
    else if r.ack then
      if r.ackNum <= s.sndIni || r.ackNum > s.sndNxt then Abort(s, ERR_RESET)
      else if r.ackNum >= s.sndUna && r.syn then
        var n := s.(rcvNxt := Add(r.seqNum, 1), rcvIni := r.seqNum, sndUna := r.ackNum, sndWnd := r.wnd,
                    state := ESTABLISHED);
        Reply(n, [Ack(n)], [Connected])
      else Same(s)
    else if r.syn then
      Same(s.(rcvNxt := Add(r.seqNum, 1), sndIni := r.seqNum, sndWnd := r.wnd, state := SYN_RCVD))
    else Same(s)
  }

  function OnSynRcvd(s: Socket, r: Segment): Reply {
    if !CheckSeq(s, r) then Same(s)
    else if r.rst || r.fin then Abort(s, ERR_RESET)
    else if r.ack then Reply(s.(sndWnd := r.wnd, state := ESTABLISHED), [], [Connected])
    else Same(s)
  }

  /** The acknowledgement goes out before the last byte is counted. */
  function OnData(s: Socket, data: seq<Byte>): Reply
    requires data != []
  {
    var n := s.(rcvNxt := Add(s.rcvNxt, |data| - 1));
    Reply(n.(rcvNxt := Add(n.rcvNxt, 1)), [Ack(n)], [Received(data)])
  }

  function OnEstablished(s: Socket, r: Segment): Reply {
    if !CheckSeq(s, r) then Same(s)
    else if r.rst then Abort(s, ERR_RESET)
    else
      var w := s.(sndWnd := r.wnd);
      var d := if r.data != [] then OnData(w, r.data) else Reply(w, [], if r.ack then [Sent] else []);
      if r.fin then
        Reply(d.socket.(state := CLOSE_WAIT), d.out + [Ack(d.socket)], d.events + [Closing])
      else d
  }

  function OnFinWait1(s: Socket, r: Segment): Reply {
    if !CheckSeq(s, r) then Same(s)
    else if r.ack && !r.fin then
      var n := s.(rcvNxt := Add(r.seqNum, |r.data|), state := FIN_WAIT2);
      Reply(n, [Ack(n)], [])
    else if r.ack && r.fin then Reply(s.(state := CLOSED), [Ack(s)], [Closed])
    else if r.fin then Reply(s.(state := CLOSING), [Ack(s)], [])
    else Same(s)
  }

  function OnFinWait2(s: Socket, r: Segment): Reply {
    if CheckSeq(s, r) && r.fin then Reply(s.(state := CLOSED), [Ack(s)], [Closed]) else Same(s)
  }

  /** The error is reported only when there is data: the comment that stands for a statement in
      the code lets the call of `error` depend on the length. */
  function OnCloseWait(s: Socket, r: Segment): Reply {
    if CheckSeq(s, r) && (r.rst || r.data != []) then
      if r.data != [] then Abort(s, ERR_RESET) else Reply(s.(state := CLOSED), [], [Closed])
    else Same(s)
  }

  function OnClosing(s: Socket, r: Segment): Reply {
    if CheckSeq(s, r) && r.ack then Reply(s.(state := CLOSED), [], [Closed]) else Same(s)
  }

  function OnTimeWait(s: Socket, r: Segment): Reply {
    if CheckSeq(s, r) && r.fin && r.ack then
      Reply(s.(state := CLOSED, sndNxt := Add(s.sndNxt, 1)), [], [Closed])
    else Same(s)
  }

  /** The handler table. A listening socket is not changed by a segment: see `OnListen`. */
  function Handle(s: Socket, r: Segment): Reply {
    match s.state
    case LISTEN => Same(s)
    case SYN_SENT => OnSynSent(s, r)
    case SYN_RCVD => OnSynRcvd(s, r)
    case ESTABLISHED => OnEstablished(s, r)
    case FIN_WAIT1 => OnFinWait1(s, r)
    case FIN_WAIT2 => OnFinWait2(s, r)
    case CLOSE_WAIT => OnCloseWait(s, r)
    case CLOSING => OnClosing(s, r)
    case LAST_ACK => OnClosing(s, r)
    case TIME_WAIT => OnTimeWait(s, r)
    case CLOSED => Same(s)
  }
}
