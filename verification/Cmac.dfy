/** IEEE 802.15.4 data frames: packing a payload, unpacking what the radio received, and what
    the checksum at the end of a frame is good for. */
module Cmac {
  import opened Crc

  type Address = bv8

  const BROADCAST: Address := 0xFF

  /** Frame control, sequence number and the two addresses. */
  const HEADER := 5
  /** The remaining energy and the checksum behind the payload. */
  const TRAILER := 4

  /** The bit fields that `execute` does not set keep what the buffer held. */
  function Control0(was: bv8): bv8 {
    (was & 0xB8) | 0x41
  }

  function Control1(was: bv8): bv8 {
    (was & 0x33) | 0x88
  }

  function FrameType(control: bv8): bv8 {
    control & 7
  }

  function Low8(w: bv16): bv8 {
    (w & 0xFF) as bv8
  }

  function High8(w: bv16): bv8 {
    (w >> 8) as bv8
  }

  function Join(low: bv8, high: bv8): bv16 {
    (low as bv16) | ((high as bv16) << 8)
  }

  lemma JoinHalves(w: bv16)
    ensures Join(Low8(w), High8(w)) == w
  {}

  function NextSequence(n: bv8): bv8 {
    if n < 255 then n + 1 else 0
  }

  /** The bytes the checksum covers. */
  function Covered(was0: bv8, was1: bv8, n: bv8, dst: Address, src: Address,
        payload: seq<bv8>, energy: bv16): (s: seq<bv8>)
    ensures |s| == HEADER + |payload| + 2
  {
    [Control0(was0), Control1(was1), n, dst, src] + payload + [Low8(energy), High8(energy)]
  }

  function Sealed(body: seq<bv8>): (s: seq<bv8>)
    ensures |s| == |body| + 2
  {
    body + [Low8(Crc16(body)), High8(Crc16(body))]
  }

  /** `Overrun` is a payload that leaves the receiver's buffer. */
  datatype Outcome = Dropped | NotForUs | Accepted(src: Address, sequence: bv8, payload: seq<bv8>) | Overrun

  function Unpacked(frame: seq<bv8>, self: Address): Outcome
    requires HEADER + TRAILER <= |frame|
  {
    var n := |frame|;
    if Join(frame[n - 2], frame[n - 1]) != Crc16(frame[..n - 2]) then Dropped
    else if FrameType(frame[0]) != 1 then NotForUs
    else if frame[3] != self && frame[3] != BROADCAST then NotForUs
    else Accepted(frame[4], frame[2], frame[HEADER..n - TRAILER])
  }

  /** What `n` bytes at the head of a buffer come to, for a receiver with `room` bytes. Of a frame shorter
      than header and trailer the missing fields are what the buffer held before, and what is left for
      the payload wraps round to nearly 2^32 bytes. */
  function UnpackedFrom(buffer: seq<bv8>, n: nat, room: nat, self: Address): Outcome
    requires 2 <= n <= |buffer| && HEADER <= |buffer|
  {
    if Join(buffer[n - 2], buffer[n - 1]) != Crc16(buffer[..n - 2]) then Dropped
    else if FrameType(buffer[0]) != 1 then NotForUs
    else if buffer[3] != self && buffer[3] != BROADCAST then NotForUs
    else if n < HEADER + TRAILER || n > HEADER + TRAILER + room then Overrun
    else Accepted(buffer[4], buffer[2], buffer[HEADER..n - TRAILER])
  }

  /** A frame with header and trailer and a payload for which there is room is all there is to it. */
  lemma UnpackedFromIs(buffer: seq<bv8>, n: nat, room: nat, self: Address)
    requires HEADER + TRAILER <= n <= |buffer|
    ensures var (r, u) := (UnpackedFrom(buffer, n, room, self), Unpacked(buffer[..n], self));
      r == if u.Accepted? && |u.payload| > room then Overrun else u
  {
    hide Join, Crc16, FrameType;
    var frame := buffer[..n];
    assert frame[..n - 2] == buffer[..n - 2] && frame[HEADER..n - TRAILER] == buffer[HEADER..n - TRAILER];
  }

  /** Two bytes of zero have a right checksum, and are nobody's frame. */
  lemma ShortestFrames(buffer: seq<bv8>, room: nat, self: Address)
    requires HEADER <= |buffer| && buffer[0] == 0 && buffer[1] == 0
    ensures UnpackedFrom(buffer, 2, room, self) == NotForUs
  {}

  // ----- The link.

  lemma ControlType(was: bv8)
    ensures FrameType(Control0(was)) == 1
  {}

  lemma SealHolds(body: seq<bv8>)
    ensures var f, n := Sealed(body), |body| + 2;
      f[..n - 2] == body && Join(f[n - 2], f[n - 1]) == Crc16(f[..n - 2])
  {
    hide Join, Low8, High8, Crc16;
    assert Sealed(body)[..|body|] == body;
    JoinHalves(Crc16(body));
  }

  /** Packing makes a data frame, inside one network, with short addresses for both ends, and leaves the
      other control bits of the buffer alone. */
  lemma ControlFields(was0: bv8, was1: bv8)
    ensures FrameType(Control0(was0)) == 1 && Control0(was0) & 0x40 != 0
    ensures Control1(was1) & 0x0C == 0x08 && Control1(was1) & 0xC0 == 0x80
    ensures Control0(was0) & 0xB8 == was0 & 0xB8 && Control1(was1) & 0x33 == was1 & 0x33
  {}

  /** A packed frame is accepted by its addressee, and by everybody if it is a broadcast, and
      yields the payload, the sender and the sequence number that went in. */
  lemma PackUnpack(was0: bv8, was1: bv8, n: bv8, dst: Address, src: Address,
        payload: seq<bv8>, energy: bv16, self: Address)
    ensures var f := Sealed(Covered(was0, was1, n, dst, src, payload, energy));
      Unpacked(f, self) == if dst == self || dst == BROADCAST then Accepted(src, n, payload) else NotForUs
  {
    hide Join, Low8, High8, Crc16, Control0, Control1, FrameType;
    var body := Covered(was0, was1, n, dst, src, payload, energy);
    SealHolds(body);
    ControlType(was0);
    var f := Sealed(body);
    assert f[HEADER..|f| - TRAILER] == payload;
  }

  /** A frame with an error burst of at most 16 bits in the bytes that its checksum covers is
      dropped by every receiver. */
  lemma BurstDropped(body: seq<bv8>, frame: seq<bv8>, from: nat, self: Address)
    requires HEADER + 2 <= |body| && |frame| == |body| + 2
    requires frame[|body|..] == Sealed(body)[|body|..]
    requires Burst(Bits(body), Bits(frame[..|body|]), from)
    ensures Unpacked(frame, self) == Dropped
  {
    hide Join, Low8, High8, Crc16, Bits, Burst;
    SealHolds(body);
    SameTrailer(Sealed(body), frame, |body|);
    BurstDetected(body, frame[..|body|], from);
  }

  lemma SameTrailer(f: seq<bv8>, g: seq<bv8>, k: nat)
    requires |f| == |g| == k + 2 && f[k..] == g[k..]
    ensures f[k] == g[k] && f[k + 1] == g[k + 1]
  {
    assert f[k..][0] == g[k..][0] && f[k..][1] == g[k..][1];
  }

  /** And one in which only the checksum is wrong. */
  lemma TrailerDropped(body: seq<bv8>, low: bv8, high: bv8, self: Address)
    requires HEADER + 2 <= |body|
    ensures Unpacked(body + [low, high], self) == Dropped <==> body + [low, high] != Sealed(body)
  {
    hide Low8, High8, Crc16, Join;
    var frame := body + [low, high];
    assert frame[..|body|] == body;
    SealHolds(body);
    JoinInjective(low, high, Low8(Crc16(body)), High8(Crc16(body)));
    if low == Low8(Crc16(body)) && high == High8(Crc16(body)) {
      assert frame == Sealed(body);
    } else {
      assert frame[|body|] != Sealed(body)[|body|] || frame[|body| + 1] != Sealed(body)[|body| + 1];
    }
  }

  lemma JoinInjective(a: bv8, b: bv8, c: bv8, d: bv8)
    ensures Join(a, b) == Join(c, d) <==> a == c && b == d
  {}

  // ----- The state machine's buffers.

  class Mac {
    const self: Address
    const frameBuffer: array<bv8>
    var frameBufferSize: nat
    var txDst: Address
    var rxSrc: Address
    var rxDataSize: nat
    var sequence: bv8
    var transmissions: nat
    var txPackets: nat
    var dropped: nat

    constructor (self: Address, size: nat)
      ensures this.self == self && fresh(frameBuffer) && frameBuffer.Length == size && frameBufferSize == 0
    {
      this.self := self;
      frameBuffer := new bv8[size](_ => 0);
      frameBufferSize := 0;
    }

    /** The payload goes behind the header. */
    method CopyIn(data: seq<bv8>)
      requires HEADER + |data| <= frameBuffer.Length
      modifies frameBuffer
      ensures frameBuffer[..] == old(frameBuffer[..HEADER]) + data + old(frameBuffer[HEADER + |data|..])
    {
      ghost var was := frameBuffer[..];
      for i := 0 to |data|
        invariant frameBuffer[..] == was[..HEADER] + data[..i] + was[HEADER + i..]
      {
        frameBuffer[HEADER + i] := data[i];
      }
    }

    method Pack(data: seq<bv8>, energy: bv16)
      requires HEADER + |data| + TRAILER <= frameBuffer.Length
      modifies this, frameBuffer
      ensures frameBufferSize == HEADER + |data| + TRAILER
      ensures sequence == NextSequence(old(sequence)) && txDst == old(txDst)
      ensures frameBuffer[..frameBufferSize] ==
              Sealed(Covered(old(frameBuffer[0]), old(frameBuffer[1]), sequence, txDst, self, data, energy))
      ensures frameBuffer[frameBufferSize..] == old(frameBuffer[..])[frameBufferSize..]
      ensures transmissions == old(transmissions) + 1 && txPackets == old(txPackets) + 1
      ensures dropped == old(dropped) && rxDataSize == old(rxDataSize) && rxSrc == old(rxSrc)
    {
      frameBufferSize := HEADER + |data| + 2 + 2;
      sequence := if sequence < 255 then sequence + 1 else 0;
      Fill(data, energy);
      transmissions := transmissions + 1;
      txPackets := txPackets + 1;
    }

    /** The frame, field by field. */
    method Fill(data: seq<bv8>, energy: bv16)
      requires HEADER + |data| + TRAILER <= frameBuffer.Length
      modifies frameBuffer
      ensures frameBuffer[..] ==
              Sealed(Covered(old(frameBuffer[0]), old(frameBuffer[1]), sequence, txDst, self, data, energy)) +
              old(frameBuffer[HEADER + |data| + TRAILER..])
    {
      hide Crc16, Low8, High8, Control0, Control1;
      ghost var was := frameBuffer[..];
      var k := HEADER + |data|;
      FillHeader();
      CopyIn(data);
      PutWord(k, energy);
      ghost var body := Covered(was[0], was[1], sequence, txDst, self, data, energy);
      Assembled(body, was, data, [Low8(energy), High8(energy)]);
      assert frameBuffer[..] == body + was[k + 2..];
      assert frameBuffer[..k + 2] == body;
      var crc := Calculate(frameBuffer[..k + 2]);
      PutWord(k + 2, crc);
      assert (body + was[k + 2..])[k + 4..] == was[k + 4..];
    }

    lemma Assembled(body: seq<bv8>, was: seq<bv8>, data: seq<bv8>, tail: seq<bv8>)
      requires HEADER + |data| + 2 <= |was| && |body| == HEADER + |data| + 2 && |tail| == 2
      requires body == body[..HEADER] + data + tail
      ensures var k := HEADER + |data|;
        var filled := body[..HEADER] + data + (body[..HEADER] + was[HEADER..])[k..];
        |filled| == |was| && filled[..k] + tail + filled[k + 2..] == body + was[k + 2..]
    {}

    method FillHeader()
      requires HEADER <= frameBuffer.Length
      modifies frameBuffer
      ensures frameBuffer[..] ==
              [Control0(old(frameBuffer[0])), Control1(old(frameBuffer[1])), sequence, txDst, self] +
              old(frameBuffer[HEADER..])
    {
      hide Control0, Control1;
      frameBuffer[0] := Control0(frameBuffer[0]);
      frameBuffer[1] := Control1(frameBuffer[1]);
      frameBuffer[4] := self;
      frameBuffer[3] := txDst;
      frameBuffer[2] := sequence;
    }

    method PutWord(k: nat, w: bv16)
      requires k + 2 <= frameBuffer.Length
      modifies frameBuffer
      ensures frameBuffer[..] == old(frameBuffer[..k]) + [Low8(w), High8(w)] + old(frameBuffer[k + 2..])
    {
      hide Low8, High8;
      frameBuffer[k], frameBuffer[k + 1] := Low8(w), High8(w);
    }

    method CopyOut(rxData: array<bv8>, size: nat)
      requires HEADER + size <= frameBuffer.Length && size <= rxData.Length && rxData != frameBuffer
      modifies rxData
      ensures rxData[..] == frameBuffer[HEADER..HEADER + size] + old(rxData[size..])
    {
      ghost var was := rxData[..];
      for i := 0 to size
        invariant rxData[..i] == frameBuffer[HEADER..HEADER + i]
        invariant rxData[i..] == was[i..]
      {
        assert rxData[i + 1..] == was[i + 1..];
        rxData[i] := frameBuffer[HEADER + i];
      }
      assert rxData[..] == rxData[..size] + rxData[size..];
    }

    /** The payload of an accepted frame is copied to `rxData`. `over` says that it leaves it, after which
        nothing is known of it. */
    method Unpack(rxData: array<bv8>) returns (ok: bool, over: bool)
      requires HEADER <= frameBuffer.Length && frameBufferSize <= frameBuffer.Length && frameBufferSize != 1
      requires rxData != frameBuffer
      modifies this, rxData
      ensures frameBufferSize == old(frameBufferSize)
      ensures frameBufferSize == 0 ==> !ok && !over && rxData[..] == old(rxData[..]) && dropped == old(dropped)
      ensures frameBufferSize != 0 ==>
                var r := UnpackedFrom(frameBuffer[..], frameBufferSize, rxData.Length, self);
                && over == r.Overrun?
                && (!over ==> ok == r.Accepted?)
                && rxDataSize == (frameBufferSize - HEADER - TRAILER) % 0x1_0000_0000
                && dropped == old(dropped) + (if r.Dropped? then 1 else 0)
                && (!over ==>
                      && rxData[..] == (if ok then r.payload + old(rxData[..])[|r.payload|..] else old(rxData[..]))
                      && rxSrc == (if ok then r.src else old(rxSrc))
                      && sequence == (if ok then r.sequence else old(sequence)))
    {
      hide Crc16, Join, FrameType;
      ok, over := false, false;
      if frameBufferSize == 0 {
        return;
      }
      var n := frameBufferSize;
      rxDataSize := (n - HEADER - 2 - 2) % 0x1_0000_0000;
      assert frameBuffer[..][..n - 2] == frameBuffer[..n - 2];
      var crc := Calculate(frameBuffer[..n - 2]);
      if Join(frameBuffer[n - 2], frameBuffer[n - 1]) != crc {
        dropped := dropped + 1;
      } else if FrameType(frameBuffer[0]) != 1 {
      } else if frameBuffer[3] != self && frameBuffer[3] != BROADCAST {
      } else {
        over := n < HEADER + TRAILER || n > HEADER + TRAILER + rxData.Length;
        if !over {
          ok := true;
          sequence := frameBuffer[2];
          assert frameBuffer[HEADER..n - TRAILER] == frameBuffer[..][HEADER..n - TRAILER];
          CopyOut(rxData, n - HEADER - TRAILER);
          rxSrc := frameBuffer[4];
        }
      }
    }
  }
}
