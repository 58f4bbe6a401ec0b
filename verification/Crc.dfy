/** The 16-bit CRC of frames: a table-free loop over the bits, and which errors it always finds. */
module Crc {

  /** One turn of the inner loop. */
  function Shift(c: bv16): bv16 {
    if c & 0x8000 != 0 then (c << 1) ^ 0x1021 else c << 1
  }

  function Shift8(c: bv16): bv16 {
    Shift(Shift(Shift(Shift(Shift(Shift(Shift(Shift(c))))))))
  }

  function Xor(a: bv16, b: bv16): bv16 {
    a ^ b
  }

  function HighByte(b: bv8): bv16 {
    (b as bv16) << 8
  }

  function NextByte(c: bv16, b: bv8): bv16 {
    Shift8(Xor(c, HighByte(b)))
  }

  function CrcFrom(c: bv16, s: seq<bv8>): bv16
    decreases |s|
  {
    if s == [] then c else CrcFrom(NextByte(c, s[0]), s[1..])
  }

  function Crc16(s: seq<bv8>): bv16 {
    CrcFrom(0, s)
  }

  lemma {:induction false} CrcFromLast(c: bv16, s: seq<bv8>, b: bv8)
    ensures CrcFrom(c, s + [b]) == NextByte(CrcFrom(c, s), b)
    decreases |s|
  {
    hide NextByte;
    if s == [] {
      assert (s + [b])[1..] == [];
    } else {
      assert (s + [b])[1..] == s[1..] + [b];
      CrcFromLast(NextByte(c, s[0]), s[1..], b);
    }
  }

  method Calculate(s: seq<bv8>) returns (crc: bv16)
    ensures crc == Crc16(s)
  {
    hide Shift;
    crc := 0;
    var k := 0;
    while k < |s|
      invariant 0 <= k <= |s|
      invariant crc == CrcFrom(0, s[..k])
    {
      CrcFromLast(0, s[..k], s[k]);
      assert s[..k] + [s[k]] == s[..k + 1];
      crc := crc ^ ((s[k] as bv16) << 8);
      crc := Shifts(crc);
      k := k + 1;
    }
    assert s[..k] == s;
  }

  function ShiftTimes(c: bv16, n: nat): bv16 {
    if n == 0 then c else Shift(ShiftTimes(c, n - 1))
  }

  lemma ShiftTimes8(c: bv16)
    ensures ShiftTimes(c, 8) == Shift8(c)
  {
    hide Shift;
    assert ShiftTimes(c, 1) == Shift(c);
    assert ShiftTimes(c, 2) == Shift(Shift(c));
    assert ShiftTimes(c, 3) == Shift(Shift(Shift(c)));
    assert ShiftTimes(c, 4) == Shift(Shift(Shift(Shift(c))));
    assert ShiftTimes(c, 6) == Shift(Shift(ShiftTimes(c, 4)));
  }

  method Shifts(c: bv16) returns (crc: bv16)
    ensures crc == Shift8(c)
  {
    hide Shift;
    crc := c;
    var i := 8;
    while true
      invariant 1 <= i <= 8 && crc == ShiftTimes(c, 8 - i)
      decreases i
    {
      crc := OneShift(crc);
      i := i - 1;
      assert crc == ShiftTimes(c, 8 - i);
      if i == 0 {
        break;
      }
    }
    ShiftTimes8(c);
  }

  method OneShift(c: bv16) returns (crc: bv16)
    ensures crc == Shift(c)
  {
    if c & 0x8000 != 0 {
      crc := (c << 1) ^ 0x1021;
    } else {
      crc := c << 1;
    }
  }

  // ----- Bit by bit.

  function Top(b: bool): bv16 {
    if b then 0x8000 else 0
  }

  function NextBit(c: bv16, b: bool): bv16 {
    Shift(Xor(c, Top(b)))
  }

  function Feed(c: bv16, bits: seq<bool>): bv16
    decreases |bits|
  {
    if bits == [] then c else Feed(NextBit(c, bits[0]), bits[1..])
  }

  /** The bits of a byte, the highest first. */
  function BitsOf(b: bv8): (bits: seq<bool>)
    ensures |bits| == 8
  {
    [b & 128 != 0, b & 64 != 0, b & 32 != 0, b & 16 != 0, b & 8 != 0, b & 4 != 0, b & 2 != 0, b & 1 != 0]
  }

  function Bits(s: seq<bv8>): (bits: seq<bool>)
    ensures |bits| == 8 * |s|
  {
    if s == [] then [] else BitsOf(s[0]) + Bits(s[1..])
  }

  lemma ShiftXorLow(a: bv16, b: bv16)
    requires a & 0x8000 == 0 && b & 0x8000 == 0
    ensures Shift(Xor(a, b)) == Xor(Shift(a), Shift(b))
  {}

  lemma ShiftXorMixed(a: bv16, b: bv16)
    requires a & 0x8000 != 0 && b & 0x8000 == 0
    ensures Shift(Xor(a, b)) == Xor(Shift(a), Shift(b))
    ensures Shift(Xor(b, a)) == Xor(Shift(b), Shift(a))
  {}

  lemma ShiftXorHigh(a: bv16, b: bv16)
    requires a & 0x8000 != 0 && b & 0x8000 != 0
    ensures Shift(Xor(a, b)) == Xor(Shift(a), Shift(b))
  {}

  /** The loop is linear over exclusive or. */
  lemma ShiftXor(a: bv16, b: bv16)
    ensures Shift(Xor(a, b)) == Xor(Shift(a), Shift(b))
  {
    hide Shift, Xor;
    if a & 0x8000 == 0 {
      if b & 0x8000 == 0 {
        ShiftXorLow(a, b);
      } else {
        ShiftXorMixed(b, a);
      }
    } else {
      if b & 0x8000 == 0 {
        ShiftXorMixed(a, b);
      } else {
        ShiftXorHigh(a, b);
      }
    }
  }

  lemma ShiftZero(a: bv16)
    ensures Shift(a) == 0 <==> a == 0
  {}

  lemma {:induction false} FeedAppend(c: bv16, s: seq<bool>, t: seq<bool>)
    ensures Feed(c, s + t) == Feed(Feed(c, s), t)
    decreases |s|
  {
    hide NextBit;
    if s == [] {
      assert s + t == t;
    } else {
      assert (s + t)[1..] == s[1..] + t;
      FeedAppend(NextBit(c, s[0]), s[1..], t);
    }
  }

  predicate High(c: bv16) {
    c & 0x8000 != 0
  }

  function Shl(c: bv16): bv16 {
    c << 1
  }

  function Low(c: bv16): bv16 {
    c & 0x7FFF
  }

  lemma HighLow(w: bv16)
    ensures Xor(Top(High(w)), Low(w)) == w
  {
    if w & 0x8000 == 0 {
      TopClear(w);
    } else {
      TopSet(w);
    }
  }

  lemma TopClear(w: bv16)
    requires w & 0x8000 == 0
    ensures Xor(0, Low(w)) == w
  {}

  lemma TopSet(w: bv16)
    requires w & 0x8000 != 0
    ensures Xor(0x8000, Low(w)) == w
  {}

  lemma ShiftLow(w: bv16)
    ensures Shift(Low(w)) == Shl(w)
  {
    assert Low(w) & 0x8000 == 0;
  }

  lemma XorAssoc(a: bv16, b: bv16, c: bv16)
    ensures Xor(a, Xor(b, c)) == Xor(Xor(a, b), c)
  {}

  /** Bits that are waiting to be fed can stand in the register already. */
  lemma Waiting(c: bv16, w: bv16)
    ensures Shift(Xor(c, w)) == Xor(NextBit(c, High(w)), Shl(w))
  {
    hide Shift, High, Top, Low, Xor, Shl;
    HighLow(w);
    ShiftLow(w);
    XorAssoc(c, Top(High(w)), Low(w));
    ShiftXor(Xor(c, Top(High(w))), Low(w));
  }

  function FeedFour(c: bv16, w: bv16): bv16 {
    NextBit(NextBit(NextBit(NextBit(c, High(w)), High(Shl(w))), High(Shl(Shl(w)))), High(Shl(Shl(Shl(w)))))
  }

  function Shl4(w: bv16): bv16 {
    Shl(Shl(Shl(Shl(w))))
  }

  lemma Waiting4(c: bv16, w: bv16)
    ensures Shift(Shift(Shift(Shift(Xor(c, w))))) == Xor(FeedFour(c, w), Shl4(w))
  {
    hide Shift, High, NextBit, Xor, Shl;
    Waiting(c, w);
    var c1 := NextBit(c, High(w));
    Waiting(c1, Shl(w));
    var c2 := NextBit(c1, High(Shl(w)));
    Waiting(c2, Shl(Shl(w)));
    Waiting(NextBit(c2, High(Shl(Shl(w)))), Shl(Shl(Shl(w))));
  }

  function HighFour(w: bv16): seq<bool> {
    [High(w), High(Shl(w)), High(Shl(Shl(w))), High(Shl(Shl(Shl(w))))]
  }

  lemma BitsWaiting(b: bv8)
    ensures BitsOf(b) == HighFour(HighByte(b)) + HighFour(Shl4(HighByte(b)))
    ensures Shl4(Shl4(HighByte(b))) == 0
  {}

  lemma FeedIsFour(c: bv16, w: bv16)
    ensures Feed(c, HighFour(w)) == FeedFour(c, w)
  {
    hide NextBit, High, Shl;
    var p, q, r, s := High(w), High(Shl(w)), High(Shl(Shl(w))), High(Shl(Shl(Shl(w))));
    assert [p, q, r, s][1..] == [q, r, s] && [q, r, s][1..] == [r, s] && [r, s][1..] == [s] && [s][1..] == [];
    var c2 := NextBit(NextBit(c, p), q);
    assert Feed(NextBit(c2, r), [s]) == NextBit(NextBit(c2, r), s);
    assert Feed(c2, [r, s]) == Feed(NextBit(c2, r), [s]);
    assert Feed(NextBit(c, p), [q, r, s]) == Feed(NextBit(NextBit(c, p), q), [r, s]);
    assert Feed(c, [p, q, r, s]) == Feed(NextBit(c, p), [q, r, s]);
  }

  /** A byte at once is its eight bits, one after the other. */
  lemma ByteIsBits(c: bv16, b: bv8)
    ensures NextByte(c, b) == Feed(c, BitsOf(b))
  {
    hide Shift, High, NextBit, BitsOf, Xor, HighByte, FeedFour, HighFour, Shl4;
    var w := HighByte(b);
    BitsWaiting(b);
    Waiting4(c, w);
    var m := FeedFour(c, w);
    Waiting4(m, Shl4(w));
    FeedIsFour(c, w);
    FeedIsFour(m, Shl4(w));
    FeedAppend(c, HighFour(w), HighFour(Shl4(w)));
    XorZero(FeedFour(m, Shl4(w)));
  }

  lemma XorZero(c: bv16)
    ensures Xor(c, 0) == c
  {}

  lemma {:induction false} CrcIsBits(c: bv16, s: seq<bv8>)
    ensures CrcFrom(c, s) == Feed(c, Bits(s))
    decreases |s|
  {
    hide NextByte, BitsOf, NextBit;
    if s != [] {
      ByteIsBits(c, s[0]);
      FeedAppend(c, BitsOf(s[0]), Bits(s[1..]));
      CrcIsBits(NextByte(c, s[0]), s[1..]);
    }
  }

  // ----- Errors.

  /** The bits in which two messages differ. */
  function Difference(x: seq<bool>, y: seq<bool>): (d: seq<bool>)
    requires |x| == |y|
    ensures |d| == |x|
  {
    seq(|x|, i requires 0 <= i < |x| => x[i] != y[i])
  }

  lemma NextBitXor(a: bv16, b: bv16, p: bool, q: bool)
    ensures Xor(NextBit(a, p), NextBit(b, q)) == NextBit(Xor(a, b), p != q)
  {
    hide Shift, Xor, Top;
    ShiftXor(Xor(a, Top(p)), Xor(b, Top(q)));
    TopXor(p, q);
    Xor4(a, Top(p), b, Top(q));
  }

  lemma TopXor(p: bool, q: bool)
    ensures Xor(Top(p), Top(q)) == Top(p != q)
  {}

  lemma Xor4(p: bv16, q: bv16, r: bv16, s: bv16)
    ensures Xor(Xor(p, q), Xor(r, s)) == Xor(Xor(p, r), Xor(q, s))
  {
    hide Xor;
    XorAssoc(p, q, Xor(r, s));
    XorAssoc(q, r, s);
    XorComm(q, r);
    XorAssoc(r, q, s);
    XorAssoc(p, r, Xor(q, s));
  }

  lemma XorComm(a: bv16, b: bv16)
    ensures Xor(a, b) == Xor(b, a)
  {}

  /** Linearity: the difference of the two sums is the sum of the difference. */
  lemma {:induction false} FeedXor(a: bv16, b: bv16, x: seq<bool>, y: seq<bool>)
    requires |x| == |y|
    ensures Xor(Feed(a, x), Feed(b, y)) == Feed(Xor(a, b), Difference(x, y))
    decreases |x|
  {
    hide NextBit, Xor;
    if x != [] {
      assert Difference(x, y)[1..] == Difference(x[1..], y[1..]);
      NextBitXor(a, b, x[0], y[0]);
      FeedXor(NextBit(a, x[0]), NextBit(b, y[0]), x[1..], y[1..]);
    }
  }

  predicate Quiet(d: seq<bool>) {
    forall i :: 0 <= i < |d| ==> !d[i]
  }

  lemma NextBitQuiet(c: bv16)
    ensures NextBit(c, false) == 0 <==> c == 0
  {
    hide Shift, Xor;
    ShiftZero(c);
    XorZero(c);
  }

  lemma {:induction false} FeedQuiet(c: bv16, d: seq<bool>)
    requires Quiet(d)
    ensures Feed(c, d) == 0 <==> c == 0
    decreases |d|
  {
    hide NextBit;
    if d != [] {
      NextBitQuiet(c);
      FeedQuiet(NextBit(c, false), d[1..]);
    }
  }

  /** The window packed into a register, its first bit on top. */
  function Pack(d: seq<bool>): bv16 {
    if d == [] then 0 else Xor(Top(d[0]), Shr(Pack(d[1..])))
  }

  function Shr(c: bv16): bv16 {
    c >> 1
  }

  /** The bits of a register that a window of `n` bits leaves free. */
  function Free(n: nat): bv16 {
    if n == 0 then 0xFFFF else Shr(Free(n - 1))
  }

  lemma {:induction false} PackFree(d: seq<bool>)
    ensures Clear(Pack(d), Free(|d|))
  {
    hide Clear, Xor, Top, Shr;
    if d == [] {
      NothingSet();
    }
    if d != [] {
      PackFree(d[1..]);
      FreeStep(d[0], Pack(d[1..]), Free(|d| - 1));
    }
  }

  predicate Clear(c: bv16, f: bv16) {
    c & f == 0
  }

  lemma NothingSet()
    ensures Clear(0, 0xFFFF)
  {}

  lemma FreeStep(b: bool, c: bv16, f: bv16)
    requires Clear(c, f)
    ensures Clear(Xor(Top(b), Shr(c)), Shr(f))
  {
    if b {
      FreeStepTop(c, f);
    } else {
      XorZeroLeft(Shr(c));
    }
  }

  lemma FreeStepTop(c: bv16, f: bv16)
    requires c & f == 0
    ensures (0x8000 ^ (c >> 1)) & (f >> 1) == 0
  {}

  lemma XorZeroLeft(c: bv16)
    ensures Xor(0, c) == c
  {}

  lemma {:induction false} FreeOdd(n: nat)
    requires n <= 15
    ensures Free(n) & 1 == 1
  {
    FreeShifted(n);
  }

  lemma {:induction false} FreeShifted(n: nat)
    requires n <= 15
    ensures Free(n) == 0xFFFF >> n
  {
    if n > 0 {
      FreeShifted(n - 1);
    }
  }

  lemma ShiftBack(c: bv16)
    requires Clear(c, 1)
    ensures Shift(Shr(c)) == c
  {
    assert (c >> 1) & 0x8000 == 0;
  }

  lemma ClearOdd(c: bv16, f: bv16)
    requires Clear(c, f) && f & 1 == 1
    ensures Clear(c, 1)
  {}

  /** Feeding at most 16 bits is shifting their pack as many times. */
  lemma {:induction false} FeedIsPack(c: bv16, d: seq<bool>)
    requires |d| <= 16
    ensures Feed(c, d) == ShiftTimes(Xor(c, Pack(d)), |d|)
    decreases |d|
  {
    hide Shift, Xor, Top, Shr, Free, Clear;
    if d == [] {
      XorZero(c);
    } else {
      var rest := Pack(d[1..]);
      PackFree(d[1..]);
      FreeOdd(|d| - 1);
      ClearOdd(rest, Free(|d| - 1));
      ShiftBack(rest);
      FeedIsPack(NextBit(c, d[0]), d[1..]);
      ShiftXor(Xor(c, Top(d[0])), Shr(rest));
      XorAssoc(c, Top(d[0]), Shr(rest));
      ShiftFirst(Xor(c, Pack(d)), |d| - 1);
    }
  }

  lemma {:induction false} ShiftFirst(c: bv16, n: nat)
    ensures ShiftTimes(c, n + 1) == ShiftTimes(Shift(c), n)
  {
    hide Shift;
    if n > 0 {
      ShiftFirst(c, n - 1);
    }
  }

  lemma {:induction false} ShiftTimesZero(c: bv16, n: nat)
    ensures ShiftTimes(c, n) == 0 <==> c == 0
  {
    hide Shift;
    if n > 0 {
      ShiftTimesZero(c, n - 1);
      ShiftZero(ShiftTimes(c, n - 1));
    }
  }

  /** A window of at most 16 bits packs to zero only if it is quiet. */
  lemma {:induction false} PackZero(d: seq<bool>)
    requires |d| <= 16
    ensures Pack(d) == 0 <==> Quiet(d)
  {
    hide Xor, Top, Shr, Free, Clear;
    if d != [] {
      var rest := Pack(d[1..]);
      PackFree(d[1..]);
      FreeOdd(|d| - 1);
      ClearOdd(rest, Free(|d| - 1));
      TopOrRest(d[0], rest);
      PackZero(d[1..]);
      assert Quiet(d) <==> !d[0] && Quiet(d[1..]) by {
        if !d[0] && Quiet(d[1..]) {
          forall i | 0 <= i < |d|
            ensures !d[i]
          {
            assert i > 0 ==> d[i] == d[1..][i - 1];
          }
        }
      }
    }
  }

  lemma TopOrRest(b: bool, c: bv16)
    requires Clear(c, 1)
    ensures Xor(Top(b), Shr(c)) == 0 <==> !b && c == 0
  {}

  /** A burst: the messages differ, and only within 16 consecutive bits. */
  predicate Burst(x: seq<bool>, y: seq<bool>, from: nat) {
    && |x| == |y| && x != y
    && forall i :: 0 <= i < |x| && (i < from || i >= from + 16) ==> x[i] == y[i]
  }

  lemma BurstFound(x: seq<bool>, y: seq<bool>, from: nat)
    requires Burst(x, y, from)
    ensures Feed(0, x) != Feed(0, y)
  {
    hide NextBit, Xor;
    var d := Difference(x, y);
    FeedXor(0, 0, x, y);
    XorZero(0);
    var start := if from <= |d| then from else |d|;
    var end := if from + 16 <= |d| then from + 16 else |d|;
    var window := d[start..end];
    assert d == d[..start] + window + d[end..];
    FeedQuiet(0, d[..start]);
    WindowNotQuiet(x, y, from);
    FeedWindow(window);
    FeedQuiet(Feed(0, window), d[end..]);
    FeedAppend(0, d[..start], window);
    FeedAppend(0, d[..start] + window, d[end..]);
    XorSame(Feed(0, x), Feed(0, y));
  }

  lemma FeedWindow(d: seq<bool>)
    requires |d| <= 16 && !Quiet(d)
    ensures Feed(0, d) != 0
  {
    hide NextBit, Xor;
    FeedIsPack(0, d);
    XorZeroLeft(Pack(d));
    PackZero(d);
    ShiftTimesZero(Pack(d), |d|);
  }

  lemma WindowNotQuiet(x: seq<bool>, y: seq<bool>, from: nat)
    requires Burst(x, y, from)
    ensures var d := Difference(x, y);
      var start := if from <= |d| then from else |d|;
      var end := if from + 16 <= |d| then from + 16 else |d|;
      Quiet(d[..start]) && Quiet(d[end..]) && !Quiet(d[start..end])
  {
    var i :| 0 <= i < |x| && x[i] != y[i];
    var d := Difference(x, y);
    assert from <= i < from + 16 && d[i];
    var end := if from + 16 <= |d| then from + 16 else |d|;
    assert d[from..end][i - from];
    forall j | 0 <= j < |d[end..]|
      ensures !d[end..][j]
    {
      assert x[end + j] == y[end + j];
    }
  }

  lemma XorSame(a: bv16, b: bv16)
    ensures Xor(a, b) == 0 <==> a == b
  {}

  /** Messages of any one length that differ within 16 consecutive bits have different sums. */
  lemma BurstDetected(x: seq<bv8>, y: seq<bv8>, from: nat)
    requires |x| == |y| && Burst(Bits(x), Bits(y), from)
    ensures Crc16(x) != Crc16(y)
  {
    CrcIsBits(0, x);
    CrcIsBits(0, y);
    BurstFound(Bits(x), Bits(y), from);
  }

  // ----- Parity.

  /** Whether an odd number of bits is set. */
  predicate Parity(c: bv16) {
    Parity4(c & 0x8000 != 0, c & 0x4000 != 0, c & 0x2000 != 0, c & 0x1000 != 0) !=
    (Parity4(c & 0x800 != 0, c & 0x400 != 0, c & 0x200 != 0, c & 0x100 != 0) !=
     (Parity4(c & 0x80 != 0, c & 0x40 != 0, c & 0x20 != 0, c & 0x10 != 0) !=
      Parity4(c & 8 != 0, c & 4 != 0, c & 2 != 0, c & 1 != 0)))
  }

  predicate Parity4(p: bool, q: bool, r: bool, s: bool) {
    (p != q) != (r != s)
  }

  function Odd(d: seq<bool>): bool {
    if d == [] then false else d[0] != Odd(d[1..])
  }

  lemma ShiftParity(c: bv16)
    ensures Parity(Shift(c)) == Parity(c)
  {
    if c & 0x8000 == 0 {
      ShiftParityLow(c);
    } else {
      ShiftParityHigh(c);
    }
  }

  lemma ShiftParityLow(c: bv16)
    requires c & 0x8000 == 0
    ensures Parity(c << 1) == Parity(c)
  {}

  lemma ShiftParityHigh(c: bv16)
    requires c & 0x8000 != 0
    ensures Parity((c << 1) ^ 0x1021) == Parity(c)
  {}

  lemma NextBitParity(c: bv16, b: bool)
    ensures Parity(NextBit(c, b)) == (Parity(c) != b)
  {
    hide Shift, Parity, Xor;
    ShiftParity(Xor(c, Top(b)));
    if b {
      TopParity(c);
    } else {
      XorZero(c);
    }
  }

  lemma TopParity(c: bv16)
    ensures Parity(Xor(c, 0x8000)) == !Parity(c)
  {}

  lemma {:induction false} FeedParity(c: bv16, d: seq<bool>)
    ensures Parity(Feed(c, d)) == (Parity(c) != Odd(d))
    decreases |d|
  {
    hide NextBit, Parity;
    if d != [] {
      NextBitParity(c, d[0]);
      FeedParity(NextBit(c, d[0]), d[1..]);
    }
  }

  /** Messages of one length that differ in an odd number of bits, wherever they are, have
      different sums. */
  lemma OddDetected(x: seq<bv8>, y: seq<bv8>)
    requires |x| == |y| && Odd(Difference(Bits(x), Bits(y)))
    ensures Crc16(x) != Crc16(y)
  {
    hide Parity, Xor;
    CrcIsBits(0, x);
    CrcIsBits(0, y);
    var a, b := Feed(0, Bits(x)), Feed(0, Bits(y));
    FeedXor(0, 0, Bits(x), Bits(y));
    XorZero(0);
    FeedParity(0, Difference(Bits(x), Bits(y)));
    XorSame(a, b);
    ZeroParity();
  }

  lemma ZeroParity()
    ensures !Parity(0)
  {}
}
