/** Which errors in a whole frame its receivers find. The checksum goes behind the bytes it covers
    with its low byte first, which is not the order of the polynomial: a few short bursts across the
    border are not found. */
module FrameErrors {
  import opened Crc
  import opened Cmac

  // ----- The sum of two bytes, column by column.

  function Column(c: bv16, bit: bv16, sum: bv16): bv16 {
    if c & bit != 0 then sum else 0
  }

  /** What one byte comes to in eight turns of the loop, and in sixteen. */
  function Turned8(c: bv16): bv16 {
    Column(c, 0x01, 0x1021) ^ Column(c, 0x02, 0x2042) ^ Column(c, 0x04, 0x4084) ^ Column(c, 0x08, 0x8108) ^
    Column(c, 0x10, 0x1231) ^ Column(c, 0x20, 0x2462) ^ Column(c, 0x40, 0x48C4) ^ Column(c, 0x80, 0x9188)
  }

  function Turned16(c: bv16): bv16 {
    Column(c, 0x01, 0x3331) ^ Column(c, 0x02, 0x6662) ^ Column(c, 0x04, 0xCCC4) ^ Column(c, 0x08, 0x89A9) ^
    Column(c, 0x10, 0x0373) ^ Column(c, 0x20, 0x06E6) ^ Column(c, 0x40, 0x0DCC) ^ Column(c, 0x80, 0x1B98)
  }

  predicate IsByte(c: bv16) {
    c & 0xFF00 == 0
  }

  lemma EightTurns(c: bv16)
    requires IsByte(c)
    ensures Shift8(c << 8) == Turned8(c) && Shift8(c) == c << 8
  {}

  lemma SixteenTurns(c: bv16)
    requires IsByte(c)
    ensures Shift8(Turned8(c)) == Turned16(c)
  {}

  lemma Shift8Xor(a: bv16, b: bv16)
    ensures Shift8(Xor(a, b)) == Xor(Shift8(a), Shift8(b))
  {
    hide Shift, Xor;
    Shift4Xor(a, b);
    Shift4Xor(Shift4(a), Shift4(b));
  }

  function Shift4(c: bv16): bv16 {
    Shift(Shift(Shift(Shift(c))))
  }

  lemma Shift4Xor(a: bv16, b: bv16)
    ensures Shift4(Xor(a, b)) == Xor(Shift4(a), Shift4(b))
  {
    hide Shift, Xor;
    ShiftXor(a, b);
    ShiftXor(Shift(a), Shift(b));
    ShiftXor(Shift(Shift(a)), Shift(Shift(b)));
    ShiftXor(Shift(Shift(Shift(a))), Shift(Shift(Shift(b))));
  }

  // ----- What the errors in the last two bytes covered do to the sum.

  function Error(a: bv8, b: bv8): bv8 {
    a ^ b
  }

  function Word(b: bv8): bv16 {
    b as bv16
  }

  lemma HighError(a: bv8, b: bv8)
    ensures Xor(HighByte(a), HighByte(b)) == HighByte(Error(a, b)) == Word(Error(a, b)) << 8
    ensures IsByte(Word(Error(a, b)))
  {}

  lemma NextByteXor(c: bv16, d: bv16, a: bv8, b: bv8)
    ensures Xor(NextByte(c, a), NextByte(d, b)) == Xor(Shift8(Xor(c, d)), Turned8(Word(Error(a, b))))
  {
    hide Shift8, Xor, HighByte, Turned8, Error, Word, IsByte;
    var e := HighByte(Error(a, b));
    HighError(a, b);
    Shift8Xor(Xor(c, HighByte(a)), Xor(d, HighByte(b)));
    Xor4(c, HighByte(a), d, HighByte(b));
    Shift8Xor(Xor(c, d), e);
    EightTurns(Word(Error(a, b)));
  }

  lemma LastTwo(c: bv16, a: bv8, b: bv8, x: bv8, y: bv8)
    ensures Xor(NextByte(NextByte(c, a), b), NextByte(NextByte(c, x), y)) ==
            Xor(Turned16(Word(Error(a, x))), Turned8(Word(Error(b, y))))
  {
    hide Shift8, Xor, NextByte, Turned8, Turned16, Error, Word, IsByte, HighByte;
    NextByteXor(c, c, a, x);
    NextByteXor(NextByte(c, a), NextByte(c, x), b, y);
    XorSame(c, c);
    NothingTurned();
    XorComm(0, Turned8(Word(Error(a, x))));
    XorZero(Turned8(Word(Error(a, x))));
    HighError(a, x);
    SixteenTurns(Word(Error(a, x)));
  }

  lemma NothingTurned()
    ensures Shift8(0) == 0
  {}

  // ----- The bursts that are not found.

  /** Two bytes, the first one on top. */
  function Above(a: bv8, b: bv8): bv16 {
    ((a as bv16) << 8) | (b as bv16)
  }

  /** What errors `u` in the last two bytes covered do to the sum, and what errors `l` in the two bytes
      behind them do to the checksum that is read there. */
  function Residue(u: bv16): bv16 {
    Turned16(u >> 8) ^ Turned8(u & 0xFF)
  }

  function Read(l: bv16): bv16 {
    (l << 8) | (l >> 8)
  }

  /** The twelve bursts across the border that leave sum and checksum in agreement. */
  predicate Blind(u: bv16, l: bv16) {
    || (u == 0x0001 && l == 0x2110) || (u == 0x0002 && l == 0x4220) || (u == 0x0003 && l == 0x6330)
    || (u == 0x0004 && l == 0x8440) || (u == 0x0005 && l == 0xA550) || (u == 0x0006 && l == 0xC660)
    || (u == 0x0007 && l == 0xE770) || (u == 0x0089 && l == 0xA100) || (u == 0x0235 && l == 0x9400)
    || (u == 0x08C5 && l == 0x4000) || (u == 0x118A && l == 0x8000) || (u == 0x194F && l == 0xC000)
  }

  /** Bit `i` is right, the highest counting as 0. */
  predicate Right(u: bv16, i: nat)
    requires i < 16
  {
    if i == 0 then u & 0x8000 == 0
    else if i == 1 then u & 0x4000 == 0
    else if i == 2 then u & 0x2000 == 0
    else if i == 3 then u & 0x1000 == 0
    else if i == 4 then u & 0x0800 == 0
    else if i == 5 then u & 0x0400 == 0
    else if i == 6 then u & 0x0200 == 0
    else if i == 7 then u & 0x0100 == 0
    else if i == 8 then u & 0x0080 == 0
    else if i == 9 then u & 0x0040 == 0
    else if i == 10 then u & 0x0020 == 0
    else if i == 11 then u & 0x0010 == 0
    else if i == 12 then u & 0x0008 == 0
    else if i == 13 then u & 0x0004 == 0
    else if i == 14 then u & 0x0002 == 0
    else u & 0x0001 == 0
  }

  /** Only bits from `r` on are wrong in `u`, and only bits before `r` in `l`. */
  predicate Within(u: bv16, l: bv16, r: nat) {
    && (forall i :: 0 <= i < 16 && i < r ==> Right(u, i))
    && (forall i :: 0 <= i < 16 && i >= r ==> Right(l, i))
  }

  predicate UpperWithin(u: bv16, r: nat) {
    && (0 < r ==> u & 0x8000 == 0)
    && (1 < r ==> u & 0x4000 == 0)
    && (2 < r ==> u & 0x2000 == 0)
    && (3 < r ==> u & 0x1000 == 0)
    && (4 < r ==> u & 0x0800 == 0)
    && (5 < r ==> u & 0x0400 == 0)
    && (6 < r ==> u & 0x0200 == 0)
    && (7 < r ==> u & 0x0100 == 0)
    && (8 < r ==> u & 0x0080 == 0)
    && (9 < r ==> u & 0x0040 == 0)
    && (10 < r ==> u & 0x0020 == 0)
    && (11 < r ==> u & 0x0010 == 0)
    && (12 < r ==> u & 0x0008 == 0)
    && (13 < r ==> u & 0x0004 == 0)
    && (14 < r ==> u & 0x0002 == 0)
    && (15 < r ==> u & 0x0001 == 0)
  }

  predicate LowerWithin(l: bv16, r: nat) {
    && (0 >= r ==> l & 0x8000 == 0)
    && (1 >= r ==> l & 0x4000 == 0)
    && (2 >= r ==> l & 0x2000 == 0)
    && (3 >= r ==> l & 0x1000 == 0)
    && (4 >= r ==> l & 0x0800 == 0)
    && (5 >= r ==> l & 0x0400 == 0)
    && (6 >= r ==> l & 0x0200 == 0)
    && (7 >= r ==> l & 0x0100 == 0)
    && (8 >= r ==> l & 0x0080 == 0)
    && (9 >= r ==> l & 0x0040 == 0)
    && (10 >= r ==> l & 0x0020 == 0)
    && (11 >= r ==> l & 0x0010 == 0)
    && (12 >= r ==> l & 0x0008 == 0)
    && (13 >= r ==> l & 0x0004 == 0)
    && (14 >= r ==> l & 0x0002 == 0)
    && (15 >= r ==> l & 0x0001 == 0)
  }

  lemma WithinAt(u: bv16, l: bv16, r: nat, i: nat)
    requires Within(u, l, r) && i < 16
    ensures (i < r ==> Right(u, i)) && (i >= r ==> Right(l, i))
  {}

  lemma WithinAre(u: bv16, l: bv16, r: nat)
    requires Within(u, l, r)
    ensures UpperWithin(u, r) && LowerWithin(l, r)
  {
    hide Within;
    WithinAt(u, l, r, 0); WithinAt(u, l, r, 1); WithinAt(u, l, r, 2); WithinAt(u, l, r, 3);
    WithinAt(u, l, r, 4); WithinAt(u, l, r, 5); WithinAt(u, l, r, 6); WithinAt(u, l, r, 7);
    WithinAt(u, l, r, 8); WithinAt(u, l, r, 9); WithinAt(u, l, r, 10); WithinAt(u, l, r, 11);
    WithinAt(u, l, r, 12); WithinAt(u, l, r, 13); WithinAt(u, l, r, 14); WithinAt(u, l, r, 15);
  }

  lemma BlindBits(u: bv16, l: bv16, r: nat)
    requires UpperWithin(u, r) && LowerWithin(l, r) && 1 <= r && u != 0
    ensures Residue(u) == Read(l) <==> Blind(u, l)
  {}

  lemma BlindIff(u: bv16, l: bv16, r: nat)
    requires Within(u, l, r) && 1 <= r && u != 0
    ensures Residue(u) == Read(l) <==> Blind(u, l)
  {
    hide Within, UpperWithin, LowerWithin, Residue, Read, Blind;
    WithinAre(u, l, r);
    BlindBits(u, l, r);
  }

  // ----- From bits to bytes.

  /** The errors in two bytes, and where they are. */
  function PairBits(a: bv8, b: bv8): (s: seq<bool>)
    ensures |s| == 16
  {
    BitsOf(a) + BitsOf(b)
  }

  function Mask(i: nat): bv8
    requires i < 8
  {
    if i == 0 then 128
    else if i == 1 then 64
    else if i == 2 then 32
    else if i == 3 then 16
    else if i == 4 then 8
    else if i == 5 then 4
    else if i == 6 then 2
    else 1
  }

  predicate ByteRight(e: bv8, i: nat)
    requires i < 8
  {
    e & Mask(i) == 0
  }

  lemma ByteRightBit(b: bv8, i: nat)
    requires i < 8
    ensures ByteRight(b, i) <==> !BitsOf(b)[i]
  {}

  lemma MaskError(a: bv8, b: bv8, m: bv8)
    requires m & (m - 1) == 0
    ensures Error(a, b) & m == 0 <==> (a & m == 0 <==> b & m == 0)
  {}

  lemma OneBit(i: nat)
    requires i < 8
    ensures Mask(i) & (Mask(i) - 1) == 0
  {}

  lemma ByteRightError(a: bv8, b: bv8, i: nat)
    requires i < 8
    ensures ByteRight(Error(a, b), i) <==> (ByteRight(a, i) <==> ByteRight(b, i))
  {
    hide Mask, Error;
    OneBit(i);
    MaskError(a, b, Mask(i));
  }

  lemma ByteRightIff(a: bv8, b: bv8, i: nat)
    requires i < 8
    ensures ByteRight(Error(a, b), i) <==> BitsOf(a)[i] == BitsOf(b)[i]
  {
    hide ByteRight, Error, BitsOf;
    ByteRightBit(a, i);
    ByteRightBit(b, i);
    ByteRightError(a, b, i);
  }

  lemma AboveRight(a: bv8, b: bv8, i: nat)
    requires i < 16
    ensures Right(Above(a, b), i) <==> if i < 8 then ByteRight(a, i) else ByteRight(b, i - 8)
  {}

  /** A bit is right where the two pairs of bytes agree. */
  lemma RightIff(a: bv8, b: bv8, x: bv8, y: bv8, i: nat)
    requires i < 16
    ensures Right(Above(Error(a, x), Error(b, y)), i) <==> PairBits(a, b)[i] == PairBits(x, y)[i]
  {
    hide Error, Above, Right, ByteRight, BitsOf;
    AboveRight(Error(a, x), Error(b, y), i);
    if i < 8 {
      ByteRightIff(a, x, i);
    } else {
      ByteRightIff(b, y, i - 8);
    }
  }

  lemma {:induction false} BitAt(s: seq<bv8>, k: nat, j: nat)
    requires k < |s| && j < 8
    ensures Bits(s)[8 * k + j] == BitsOf(s[k])[j]
    decreases k
  {
    hide BitsOf;
    if k > 0 {
      BitAt(s[1..], k - 1, j);
    }
  }

  lemma PairAt(s: seq<bv8>, k: nat, i: nat)
    requires k + 1 < |s| && i < 16
    ensures Bits(s)[8 * k + i] == PairBits(s[k], s[k + 1])[i]
  {
    hide BitsOf, Bits;
    if i < 8 {
      BitAt(s, k, i);
    } else {
      BitAt(s, k + 1, i - 8);
    }
  }

  lemma SameByte(a: bv8, b: bv8)
    requires BitsOf(a) == BitsOf(b)
    ensures a == b
  {
    var p, q := BitsOf(a), BitsOf(b);
    assert p[0] == q[0] && p[1] == q[1] && p[2] == q[2] && p[3] == q[3];
    assert p[4] == q[4] && p[5] == q[5] && p[6] == q[6] && p[7] == q[7];
  }

  /** Bytes whose bits agree agree. */
  lemma SameBytes(f: seq<bv8>, g: seq<bv8>, from: nat, to: nat)
    requires |f| == |g| && from <= to <= |f|
    requires forall i :: 8 * from <= i < 8 * to ==> Bits(f)[i] == Bits(g)[i]
    ensures f[from..to] == g[from..to]
  {
    hide BitsOf, Bits;
    forall k | from <= k < to
      ensures f[k] == g[k]
    {
      forall j | 0 <= j < 8
        ensures BitsOf(f[k])[j] == BitsOf(g[k])[j]
      {
        BitAt(f, k, j);
        BitAt(g, k, j);
      }
      assert BitsOf(f[k]) == BitsOf(g[k]);
      SameByte(f[k], g[k]);
    }
  }

  lemma {:induction false} BitsAppend(s: seq<bv8>, t: seq<bv8>)
    ensures Bits(s + t) == Bits(s) + Bits(t)
    decreases |s|
  {
    hide BitsOf;
    if s == [] {
      assert s + t == t;
    } else {
      assert (s + t)[1..] == s[1..] + t;
      BitsAppend(s[1..], t);
    }
  }

  // ----- Frames.

  /** The errors in the last two bytes covered, and in the checksum behind them. */
  function UpperError(f: seq<bv8>, g: seq<bv8>): bv16
    requires 4 <= |f| == |g|
  {
    var n := |f|;
    Above(Error(f[n - 4], g[n - 4]), Error(f[n - 3], g[n - 3]))
  }

  function LowerError(f: seq<bv8>, g: seq<bv8>): bv16
    requires 4 <= |f| == |g|
  {
    var n := |f|;
    Above(Error(f[n - 2], g[n - 2]), Error(f[n - 1], g[n - 1]))
  }

  /** The checksum of a frame is right. */
  predicate Sound(f: seq<bv8>)
    requires 2 <= |f|
  {
    Join(f[|f| - 2], f[|f| - 1]) == Crc16(f[..|f| - 2])
  }

  lemma WindowErrors(f: seq<bv8>, g: seq<bv8>, from: nat)
    requires 4 <= |f| == |g| && Burst(Bits(f), Bits(g), from) && 8 * (|f| - 4) <= from
    ensures Within(UpperError(f, g), LowerError(f, g), from - 8 * (|f| - 4))
  {
    hide Bits, Above, Error, Right, PairBits;
    var k := |f| - 4;
    forall i | 0 <= i < 16
      ensures i < from - 8 * k ==> Right(UpperError(f, g), i)
      ensures i >= from - 8 * k ==> Right(LowerError(f, g), i)
    {
      PairAt(f, k, i);
      PairAt(g, k, i);
      PairAt(f, k + 2, i);
      PairAt(g, k + 2, i);
      RightIff(f[k], f[k + 1], g[k], g[k + 1], i);
      RightIff(f[k + 2], f[k + 3], g[k + 2], g[k + 3], i);
    }
  }

  lemma TwoMore(s: seq<bv8>, k: nat)
    requires k + 2 <= |s|
    ensures Crc16(s[..k + 2]) == NextByte(NextByte(Crc16(s[..k]), s[k]), s[k + 1])
  {
    hide NextByte;
    CrcFromLast(0, s[..k], s[k]);
    CrcFromLast(0, s[..k + 1], s[k + 1]);
    assert s[..k] + [s[k]] == s[..k + 1] && s[..k + 1] + [s[k + 1]] == s[..k + 2];
  }

  lemma JoinErrors(a: bv8, b: bv8, x: bv8, y: bv8)
    ensures Xor(Join(a, b), Join(x, y)) == Read(Above(Error(a, x), Error(b, y)))
  {}

  lemma Parts(a: bv8, b: bv8)
    ensures Above(a, b) >> 8 == Word(a) && Above(a, b) & 0xFF == Word(b)
  {}

  lemma XorCancels(a: bv16, b: bv16, c: bv16, d: bv16)
    requires a == c
    ensures b == d <==> Xor(a, b) == Xor(c, d)
  {}

  lemma ResidueIs(a: bv8, b: bv8)
    ensures Residue(Above(a, b)) == Xor(Turned16(Word(a)), Turned8(Word(b)))
  {
    hide Turned8, Turned16, Above, Word;
    Parts(a, b);
  }

  /** A frame that is wrong only in its last four bytes, in terms of the errors. */
  lemma SoundIff(f: seq<bv8>, g: seq<bv8>)
    requires 4 <= |f| == |g| && f[..|f| - 4] == g[..|f| - 4] && Sound(f)
    ensures Sound(g) <==> Residue(UpperError(f, g)) == Read(LowerError(f, g))
  {
    hide Crc16, NextByte, Join, Xor, Turned8, Turned16, Above, Error, Word, Residue, Read;
    var k := |f| - 4;
    TwoMore(f, k);
    TwoMore(g, k);
    LastTwo(Crc16(f[..k]), f[k], f[k + 1], g[k], g[k + 1]);
    ResidueIs(Error(f[k], g[k]), Error(f[k + 1], g[k + 1]));
    JoinErrors(f[k + 2], f[k + 3], g[k + 2], g[k + 3]);
    XorCancels(Crc16(f[..k + 2]), Crc16(g[..k + 2]), Join(f[k + 2], f[k + 3]), Join(g[k + 2], g[k + 3]));
  }

  lemma NoError(a: bv8, b: bv8)
    ensures Error(a, b) == 0 <==> a == b
  {}

  lemma NothingAbove(a: bv8, b: bv8)
    ensures Above(a, b) == 0 <==> a == 0 && b == 0
  {}

  lemma LowerZero(f: seq<bv8>, g: seq<bv8>)
    requires 4 <= |f| == |g|
    ensures LowerError(f, g) == 0 <==> f[|f| - 2..] == g[|f| - 2..]
  {
    hide Above, Error;
    var n := |f|;
    NoError(f[n - 2], g[n - 2]);
    NoError(f[n - 1], g[n - 1]);
    NothingAbove(Error(f[n - 2], g[n - 2]), Error(f[n - 1], g[n - 1]));
    assert f[n - 2..] == [f[n - 2], f[n - 1]] && g[n - 2..] == [g[n - 2], g[n - 1]];
  }

  lemma ResidueZero(l: bv16)
    requires l != 0
    ensures Residue(0) != Read(l) && !Blind(0, l)
  {}

  lemma BlindLower(u: bv16, l: bv16)
    requires Blind(u, l)
    ensures l != 0
  {}

  /** A burst that reaches the checksum leaves alone what is in front of the last four bytes. */
  lemma AcrossBorder(f: seq<bv8>, g: seq<bv8>, from: nat)
    requires 4 <= |f| == |g| && Burst(Bits(f), Bits(g), from) && f[|f| - 2..] != g[|f| - 2..]
    ensures 8 * (|f| - 4) < from && f[..|f| - 4] == g[..|f| - 4]
  {
    hide Bits;
    var n := |f|;
    if from <= 8 * (n - 4) {
      SameBytes(f, g, n - 2, n);
    } else {
      SameBytes(f, g, 0, n - 4);
    }
  }

  lemma BurstInside(a: seq<bool>, b: seq<bool>, tail: seq<bool>, from: nat)
    requires |a| == |b| && Burst(a + tail, b + tail, from)
    ensures Burst(a, b, from)
  {
    var x, y := a + tail, b + tail;
    forall i | 0 <= i < |a| && (i < from || i >= from + 16)
      ensures a[i] == b[i]
    {
      assert x[i] == a[i] && y[i] == b[i];
    }
    assert a == b ==> x == y;
  }

  /** A burst that does not is one in the bytes covered. */
  lemma InsideBorder(f: seq<bv8>, g: seq<bv8>, from: nat)
    requires 4 <= |f| == |g| && Burst(Bits(f), Bits(g), from) && f[|f| - 2..] == g[|f| - 2..]
    ensures Burst(Bits(f[..|f| - 2]), Bits(g[..|f| - 2]), from)
  {
    hide Bits, Burst;
    var n := |f| - 2;
    BitsSplit(f, n);
    BitsSplit(g, n);
    BurstInside(Bits(f[..n]), Bits(g[..n]), Bits(f[n..]), from);
  }

  lemma BitsSplit(f: seq<bv8>, n: nat)
    requires n <= |f|
    ensures Bits(f) == Bits(f[..n]) + Bits(f[n..])
  {
    hide Bits;
    BitsAppend(f[..n], f[n..]);
    assert f == f[..n] + f[n..];
  }

  /** A frame with an error burst of at most 16 bits anywhere is dropped by every receiver, unless it
      is one of the twelve across the border between what the checksum covers and the checksum. */
  lemma BurstDroppedIff(body: seq<bv8>, frame: seq<bv8>, from: nat, self: Address)
    requires HEADER + 2 <= |body| && |frame| == |body| + 2
    requires Burst(Bits(Sealed(body)), Bits(frame), from)
    ensures Unpacked(frame, self) == Dropped <==>
            !Blind(UpperError(Sealed(body), frame), LowerError(Sealed(body), frame))
  {
    hide Crc16, Join, Low8, High8, Bits, Burst, Blind, Residue, Read, Within, UpperError, LowerError;
    var f := Sealed(body);
    var n := |f|;
    SealHolds(body);
    assert f[..n - 2] == body;
    assert Sound(f);
    LowerZero(f, frame);
    if f[n - 2..] == frame[n - 2..] {
      InsideBorder(f, frame, from);
      BurstDropped(body, frame, from, self);
      if Blind(UpperError(f, frame), LowerError(f, frame)) {
        BlindLower(UpperError(f, frame), LowerError(f, frame));
      }
    } else {
      AcrossBorder(f, frame, from);
      SoundIff(f, frame);
      if UpperError(f, frame) == 0 {
        ResidueZero(LowerError(f, frame));
      } else {
        WindowErrors(f, frame, from);
        BlindIff(UpperError(f, frame), LowerError(f, frame), from - 8 * (n - 4));
      }
    }
  }

  lemma SamePrefixBits(f: seq<bv8>, g: seq<bv8>, k: nat, i: nat)
    requires |f| == |g| && k <= |f| && f[..k] == g[..k] && i < 8 * k
    ensures Bits(f)[i] == Bits(g)[i]
  {
    hide Bits, BitsOf;
    assert f[i / 8] == f[..k][i / 8] && g[i / 8] == g[..k][i / 8];
    BitAt(f, i / 8, i % 8);
    BitAt(g, i / 8, i % 8);
  }

  lemma LastBits(f: seq<bv8>, g: seq<bv8>, r: nat, i: nat)
    requires 4 <= |f| == |g| && Within(UpperError(f, g), LowerError(f, g), r) && r <= 16
    requires i < 32 && (i < r || i >= r + 16)
    ensures Bits(f)[8 * (|f| - 4) + i] == Bits(g)[8 * (|f| - 4) + i]
  {
    hide Bits, Above, Error, Right, PairBits;
    var k := |f| - 4;
    if i < 16 {
      PairAt(f, k, i);
      PairAt(g, k, i);
      RightIff(f[k], f[k + 1], g[k], g[k + 1], i);
    } else {
      PairAt(f, k + 2, i - 16);
      PairAt(g, k + 2, i - 16);
      RightIff(f[k + 2], f[k + 3], g[k + 2], g[k + 3], i - 16);
    }
  }

  lemma BurstHere(f: seq<bv8>, g: seq<bv8>, r: nat)
    requires 4 <= |f| == |g| && f[..|f| - 4] == g[..|f| - 4] && f != g && r <= 16
    requires Within(UpperError(f, g), LowerError(f, g), r)
    ensures Burst(Bits(f), Bits(g), 8 * (|f| - 4) + r)
  {
    hide Bits, Within, UpperError, LowerError;
    var k := |f| - 4;
    forall i | 0 <= i < 8 * |f| && (i < 8 * k + r || i >= 8 * k + r + 16)
      ensures Bits(f)[i] == Bits(g)[i]
    {
      if i < 8 * k {
        SamePrefixBits(f, g, k, i);
      } else {
        LastBits(f, g, r, i - 8 * k);
      }
    }
    assert f == f[0..|f|] && g == g[0..|f|];
    if Bits(f) == Bits(g) {
      SameBytes(f, g, 0, |f|);
    }
  }

  function Flipped(b: bv8, e: bv8): bv8 {
    b ^ e
  }

  lemma FlippedError(b: bv8, e: bv8)
    ensures Error(b, Flipped(b, e)) == e && (e != 0 ==> Flipped(b, e) != b)
  {}

  lemma FirstBlind()
    ensures Above(0, 1) == 1 && Above(0x21, 0x10) == 0x2110 && Blind(1, 0x2110) && Within(1, 0x2110, 15)
    ensures Error(0, 0) == 0
  {}

  /** The first of the twelve, in any frame at all: the lowest bit of the last byte covered and three
      bits of the checksum, within thirteen bits of the frame, and every receiver takes it for right. */
  lemma BurstMissed(body: seq<bv8>, self: Address)
    requires HEADER + 2 <= |body|
    ensures var (f, n) := (Sealed(body), |body|);
      var g := f[n - 1 := Flipped(f[n - 1], 1)][n := Flipped(f[n], 0x21)][n + 1 := Flipped(f[n + 1], 0x10)];
      Burst(Bits(f), Bits(g), 8 * n - 1) && Unpacked(g, self) != Dropped
  {
    hide Bits, Burst, Blind, Crc16, Flipped, Error, Above, Within, Join, Low8, High8;
    var f, n := Sealed(body), |body|;
    var g := f[n - 1 := Flipped(f[n - 1], 1)][n := Flipped(f[n], 0x21)][n + 1 := Flipped(f[n + 1], 0x10)];
    FlippedError(f[n - 1], 1);
    FlippedError(f[n], 0x21);
    FlippedError(f[n + 1], 0x10);
    NoError(f[n - 2], g[n - 2]);
    FirstBlind();
    assert UpperError(f, g) == 1 && LowerError(f, g) == 0x2110;
    BurstHere(f, g, 15);
    BurstDroppedIff(body, g, 8 * n - 1, self);
  }

  // ----- Odd errors.

  lemma {:induction false} OddDifference(x: seq<bool>, y: seq<bool>)
    requires |x| == |y|
    ensures Odd(Difference(x, y)) == (Odd(x) != Odd(y))
    decreases |x|
  {
    if x != [] {
      assert Difference(x, y)[1..] == Difference(x[1..], y[1..]);
      OddDifference(x[1..], y[1..]);
    }
  }

  lemma {:induction false} OddAppend(x: seq<bool>, y: seq<bool>)
    ensures Odd(x + y) == (Odd(x) != Odd(y))
    decreases |x|
  {
    if x == [] {
      assert x + y == y;
    } else {
      assert (x + y)[1..] == x[1..] + y;
      OddAppend(x[1..], y);
    }
  }

  lemma FeedOdd(s: seq<bv8>)
    ensures Parity(Crc16(s)) == Odd(Bits(s))
  {
    hide Parity, Bits, Odd;
    CrcIsBits(0, s);
    FeedParity(0, Bits(s));
    ZeroParity();
  }

  lemma JoinHasBoth(a: bv8, b: bv8)
    ensures Join(a, b) == Xor(Word(a), HighByte(b))
  {}

  /** The parity of a byte, low or high. */
  predicate ByteParity(b: bv8) {
    Parity4(b & 128 != 0, b & 64 != 0, b & 32 != 0, b & 16 != 0) !=
    Parity4(b & 8 != 0, b & 4 != 0, b & 2 != 0, b & 1 != 0)
  }

  lemma OddByte(b: bv8)
    ensures Odd(BitsOf(b)) == ByteParity(b)
  {
    var s := BitsOf(b);
    OddEight(s);
  }

  lemma OddEight(s: seq<bool>)
    requires |s| == 8
    ensures Odd(s) == (Parity4(s[0], s[1], s[2], s[3]) != Parity4(s[4], s[5], s[6], s[7]))
  {
    OddFour(s[..4]);
    OddFour(s[4..]);
    OddAppend(s[..4], s[4..]);
    assert s == s[..4] + s[4..];
  }

  lemma OddFour(s: seq<bool>)
    requires |s| == 4
    ensures Odd(s) == Parity4(s[0], s[1], s[2], s[3])
  {
    assert s[1..][1..] == s[2..] && s[2..][1..] == s[3..] && s[3..][1..] == [];
    assert Odd(s[3..]) == s[3] && Odd(s[2..]) == (s[2] != s[3]) && Odd(s[1..]) == (s[1] != (s[2] != s[3]));
  }

  lemma JoinParity(a: bv8, b: bv8)
    ensures Parity(Join(a, b)) == (ByteParity(a) != ByteParity(b))
  {}

  /** A frame whose checksum is right has an even number of bits set. */
  lemma SoundEven(f: seq<bv8>)
    requires 2 <= |f| && Sound(f)
    ensures !Odd(Bits(f))
  {
    hide Crc16, Join, Parity, ByteParity, BitsOf, Odd;
    var n := |f| - 2;
    FeedOdd(f[..n]);
    JoinParity(f[n], f[n + 1]);
    OddByte(f[n]);
    OddByte(f[n + 1]);
    BitsAppend(f[..n], f[n..]);
    assert f == f[..n] + f[n..] && f[n..] == [f[n], f[n + 1]] && f[n..][1..] == [f[n + 1]] && [f[n + 1]][1..] == [];
    assert Bits(f[n..]) == BitsOf(f[n]) + BitsOf(f[n + 1]);
    OddAppend(BitsOf(f[n]), BitsOf(f[n + 1]));
    OddAppend(Bits(f[..n]), Bits(f[n..]));
  }

  /** A frame with an odd number of wrong bits, wherever they are, is dropped. */
  lemma OddDropped(body: seq<bv8>, frame: seq<bv8>, self: Address)
    requires HEADER + 2 <= |body| && |frame| == |body| + 2
    requires Odd(Difference(Bits(Sealed(body)), Bits(frame)))
    ensures Unpacked(frame, self) == Dropped
  {
    hide Crc16, Join, Low8, High8, Bits, Odd, Difference;
    SealHolds(body);
    SoundEven(Sealed(body));
    OddDifference(Bits(Sealed(body)), Bits(frame));
    if Sound(frame) {
      SoundEven(frame);
    }
  }
}
