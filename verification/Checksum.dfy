/** The Internet checksum (RFC 1071) as IP and TCP compute it: 16-bit words, low byte first, added
    up and folded back into 16 bits. */
module Checksum {

  type Byte = x: int | 0 <= x < 256

  const BASE := 0x1_0000
  const ONES := 0xFFFF

  function Word(low: Byte, high: Byte): nat {
    low + 256 * high
  }

  /** The sum of the words; an odd last byte stands for itself. */
  function WordSum(s: seq<Byte>): nat {
    if s == [] then 0 else if |s| == 1 then s[0] else Word(s[0], s[1]) + WordSum(s[2..])
  }

  /** End-around carry until nothing is left to carry. */
  function Fold(sum: nat): nat {
    if sum < BASE then sum else Fold(sum % BASE + sum / BASE)
  }

  /** What folding gives: the one number from 1 to 0xFFFF that is congruent modulo 0xFFFF, and 0
      only for 0. */
  lemma {:induction false} FoldIs(n: nat)
    ensures Fold(n) == if n == 0 then 0 else (n - 1) % ONES + 1
  {
    if n < BASE {
      assert n != 0 ==> (n - 1) % ONES == n - 1;
    } else {
      var m := n % BASE + n / BASE;
      FoldIs(m);
      assert n - 1 == (m - 1) + ONES * (n / BASE);
      ModShift(m - 1, n / BASE);
    }
  }

  lemma ModShift(a: int, k: int)
    ensures (a + ONES * k) % ONES == a % ONES
  {}

  lemma FoldOnes(n: nat)
    ensures Fold(n) == ONES <==> n != 0 && n % ONES == 0
  {
    FoldIs(n);
    if n != 0 && n % ONES == 0 {
      ModShift(n - 1, -(n / ONES) + 1);
    }
  }

  /** Folding early or late makes no difference. */
  lemma FoldAdd(a: nat, b: nat)
    ensures Fold(Fold(a) + b) == Fold(a + b)
    ensures Fold(Fold(a) + Fold(b)) == Fold(a + b)
  {
    FoldKeeps(a);
    FoldKeeps(b);
    FoldCongruent(Fold(a) + b, a + b, (Fold(a) - a) / ONES);
    FoldCongruent(Fold(a) + Fold(b), a + b, (Fold(a) - a) / ONES + (Fold(b) - b) / ONES);
  }

  lemma FoldKeeps(a: nat)
    ensures Fold(a) == 0 <==> a == 0
    ensures Fold(a) < BASE && (Fold(a) - a) % ONES == 0
  {
    FoldIs(a);
    if a != 0 {
      ModShift(0, -((a - 1) / ONES));
      assert Fold(a) - a == -ONES * ((a - 1) / ONES);
    }
  }

  lemma FoldCongruent(a: nat, b: nat, k: int)
    requires a == b + ONES * k && (a == 0 <==> b == 0)
    ensures Fold(a) == Fold(b)
  {
    FoldIs(a);
    FoldIs(b);
    ModShift(b - 1, k);
  }

  // ----- `IP::calculate_checksum`.

  lemma {:induction false} WordSumBound(s: seq<Byte>)
    ensures WordSum(s) <= ONES * ((|s| + 1) / 2)
  {
    if |s| >= 2 {
      WordSumBound(s[2..]);
    }
  }

  lemma {:induction false} WordSumAppend(s: seq<Byte>, t: seq<Byte>)
    requires |s| % 2 == 0
    ensures WordSum(s + t) == WordSum(s) + WordSum(t)
  {
    if s == [] {
      assert s + t == t;
    } else {
      assert (s + t)[2..] == s[2..] + t;
      WordSumAppend(s[2..], t);
    }
  }

  lemma WordSumNext(s: seq<Byte>, i: nat)
    requires i % 2 == 0 && i + 2 <= |s|
    ensures WordSum(s[..i + 2]) == WordSum(s[..i]) + Word(s[i], s[i + 1])
  {
    WordSumAppend(s[..i], s[i..i + 2]);
    assert s[..i] + s[i..i + 2] == s[..i + 2];
    assert s[i..i + 2][2..] == [];
  }

  lemma WordSumLast(s: seq<Byte>)
    requires |s| % 2 == 1
    ensures WordSum(s) == WordSum(s[..|s| - 1]) + s[|s| - 1]
  {
    var i := |s| - 1;
    WordSumAppend(s[..i], s[i..]);
    assert s[..i] + s[i..] == s;
  }

  /** The sum is kept in 32 bits, which it never leaves. */
  method Calculate(s: seq<Byte>) returns (r: nat)
    requires |s| < BASE
    ensures r == Fold(WordSum(s))
  {
    var sum: nat, i := 0, 0;
    while i < |s| - 1
      invariant 0 <= i <= |s| && i % 2 == 0
      invariant sum == WordSum(s[..i]) && sum <= ONES * (i / 2)
    {
      WordSumNext(s, i);
      sum := sum + Word(s[i], s[i + 1]);
      i := i + 2;
    }
    if |s| % 2 == 1 {
      WordSumLast(s);
      sum := sum + s[|s| - 1];
    } else {
      assert s[..i] == s;
    }
    assert sum < 0x1_0000_0000;
    r := FoldLoop(sum);
  }

  method FoldLoop(n: nat) returns (r: nat)
    ensures r == Fold(n)
  {
    r := n;
    while r / BASE != 0
      invariant Fold(r) == Fold(n)
      decreases r
    {
      r := r % BASE + r / BASE;
    }
  }

  // ----- A checksum inside what it covers.

  /** `s` with the word `w` at offset `p`. */
  function Stamp(s: seq<Byte>, p: nat, w: nat): (d: seq<Byte>)
    requires p + 2 <= |s| && w < BASE
    ensures |d| == |s|
  {
    s[..p] + [w % 256, w / 256] + s[p + 2..]
  }

  lemma StampSum(s: seq<Byte>, p: nat, w: nat)
    requires p % 2 == 0 && p + 2 <= |s| && w < BASE
    ensures WordSum(Stamp(s, p, w)) == WordSum(Stamp(s, p, 0)) + w
    ensures WordSum(Stamp(s, p, w)) == WordSum(s[..p]) + w + WordSum(s[p + 2..])
  {
    StampParts(s, p, w);
    StampParts(s, p, 0);
  }

  lemma StampParts(s: seq<Byte>, p: nat, w: nat)
    requires p % 2 == 0 && p + 2 <= |s| && w < BASE
    ensures WordSum(Stamp(s, p, w)) == WordSum(s[..p]) + w + WordSum(s[p + 2..])
  {
    var word: seq<Byte> := [w % 256, w / 256];
    WordSumAppend(s[..p] + word, s[p + 2..]);
    WordSumAppend(s[..p], word);
    assert word[2..] == [];
  }

  /** The complement of a sum completes it. */
  lemma ComplementCompletes(n: nat)
    ensures Fold(n) <= ONES
    ensures Fold(n + (ONES - Fold(n))) == ONES
  {
    FoldKeeps(n);
    var c := ONES - Fold(n);
    assert n + c == ONES - (Fold(n) - n);
    ModShift(0, 1 - (Fold(n) - n) / ONES);
    FoldOnes(n + c);
  }

  // ----- `IP::Header`.

  const CHECKSUM_AT := 10

  /** What the header holds once its checksum has been computed. */
  function Checked(h: seq<Byte>): seq<Byte>
    requires CHECKSUM_AT + 2 <= |h|
  {
    FoldKeeps(WordSum(Stamp(h, CHECKSUM_AT, 0)));
    Stamp(h, CHECKSUM_AT, ONES - Fold(WordSum(Stamp(h, CHECKSUM_AT, 0))))
  }

  method CalculateHeader(h: array<Byte>)
    requires 20 <= h.Length < BASE
    modifies h
    ensures h[..] == Checked(old(h[..]))
  {
    h[CHECKSUM_AT], h[CHECKSUM_AT + 1] := 0, 0;
    assert h[..] == Stamp(old(h[..]), CHECKSUM_AT, 0);
    var sum := Calculate(h[..]);
    FoldKeeps(WordSum(h[..]));
    var c := ONES - sum;
    h[CHECKSUM_AT], h[CHECKSUM_AT + 1] := c % 256, c / 256;
    assert h[..] == Stamp(old(h[..]), CHECKSUM_AT, c);
  }

  /** A header whose checksum has just been computed sums to all ones. */
  lemma HeaderValid(h: seq<Byte>)
    requires CHECKSUM_AT + 2 <= |h|
    ensures Fold(WordSum(Checked(h))) == ONES
  {
    var n := WordSum(Stamp(h, CHECKSUM_AT, 0));
    ComplementCompletes(n);
    StampSum(h, CHECKSUM_AT, ONES - Fold(n));
  }

  /** A valid checksum misses the change of one word exactly when the word was all zeros and
      becomes all ones, or the other way round, and the rest is not all zero. */
  lemma OneWordChanged(h: seq<Byte>, p: nat, v: nat, w: nat)
    requires p % 2 == 0 && p + 2 <= |h| && v < BASE && w < BASE
    requires Fold(WordSum(Stamp(h, p, v))) == ONES
    ensures Fold(WordSum(Stamp(h, p, w))) == ONES <==>
            v == w || (v == ONES && w == 0 && WordSum(Stamp(h, p, 0)) != 0) || (v == 0 && w == ONES)
  {
    var rest := WordSum(Stamp(h, p, 0));
    StampSum(h, p, v);
    StampSum(h, p, w);
    FoldOnes(rest + v);
    FoldOnes(rest + w);
    SameModOnes(rest, v, w);
  }

  lemma SameModOnes(rest: nat, v: nat, w: nat)
    requires v < BASE && w < BASE && (rest + v) % ONES == 0
    ensures (rest + w) % ONES == 0 <==> v == w || (v == ONES && w == 0) || (v == 0 && w == ONES)
  {
    assert (rest + w) - (rest + v) == w - v;
    if (rest + w) % ONES == 0 {
      assert (rest + w) - (rest + v) == ONES * ((rest + w) / ONES - (rest + v) / ONES);
    }
  }

  // ----- TCP segments.

  const TCP_CHECKSUM_AT := 16

  /** The addresses, the protocol and the length of a segment. */
  function Pseudo(src: seq<Byte>, dst: seq<Byte>, len: nat): seq<Byte>
    requires len < BASE
  {
    src + dst + [0, 6, len / 256, len % 256]
  }

  function Concat(pieces: seq<seq<Byte>>): seq<Byte> {
    if pieces == [] then [] else pieces[0] + Concat(pieces[1..])
  }

  /** Each piece is summed on its own. */
  function PieceSum(pieces: seq<seq<Byte>>): nat {
    if pieces == [] then 0 else Fold(WordSum(pieces[0])) + PieceSum(pieces[1..])
  }

  /** `_checksum`: over the pseudo header, the header with a zero checksum and the pieces. */
  function SegmentChecksum(src: seq<Byte>, dst: seq<Byte>, h: seq<Byte>, pieces: seq<seq<Byte>>): (c: nat)
    requires TCP_CHECKSUM_AT + 2 <= |h| && |h| + |Concat(pieces)| < BASE
    ensures c < BASE
  {
    var n := Fold(WordSum(Pseudo(src, dst, |h| + |Concat(pieces)|))) +
             Fold(WordSum(Stamp(h, TCP_CHECKSUM_AT, 0))) + PieceSum(pieces);
    FoldKeeps(n);
    ONES - Fold(n)
  }

  /** `validate_checksum`, over the segment as it arrives. */
  predicate Validates(src: seq<Byte>, dst: seq<Byte>, segment: seq<Byte>)
    requires |segment| < BASE
  {
    Fold(Fold(WordSum(segment)) + Fold(WordSum(Pseudo(src, dst, |segment|)))) == ONES
  }

  method Validate(src: seq<Byte>, dst: seq<Byte>, segment: seq<Byte>) returns (ok: bool)
    requires |segment| < BASE && |src| == 4 && |dst| == 4
    ensures ok == Validates(src, dst, segment)
  {
    var sum := Calculate(segment);
    var p := Calculate(Pseudo(src, dst, |segment|));
    sum := FoldLoop(sum + p);
    ok := sum == ONES;
  }

  /** The sum over the pieces, too, is kept in 32 bits and never leaves them. */
  method AddPieces(first: nat, pieces: seq<seq<Byte>>) returns (sum: nat)
    requires first <= 2 * ONES && 20 + |Concat(pieces)| < BASE
    ensures sum == first + PieceSum(pieces)
  {
    sum := first;
    PieceSumBound(pieces);
    var i := 0;
    while i < |pieces|
      invariant 0 <= i <= |pieces|
      invariant sum + PieceSum(pieces[i..]) == first + PieceSum(pieces)
    {
      PieceSize(pieces, i);
      assert pieces[i..][1..] == pieces[i + 1..];
      var part := Calculate(pieces[i]);
      sum := sum + part;
      assert sum < 0x1_0000_0000;
      i := i + 1;
    }
  }

  lemma {:induction false} PieceSumBound(pieces: seq<seq<Byte>>)
    ensures PieceSum(pieces) <= ONES * |Concat(pieces)|
  {
    if pieces != [] {
      PieceSumBound(pieces[1..]);
      FoldKeeps(WordSum(pieces[0]));
    }
  }

  method CalculateSegment(src: seq<Byte>, dst: seq<Byte>, h: array<Byte>, pieces: seq<seq<Byte>>)
    requires h.Length == 20 && |src| == 4 && |dst| == 4 && h.Length + |Concat(pieces)| < BASE
    modifies h
    ensures h[..] == Stamp(old(h[..]), TCP_CHECKSUM_AT, SegmentChecksum(src, dst, old(h[..]), pieces))
  {
    var len := h.Length + TotalSize(pieces);
    h[TCP_CHECKSUM_AT], h[TCP_CHECKSUM_AT + 1] := 0, 0;
    assert h[..] == Stamp(old(h[..]), TCP_CHECKSUM_AT, 0);
    var sum := Calculate(Pseudo(src, dst, len));
    var part := Calculate(h[..]);
    FoldKeeps(WordSum(Pseudo(src, dst, len)));
    FoldKeeps(WordSum(h[..]));
    sum := sum + part;
    sum := AddPieces(sum, pieces);
    FoldKeeps(sum);
    sum := FoldLoop(sum);
    var c := ONES - sum;
    h[TCP_CHECKSUM_AT], h[TCP_CHECKSUM_AT + 1] := c % 256, c / 256;
    assert h[..] == Stamp(old(h[..]), TCP_CHECKSUM_AT, c);
  }

  function TotalSize(pieces: seq<seq<Byte>>): (n: nat)
    ensures n == |Concat(pieces)|
  {
    if pieces == [] then 0 else |pieces[0]| + TotalSize(pieces[1..])
  }

  lemma {:induction false} PieceSize(pieces: seq<seq<Byte>>, i: nat)
    requires i < |pieces|
    ensures |pieces[i]| <= |Concat(pieces)|
  {
    if i > 0 {
      PieceSize(pieces[1..], i - 1);
    }
  }

  /** Summing the pieces and summing the bytes agree when all pieces but the last are even. */
  lemma {:induction false} PiecesAgree(pieces: seq<seq<Byte>>, rest: nat)
    requires forall i :: 0 <= i < |pieces| - 1 ==> |pieces[i]| % 2 == 0
    ensures Fold(rest + PieceSum(pieces)) == Fold(rest + WordSum(Concat(pieces)))
  {
    hide Fold;
    if |pieces| == 1 {
      assert pieces[0] + Concat(pieces[1..]) == pieces[0];
      FoldAdd(WordSum(pieces[0]), rest);
    } else if pieces != [] {
      WordSumAppend(pieces[0], Concat(pieces[1..]));
      PiecesAgree(pieces[1..], rest + Fold(WordSum(pieces[0])));
      FoldAdd(WordSum(pieces[0]), rest + WordSum(Concat(pieces[1..])));
    }
  }

  // ----- Pieces of odd size.

  /** The sum of the words of those pieces that start at an odd offset. */
  function OddSum(pieces: seq<seq<Byte>>, odd: bool): nat {
    if pieces == [] then 0
    else (if odd then WordSum(pieces[0]) else 0) + OddSum(pieces[1..], odd != (|pieces[0]| % 2 == 1))
  }

  lemma LowByte(x: Byte, t: seq<Byte>)
    ensures WordSum([x] + t) == x + WordSum([0] + t)
  {
    if t != [] {
      assert ([x] + t)[2..] == t[1..] && ([0] + t)[2..] == t[1..];
    }
  }

  /** One byte further on the two bytes of every word change places: 256 times the sum, with
      end-around carry. */
  lemma {:induction false} Shifted(t: seq<Byte>) returns (k: int)
    ensures WordSum([0] + t) == 256 * WordSum(t) + ONES * k
  {
    k := 0;
    if |t| == 1 {
      assert ([0] + t)[2..] == [];
    } else if t != [] {
      var n := Shifted(t[2..]);
      assert ([0] + t)[2..] == [t[1]] + t[2..];
      LowByte(t[1], t[2..]);
      k := n - t[1];
    }
  }

  lemma {:induction false} WordSumOdd(s: seq<Byte>, t: seq<Byte>) returns (k: int)
    requires |s| % 2 == 1
    ensures WordSum(s + t) == WordSum(s) + 256 * WordSum(t) + ONES * k
  {
    if |s| == 1 {
      LowByte(s[0], t);
      k := Shifted(t);
      assert s + t == [s[0]] + t;
    } else {
      assert (s + t)[2..] == s[2..] + t;
      k := WordSumOdd(s[2..], t);
    }
  }

  function Weight(odd: bool): nat {
    if odd then 256 else 1
  }

  /** What the bytes in one run, at an even or an odd offset, sum up to. */
  lemma {:induction false} ConcatSum(pieces: seq<seq<Byte>>, odd: bool) returns (k: int)
    ensures Weight(odd) * WordSum(Concat(pieces)) == PieceSum(pieces) + 255 * OddSum(pieces, odd) + ONES * k
  {
    k := 0;
    if pieces != [] {
      var p, rest := pieces[0], Concat(pieces[1..]);
      FoldKeeps(WordSum(p));
      var f := (WordSum(p) - Fold(WordSum(p))) / ONES;
      assert WordSum(p) == Fold(WordSum(p)) + ONES * f;
      if |p| % 2 == 0 {
        WordSumAppend(p, rest);
        var n := ConcatSum(pieces[1..], odd);
        k := n + f;
        EvenPiece(odd, WordSum(p), WordSum(rest));
      } else {
        var m := WordSumOdd(p, rest);
        var n := ConcatSum(pieces[1..], !odd);
        k := n + f + if odd then 256 * m + WordSum(rest) else m;
      }
    }
  }

  lemma EvenPiece(odd: bool, w: nat, rest: nat)
    ensures Weight(odd) * (w + rest) == w + (if odd then 255 * w else 0) + Weight(odd) * rest
  {}

  /** What the receiver finds: a segment sent in pieces validates exactly when what starts at odd
      offsets sums up to a multiple of 257. */
  lemma SegmentValidatesIff(src: seq<Byte>, dst: seq<Byte>, h: seq<Byte>, pieces: seq<seq<Byte>>)
    requires |src| == 4 && |dst| == 4 && |h| == 20 && |h| + |Concat(pieces)| < BASE
    ensures var c := SegmentChecksum(src, dst, h, pieces);
      Validates(src, dst, Stamp(h, TCP_CHECKSUM_AT, c) + Concat(pieces)) <==> OddSum(pieces, false) % 257 == 0
  {
    hide Fold, WordSum, Concat, SegmentChecksum, Validates, PieceSum, OddSum;
    SumsAgreeIff(src, dst, h, pieces);
    var k := ConcatSum(pieces, false);
    TimesLess(OddSum(pieces, false), k);
    assert Weight(false) * WordSum(Concat(pieces)) == WordSum(Concat(pieces));
  }

  lemma TimesLess(m: nat, k: int)
    ensures (255 * m + ONES * k) % ONES == 0 <==> m % 257 == 0
  {
    ModShift(255 * m, k);
    if m % 257 == 0 {
      ModShift(0, m / 257);
      assert 255 * m == ONES * (m / 257);
    }
    if 255 * m % ONES == 0 {
      assert 255 * m == ONES * (255 * m / ONES);
    }
  }

  /** The checksum of the pieces validates exactly when the pieces and the bytes in one run have
      the same sum modulo 0xFFFF. */
  lemma SumsAgreeIff(src: seq<Byte>, dst: seq<Byte>, h: seq<Byte>, pieces: seq<seq<Byte>>)
    requires |src| == 4 && |dst| == 4 && |h| == 20 && |h| + |Concat(pieces)| < BASE
    ensures var c := SegmentChecksum(src, dst, h, pieces);
      Validates(src, dst, Stamp(h, TCP_CHECKSUM_AT, c) + Concat(pieces)) <==>
      (WordSum(Concat(pieces)) - PieceSum(pieces)) % ONES == 0
  {
    hide Fold, WordSum, Concat;
    var c := SegmentChecksum(src, dst, h, pieces);
    var data := Concat(pieces);
    var p, z := WordSum(Pseudo(src, dst, |h| + |data|)), WordSum(Stamp(h, TCP_CHECKSUM_AT, 0));
    WordSumAppend(Stamp(h, TCP_CHECKSUM_AT, c), data);
    StampSum(h, TCP_CHECKSUM_AT, c);
    var total := z + c + WordSum(data);
    FoldAdd(total, p);
    PseudoPositive(src, dst, |h| + |data|);
    FoldOnes(total + p);
    SumToOnes(p, z, PieceSum(pieces), WordSum(data), c);
  }

  lemma PseudoPositive(src: seq<Byte>, dst: seq<Byte>, len: nat)
    requires len < BASE && |src| == 4 && |dst| == 4
    ensures WordSum(Pseudo(src, dst, len)) > 0
  {
    WordSumAppend(src + dst, [0, 6, len / 256, len % 256]);
  }

  lemma SumToOnes(p: nat, z: nat, a: nat, b: nat, c: nat)
    requires c == ONES - Fold(Fold(p) + Fold(z) + a)
    ensures (z + c + b + p) % ONES == 0 <==> (b - a) % ONES == 0
  {
    FoldKeeps(p);
    FoldKeeps(z);
    var n := Fold(p) + Fold(z) + a;
    FoldKeeps(n);
    var k := (Fold(p) - p) / ONES + (Fold(z) - z) / ONES + (Fold(n) - n) / ONES;
    assert Fold(n) == p + z + a + ONES * k;
    assert z + c + b + p == (b - a) + ONES * (1 - k);
    ModShift(b - a, 1 - k);
  }

  /** A segment sent in pieces of which only the last may be odd always validates; so does one
      sent from a single buffer. */
  lemma SegmentValid(src: seq<Byte>, dst: seq<Byte>, h: seq<Byte>, pieces: seq<seq<Byte>>)
    requires |src| == 4 && |dst| == 4 && |h| == 20 && |h| + |Concat(pieces)| < BASE
    requires forall i :: 0 <= i < |pieces| - 1 ==> |pieces[i]| % 2 == 0
    ensures var c := SegmentChecksum(src, dst, h, pieces);
      Validates(src, dst, Stamp(h, TCP_CHECKSUM_AT, c) + Concat(pieces))
  {
    hide Fold, WordSum, SegmentChecksum, Validates, Concat;
    NoneOdd(pieces);
    SegmentValidatesIff(src, dst, h, pieces);
  }

  lemma {:induction false} NoneOdd(pieces: seq<seq<Byte>>)
    requires forall i :: 0 <= i < |pieces| - 1 ==> |pieces[i]| % 2 == 0
    ensures OddSum(pieces, false) == 0
  {
    if |pieces| > 1 {
      NoneOdd(pieces[1..]);
    }
  }

  /** An odd piece in the middle can spoil it. */
  lemma OddPieceSpoils(src: seq<Byte>, dst: seq<Byte>, h: seq<Byte>)
    requires |src| == 4 && |dst| == 4 && |h| == 20
    ensures var pieces := [[1], [1]];
      && |Concat(pieces)| == 2
      && !Validates(src, dst, Stamp(h, TCP_CHECKSUM_AT, SegmentChecksum(src, dst, h, pieces)) + Concat(pieces))
  {
    var pieces: seq<seq<Byte>> := [[1], [1]];
    assert Concat(pieces) == [1, 1] && pieces[1..] == [[1]] && [1, 1][2..] == [];
    assert OddSum(pieces, false) == WordSum([1]) == 1;
    SegmentValidatesIff(src, dst, h, pieces);
  }
}
