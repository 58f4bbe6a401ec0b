/** The string routines that read memory a word at a time, against what they compute byte by
    byte, for every length and alignment; a long has 32 bits and its low byte comes first. */
module Strings {

  type Byte = bv8

  // ----- Words.

  function Word4(a: Byte, b: Byte, c: Byte, d: Byte): bv32 {
    (a as bv32) | ((b as bv32) << 8) | ((c as bv32) << 16) | ((d as bv32) << 24)
  }

  function WordAt(m: seq<Byte>, p: nat): bv32
    requires p + 4 <= |m|
  {
    Word4(m[p], m[p + 1], m[p + 2], m[p + 3])
  }

  /** The test in the routines' loops. */
  predicate Detects(w: bv32) {
    (w - 0x0101_0101) & !w & 0x8080_8080 != 0
  }

  predicate ZeroByte(w: bv32) {
    w & 0xFF == 0 || w & 0xFF00 == 0 || w & 0xFF_0000 == 0 || w & 0xFF00_0000 == 0
  }

  /** It is exact: it finds a zero byte when there is one and nothing otherwise. */
  lemma DetectsZero(w: bv32)
    ensures Detects(w) <==> ZeroByte(w)
  {}

  lemma BytesOfWord(a: Byte, b: Byte, c: Byte, d: Byte)
    ensures ZeroByte(Word4(a, b, c, d)) <==> a == 0 || b == 0 || c == 0 || d == 0
  {}

  lemma WordInjective(a: Byte, b: Byte, c: Byte, d: Byte, e: Byte, f: Byte, g: Byte, h: Byte)
    ensures Word4(a, b, c, d) == Word4(e, f, g, h) <==> a == e && b == f && c == g && d == h
  {}

  function Mask(c: Byte): bv32 {
    Word4(c, c, c, c)
  }

  function Xor32(v: bv32, w: bv32): bv32 {
    v ^ w
  }

  lemma MaskedLow(a: Byte, b: Byte, c: Byte, d: Byte, x: Byte)
    ensures Xor32(Word4(a, b, c, d), Word4(x, x, x, x)) & 0xFF == 0 <==> a == x
    ensures Xor32(Word4(a, b, c, d), Word4(x, x, x, x)) & 0xFF00 == 0 <==> b == x
  {}

  lemma MaskedHigh(a: Byte, b: Byte, c: Byte, d: Byte, x: Byte)
    ensures Xor32(Word4(a, b, c, d), Word4(x, x, x, x)) & 0xFF_0000 == 0 <==> c == x
    ensures Xor32(Word4(a, b, c, d), Word4(x, x, x, x)) & 0xFF00_0000 == 0 <==> d == x
  {}

  lemma DetectsIn(m: seq<Byte>, p: nat)
    requires p + 4 <= |m|
    ensures Detects(WordAt(m, p)) <==> m[p] == 0 || m[p + 1] == 0 || m[p + 2] == 0 || m[p + 3] == 0
  {
    hide Detects, Word4, ZeroByte;
    DetectsZero(WordAt(m, p));
    BytesOfWord(m[p], m[p + 1], m[p + 2], m[p + 3]);
  }

  lemma DetectsByte(m: seq<Byte>, p: nat, x: Byte)
    requires p + 4 <= |m|
    ensures Detects(Xor32(WordAt(m, p), Mask(x))) <==> m[p] == x || m[p + 1] == x || m[p + 2] == x || m[p + 3] == x
  {
    hide Detects, Word4, Xor32;
    MaskedLow(m[p], m[p + 1], m[p + 2], m[p + 3], x);
    MaskedHigh(m[p], m[p + 1], m[p + 2], m[p + 3], x);
    DetectsZero(Xor32(WordAt(m, p), Mask(x)));
  }

  lemma WordsEqual(m: seq<Byte>, p: nat, q: nat)
    requires p + 4 <= |m| && q + 4 <= |m|
    ensures WordAt(m, p) == WordAt(m, q) <==> m[p..p + 4] == m[q..q + 4]
  {
    hide Word4;
    WordInjective(m[p], m[p + 1], m[p + 2], m[p + 3], m[q], m[q + 1], m[q + 2], m[q + 3]);
    assert m[p..p + 4] == [m[p], m[p + 1], m[p + 2], m[p + 3]];
    assert m[q..q + 4] == [m[q], m[q + 1], m[q + 2], m[q + 3]];
  }

  // ----- Strings in memory.

  /** The string at `p` ends at `e`. */
  predicate Ends(m: seq<Byte>, p: nat, e: nat) {
    p <= e < |m| && m[e] == 0 && forall i :: p <= i < e ==> m[i] != 0
  }

  ghost predicate IsString(m: seq<Byte>, p: nat) {
    exists e: nat :: Ends(m, p, e)
  }

  /** A word without a zero byte leaves the end of the string ahead. */
  lemma EndAhead(m: seq<Byte>, p: nat, e: nat)
    requires Ends(m, p, e) && p + 4 <= |m|
    ensures Detects(WordAt(m, p)) <==> e < p + 4
    ensures !Detects(WordAt(m, p)) ==> Ends(m, p + 4, e)
  {
    hide Detects, WordAt;
    DetectsIn(m, p);
  }

  method Strlen(m: array<Byte>, start: nat) returns (n: nat)
    requires m.Length % 4 == 0 && IsString(m[..], start)
    ensures Ends(m[..], start, start + n)
  {
    hide Detects, WordAt;
    ghost var e: nat :| Ends(m[..], start, e);
    var str := start;
    while str % 4 != 0
      invariant Ends(m[..], start, e) && Ends(m[..], str, e) && start <= str
      decreases e - str
    {
      if m[str] == 0 {
        return str - start;
      }
      str := str + 1;
    }
    EndAhead(m[..], str, e);
    while !Detects(WordAt(m[..], str))
      invariant Ends(m[..], start, e) && Ends(m[..], str, e) && start <= str && str % 4 == 0 && str + 4 <= m.Length
      decreases e - str
    {
      EndAhead(m[..], str, e);
      str := str + 4;
    }
    while m[str] != 0
      invariant Ends(m[..], start, e) && Ends(m[..], str, e) && start <= str < m.Length
      decreases e - str
    {
      str := str + 1;
    }
    return str - start;
  }

  // ----- memchr.

  /** The first place of `d` in the `n` bytes from `p`, or nowhere. */
  predicate FirstAt(m: seq<Byte>, p: nat, n: nat, d: Byte, r: int)
    requires p + n <= |m|
  {
    if r < 0 then r == -1 && d !in m[p..p + n]
    else p <= r < p + n && m[r] == d && forall i :: p <= i < r ==> m[i] != d
  }

  method Memchr(m: array<Byte>, start: nat, d: Byte, count: nat) returns (r: int)
    requires start + count <= m.Length && m.Length % 4 == 0
    ensures FirstAt(m[..], start, count, d, r)
  {
    hide Detects, WordAt, Xor32, Mask;
    var src: nat, length: nat := start, count;
    while src % 4 != 0
      invariant src + length == start + count && start <= src
      invariant forall i :: start <= i < src ==> m[i] != d
      decreases length
    {
      if length == 0 {
        return -1;
      }
      length := length - 1;
      if m[src] == d {
        return src;
      }
      src := src + 1;
    }
    if length >= 4 {
      var mask := Mask(d);
      while length >= 4
        invariant src + length == start + count && start <= src
        invariant forall i :: start <= i < src ==> m[i] != d
        decreases length
      {
        DetectsByte(m[..], src, d);
        if Detects(Xor32(WordAt(m[..], src), mask)) {
          break;
        }
        length := length - 4;
        src := src + 4;
      }
    }
    while length > 0
      invariant src + length == start + count && start <= src
      invariant forall i :: start <= i < src ==> m[i] != d
      decreases length
    {
      length := length - 1;
      if m[src] == d {
        return src;
      }
      src := src + 1;
    }
    return -1;
  }

  // ----- strchr.

  /** The first place of `c` in the string from `p` to `e`, its end included, or nowhere. */
  predicate FirstIn(m: seq<Byte>, p: nat, e: nat, c: Byte, r: int)
    requires p <= e < |m|
  {
    if r < 0 then r == -1 && c !in m[p..e + 1]
    else p <= r <= e && m[r] == c && forall i :: p <= i < r ==> m[i] != c
  }

  /** A string that has not ended and has not shown `c` for a word goes on behind it. */
  lemma BothAhead(m: seq<Byte>, p: nat, s: nat, e: nat, c: Byte)
    requires Ends(m, s, e) && p <= s && s + 4 <= |m| && |m| % 4 == 0 && s % 4 == 0
    requires !Detects(WordAt(m, s)) && !Detects(Xor32(WordAt(m, s), Mask(c)))
    requires forall i :: p <= i < s ==> m[i] != c
    ensures Ends(m, s + 4, e) && s + 8 <= |m|
    ensures forall i :: p <= i < s + 4 ==> m[i] != c
  {
    hide Detects, WordAt, Xor32, Mask;
    DetectsByte(m, s, c);
    EndAhead(m, s, e);
  }

  method Strchr(m: array<Byte>, start: nat, c: Byte, ghost e: nat) returns (r: int)
    requires m.Length % 4 == 0 && Ends(m[..], start, e)
    ensures FirstIn(m[..], start, e, c, r)
  {
    hide Detects, WordAt, Xor32, Mask;
    if c == 0 {
      var n := Strlen(m, start);
      return start + n;
    }
    var s := start;
    while s % 4 != 0
      invariant Ends(m[..], start, e) && Ends(m[..], s, e) && start <= s
      invariant forall i :: start <= i < s ==> m[i] != c
      decreases e - s
    {
      if m[s] == 0 {
        return -1;
      }
      if m[s] == c {
        return s;
      }
      s := s + 1;
    }
    var mask := Mask(c);
    while !Detects(WordAt(m[..], s)) && !Detects(Xor32(WordAt(m[..], s), mask))
      invariant Ends(m[..], start, e) && Ends(m[..], s, e) && start <= s && s % 4 == 0 && s + 4 <= m.Length
      invariant forall i :: start <= i < s ==> m[i] != c
      decreases e - s
    {
      BothAhead(m[..], start, s, e, c);
      s := s + 4;
    }
    while m[s] != 0 && m[s] != c
      invariant Ends(m[..], start, e) && Ends(m[..], s, e) && start <= s < m.Length
      invariant forall i :: start <= i < s ==> m[i] != c
      decreases e - s
    {
      s := s + 1;
    }
    return if m[s] == c then s else -1;
  }

  // ----- strcmp.

  /** The first `k` bytes agree and the strings go on. */
  predicate Agree(m: seq<Byte>, p: nat, q: nat, k: nat) {
    p + k <= |m| && q + k <= |m| && m[p..p + k] == m[q..q + k] && 0 !in m[p..p + k]
  }

  /** The strings at `p` and `q` part, or end together, after `k` bytes. */
  predicate PartAt(m: seq<Byte>, p: nat, q: nat, k: nat) {
    && p + k < |m| && q + k < |m| && Agree(m, p, q, k)
    && (m[p + k] != m[q + k] || m[p + k] == 0)
  }

  ghost predicate Compares(m: seq<Byte>, p: nat, q: nat, r: int) {
    exists k: nat :: PartAt(m, p, q, k) && r == m[p + k] as int - m[q + k] as int
  }

  /** So the result is zero exactly for equal strings. */
  lemma ComparesEqual(m: seq<Byte>, p: nat, q: nat, d: nat, e: nat, r: int)
    requires Ends(m, p, d) && Ends(m, q, e) && Compares(m, p, q, r)
    ensures r == 0 <==> m[p..d] == m[q..e]
  {
    var k: nat :| PartAt(m, p, q, k) && r == m[p + k] as int - m[q + k] as int;
    NotBeyondEnd(m, p, d, k);
    NotBeyondEnd(m, q, e, k);
    if m[p..d] == m[q..e] {
      SameByte(m, p, q, d - p, k);
    }
  }

  lemma SameByte(m: seq<Byte>, p: nat, q: nat, n: nat, k: nat)
    requires p + n <= |m| && q + n <= |m| && m[p..p + n] == m[q..q + n]
    ensures k < n ==> m[p + k] == m[q + k]
  {
    if k < n {
      assert m[p..p + n][k] == m[q..q + n][k];
    }
  }

  lemma NotBeyondEnd(m: seq<Byte>, p: nat, e: nat, k: nat)
    requires Ends(m, p, e) && p + k <= |m| && 0 !in m[p..p + k]
    ensures p + k <= e
  {
    if e < p + k {
      InSlice(m, p, p + k, e);
    }
  }

  lemma InSlice(m: seq<Byte>, i: nat, j: nat, k: nat)
    requires i <= k < j <= |m|
    ensures m[k] in m[i..j]
  {
    assert m[i..j][k - i] == m[k];
  }

  lemma AgreeMore(m: seq<Byte>, p: nat, q: nat, k: nat, z: nat)
    requires Agree(m, p, q, k) && p + k + z <= |m| && q + k + z <= |m|
    requires m[p + k..p + k + z] == m[q + k..q + k + z] && 0 !in m[p + k..p + k + z]
    ensures Agree(m, p, q, k + z)
  {
    assert m[p..p + (k + z)] == m[p..p + k] + m[p + k..p + k + z];
    assert m[q..q + (k + z)] == m[q..q + k] + m[q + k..q + k + z];
  }

  predicate EndTogether(m: seq<Byte>, p: nat, q: nat, k: nat) {
    PartAt(m, p, q, k) && m[p + k] == m[q + k]
  }

  lemma AgreeLonger(m: seq<Byte>, p: nat, q: nat, k: nat)
    requires Agree(m, p, q, k) && p + k + 4 <= |m| && q + k + 4 <= |m|
    requires WordAt(m, p + k) == WordAt(m, q + k)
    ensures !Detects(WordAt(m, p + k)) ==> Agree(m, p, q, k + 4)
    ensures Detects(WordAt(m, p + k)) ==> exists j: nat :: j < k + 4 && EndTogether(m, p, q, j)
  {
    hide Detects, WordAt, Agree, Word4;
    DetectsIn(m, p + k);
    WordsEqual(m, p + k, q + k);
    var z := ZeroIn(m, p + k);
    WordSplit(m, p + k, q + k, z);
    AgreeMore(m, p, q, k, z);
    if z < 4 {
      assert EndTogether(m, p, q, k + z);
    }
  }

  /** How many bytes of the word are not zero before the first one that is. */
  function ZeroIn(m: seq<Byte>, p: nat): (z: nat)
    requires p + 4 <= |m|
    ensures z <= 4 && (z < 4 ==> m[p + z] == 0) && 0 !in m[p..p + z]
  {
    if m[p] == 0 then 0 else if m[p + 1] == 0 then 1 else if m[p + 2] == 0 then 2 else if m[p + 3] == 0 then 3 else 4
  }

  lemma WordSplit(m: seq<Byte>, s: nat, t: nat, z: nat)
    requires s + 4 <= |m| && t + 4 <= |m| && m[s..s + 4] == m[t..t + 4] && z <= 4
    ensures m[s..s + z] == m[t..t + z] && (z < 4 ==> m[s + z] == m[t + z])
  {
    assert m[s..s + z] == m[s..s + 4][..z] && m[t..t + z] == m[t..t + 4][..z];
    SameByte(m, s, t, 4, z);
  }

  method Strcmp(m: array<Byte>, s1: nat, s2: nat) returns (r: int)
    requires m.Length % 4 == 0 && IsString(m[..], s1) && IsString(m[..], s2)
    ensures Compares(m[..], s1, s2, r)
  {
    ghost var d: nat :| Ends(m[..], s1, d);
    ghost var e: nat :| Ends(m[..], s2, e);
    var k: nat, ended := 0, false;
    if s1 % 4 == 0 && s2 % 4 == 0 {
      k, ended := SkipWords(m, s1, s2, d, e);
    }
    if ended {
      return 0;
    }
    r := CompareBytes(m, s1, s2, k, d, e);
  }

  method CompareBytes(m: array<Byte>, s1: nat, s2: nat, from: nat, ghost d: nat, ghost e: nat) returns (r: int)
    requires Ends(m[..], s1 + from, d) && Ends(m[..], s2 + from, e) && Agree(m[..], s1, s2, from)
    ensures Compares(m[..], s1, s2, r)
  {
    hide Agree, Ends;
    var k := from;
    ByteAhead(m[..], s1 + k, d);
    ByteAhead(m[..], s2 + k, e);
    while m[s1 + k] != 0 && m[s1 + k] == m[s2 + k]
      invariant s1 + k < m.Length && s2 + k < m.Length
      invariant Ends(m[..], s1 + k, d) && Ends(m[..], s2 + k, e) && Agree(m[..], s1, s2, k)
      decreases m.Length - k
    {
      AgreeOne(m[..], s1, s2, k);
      ByteBehind(m[..], s1 + k, d);
      ByteBehind(m[..], s2 + k, e);
      k := k + 1;
      ByteAhead(m[..], s1 + k, d);
      ByteAhead(m[..], s2 + k, e);
    }
    assert PartAt(m[..], s1, s2, k);
    return m[s1 + k] as int - m[s2 + k] as int;
  }

  lemma AgreeOne(m: seq<Byte>, p: nat, q: nat, k: nat)
    requires Agree(m, p, q, k) && p + k < |m| && q + k < |m| && m[p + k] == m[q + k] && m[p + k] != 0
    ensures Agree(m, p, q, k + 1)
  {
    AgreeMore(m, p, q, k, 1);
  }

  lemma ByteAhead(m: seq<Byte>, p: nat, e: nat)
    requires Ends(m, p, e)
    ensures p <= e && p < |m| && (m[p] == 0 <==> p == e)
  {}

  lemma ByteBehind(m: seq<Byte>, p: nat, e: nat)
    requires Ends(m, p, e) && p < |m| && m[p] != 0
    ensures Ends(m, p + 1, e)
  {}

  /** Over equal words, up to the one in which both strings end. */
  method SkipWords(m: array<Byte>, s1: nat, s2: nat, ghost d: nat, ghost e: nat) returns (k: nat, ended: bool)
    requires m.Length % 4 == 0 && s1 % 4 == 0 && s2 % 4 == 0 && Ends(m[..], s1, d) && Ends(m[..], s2, e)
    ensures ended ==> Compares(m[..], s1, s2, 0)
    ensures !ended ==> Ends(m[..], s1 + k, d) && Ends(m[..], s2 + k, e) && Agree(m[..], s1, s2, k)
  {
    hide Detects, WordAt, Agree, Ends;
    k := 0;
    InMemory(m[..], s1, d);
    InMemory(m[..], s2, e);
    assert Agree(m[..], s1, s2, 0) by { NoBytes(m[..], s1, s2); }
    while WordAt(m[..], s1 + k) == WordAt(m[..], s2 + k)
      invariant Ends(m[..], s1 + k, d) && Ends(m[..], s2 + k, e) && k % 4 == 0
      invariant s1 + k <= d && s1 + k + 4 <= m.Length && s2 + k + 4 <= m.Length
      invariant Agree(m[..], s1, s2, k)
      decreases d - k
    {
      AgreeLonger(m[..], s1, s2, k);
      if Detects(WordAt(m[..], s1 + k)) {
        ghost var j: nat :| j < k + 4 && EndTogether(m[..], s1, s2, j);
        return k, true;
      }
      WordAhead(m[..], s1 + k, d);
      WordAhead(m[..], s2 + k, e);
      k := k + 4;
    }
    return k, false;
  }

  lemma WordAhead(m: seq<Byte>, p: nat, e: nat)
    requires Ends(m, p, e) && |m| % 4 == 0 && p % 4 == 0 && p + 4 <= |m| && !Detects(WordAt(m, p))
    ensures Ends(m, p + 4, e) && p + 4 <= e && p + 8 <= |m|
  {
    hide Detects, WordAt;
    EndAhead(m, p, e);
    InMemory(m, p + 4, e);
  }

  lemma NoBytes(m: seq<Byte>, p: nat, q: nat)
    requires p <= |m| && q <= |m|
    ensures Agree(m, p, q, 0)
  {}

  /** With memory a whole number of words, the word at an aligned string is in it. */
  lemma InMemory(m: seq<Byte>, p: nat, e: nat)
    requires Ends(m, p, e)
    ensures p <= e && (|m| % 4 == 0 && p % 4 == 0 ==> p + 4 <= |m|)
  {}

  // ----- strncmp.

  /** Nothing is read beyond `n` bytes or the end of the string, whichever comes first. */
  predicate Readable(m: seq<Byte>, p: nat, n: nat, e: nat) {
    p + n <= |m| || Ends(m, p, e)
  }

  /** What the first `n` bytes decide. */
  ghost predicate ComparesUpTo(m: seq<Byte>, p: nat, q: nat, n: nat, r: int) {
    || (r == 0 && Agree(m, p, q, n))
    || exists k: nat :: k < n && PartAt(m, p, q, k) && r == m[p + k] as int - m[q + k] as int
  }

  lemma ReadableByte(m: seq<Byte>, p: nat, n: nat, e: nat)
    requires Readable(m, p, n, e) && 0 < n
    ensures p < |m|
    ensures m[p] != 0 ==> Readable(m, p + 1, n - 1, e)
  {}

  lemma ReadableWord(m: seq<Byte>, p: nat, n: nat, e: nat)
    requires Readable(m, p, n, e) && 4 <= n && |m| % 4 == 0 && p % 4 == 0
    ensures p + 4 <= |m|
    ensures !Detects(WordAt(m, p)) ==> Readable(m, p + 4, n - 4, e)
  {
    hide Detects, WordAt;
    if p + n > |m| {
      InMemory(m, p, e);
      EndAhead(m, p, e);
    }
  }

  method Strncmp(m: array<Byte>, s1: nat, s2: nat, count: nat, ghost d: nat, ghost e: nat) returns (r: int)
    requires m.Length % 4 == 0 && s1 <= m.Length && s2 <= m.Length
    requires Readable(m[..], s1, count, d) && Readable(m[..], s2, count, e)
    ensures ComparesUpTo(m[..], s1, s2, count, r)
  {
    hide Detects, WordAt, Agree, Readable;
    assert Agree(m[..], s1, s2, 0) by { NoBytes(m[..], s1, s2); }
    if count == 0 {
      return 0;
    }
    var n, k: nat := count, 0;
    if s1 % 4 == 0 && s2 % 4 == 0 {
      var same := false;
      n, k, same := SkipEqualWords(m, s1, s2, count, d, e);
      if same {
        return 0;
      }
    }
    r := CompareUpTo(m, s1, s2, count, n, k, d, e);
  }

  /** Over equal words, unless the bytes run out or both strings end in one. */
  method SkipEqualWords(m: array<Byte>, s1: nat, s2: nat, count: nat, ghost d: nat, ghost e: nat)
    returns (n: nat, k: nat, same: bool)
    requires m.Length % 4 == 0 && s1 % 4 == 0 && s2 % 4 == 0 && 0 < count && Agree(m[..], s1, s2, 0)
    requires Readable(m[..], s1, count, d) && Readable(m[..], s2, count, e)
    ensures same ==> ComparesUpTo(m[..], s1, s2, count, 0)
    ensures !same ==> 0 < n && k + n == count && Agree(m[..], s1, s2, k)
    ensures !same ==> Readable(m[..], s1 + k, n, d) && Readable(m[..], s2 + k, n, e)
  {
    hide Detects, WordAt, Agree, Readable;
    n, k := count, 0;
    while n >= 4
      invariant 0 < n && k + n == count && k % 4 == 0 && Agree(m[..], s1, s2, k)
      invariant Readable(m[..], s1 + k, n, d) && Readable(m[..], s2 + k, n, e)
    {
      ReadableWord(m[..], s1 + k, n, d);
      ReadableWord(m[..], s2 + k, n, e);
      if WordAt(m[..], s1 + k) != WordAt(m[..], s2 + k) {
        break;
      }
      AgreeLonger(m[..], s1, s2, k);
      n := n - 4;
      if n == 0 || Detects(WordAt(m[..], s1 + k)) {
        return n, k, true;
      }
      k := k + 4;
    }
    return n, k, false;
  }

  method CompareUpTo(m: array<Byte>, s1: nat, s2: nat, count: nat, left: nat, from: nat, ghost d: nat, ghost e: nat)
    returns (r: int)
    requires 0 < left && from + left == count && Agree(m[..], s1, s2, from)
    requires Readable(m[..], s1 + from, left, d) && Readable(m[..], s2 + from, left, e)
    ensures ComparesUpTo(m[..], s1, s2, count, r)
  {
    hide Agree, Readable;
    var n, k := left, from;
    while true
      invariant 0 < n && k + n == count && Agree(m[..], s1, s2, k)
      invariant Readable(m[..], s1 + k, n, d) && Readable(m[..], s2 + k, n, e)
      decreases n
    {
      ReadableByte(m[..], s1 + k, n, d);
      ReadableByte(m[..], s2 + k, n, e);
      n := n - 1;
      if m[s1 + k] != m[s2 + k] {
        break;
      }
      if m[s1 + k] != 0 {
        AgreeOne(m[..], s1, s2, k);
      }
      if n == 0 || m[s1 + k] == 0 {
        assert m[s1 + k] == 0 ==> PartAt(m[..], s1, s2, k);
        return 0;
      }
      k := k + 1;
    }
    assert PartAt(m[..], s1, s2, k);
    return m[s1 + k] as int - m[s2 + k] as int;
  }

  /** A zero result means that the strings agree as far as `n` bytes tell. */
  lemma UpToEqual(m: seq<Byte>, p: nat, q: nat, n: nat, r: int)
    requires ComparesUpTo(m, p, q, n, r)
    ensures r == 0 <==> Agree(m, p, q, n) || exists k: nat :: k < n && EndTogether(m, p, q, k)
  {
    hide Agree;
    if r == 0 {
      if !Agree(m, p, q, n) {
        var k: nat :| k < n && PartAt(m, p, q, k) && r == m[p + k] as int - m[q + k] as int;
        assert EndTogether(m, p, q, k);
      }
    } else {
      var k: nat :| k < n && PartAt(m, p, q, k) && r == m[p + k] as int - m[q + k] as int;
      PartedFor(m, p, q, n, k);
    }
  }

  lemma PartedFor(m: seq<Byte>, p: nat, q: nat, n: nat, k: nat)
    requires k < n && PartAt(m, p, q, k) && m[p + k] != m[q + k]
    ensures !Agree(m, p, q, n) && forall j: nat :: !EndTogether(m, p, q, j)
  {
    if Agree(m, p, q, n) {
      SameByte(m, p, q, n, k);
    }
    forall j: nat
      ensures !EndTogether(m, p, q, j)
    {
      if EndTogether(m, p, q, j) {
        EndsFirst(m, p, q, j, k);
      }
    }
  }

  lemma EndsFirst(m: seq<Byte>, p: nat, q: nat, j: nat, k: nat)
    requires EndTogether(m, p, q, j) && PartAt(m, p, q, k)
    ensures m[p + k] == m[q + k]
  {
    if j < k {
      InSlice(m, p, p + k, p + j);
    } else {
      SameByte(m, p, q, j, k);
    }
  }

  // ----- strcpy.

  /** The memory after `n` bytes have been copied from `src` to `dst`. */
  function Copied(m: seq<Byte>, dst: nat, src: nat, n: nat): seq<Byte>
    requires dst + n <= |m| && src + n <= |m|
  {
    m[..dst] + m[src..src + n] + m[dst + n..]
  }

  lemma CopiedAt(m: seq<Byte>, dst: nat, src: nat, n: nat, i: nat)
    requires dst + n <= |m| && src + n <= |m| && i < |m|
    ensures |Copied(m, dst, src, n)| == |m|
    ensures Copied(m, dst, src, n)[i] == if dst <= i < dst + n then m[src + (i - dst)] else m[i]
  {}

  /** The copy does not run into what is still to be copied: it goes to a lower address, even one
      inside the string, or behind its end. */
  predicate Unharmed(dst: nat, src: nat, n: nat) {
    dst <= src || src + n <= dst
  }

  lemma CopiedNext(m: seq<Byte>, now: seq<Byte>, dst: nat, src: nat, n: nat, step: nat, total: nat)
    requires dst + total <= |m| && src + total <= |m| && n + step <= total && Unharmed(dst, src, total)
    requires now == Copied(m, dst, src, n)
    ensures now[src + n..src + total] == m[src + n..src + total]
    ensures Copied(now, dst + n, src + n, step) == Copied(m, dst, src, n + step)
  {
    forall i | src + n <= i < src + total
      ensures now[i] == m[i]
    {
      CopiedAt(m, dst, src, n, i);
    }
    assert now[src + n..src + n + step] == m[src + n..src + n + step];
    assert m[src..src + n + step] == m[src..src + n] + m[src + n..src + n + step];
    assert now[..dst + n] == m[..dst] + m[src..src + n];
    assert now[dst + n + step..] == m[dst + n + step..];
  }

  lemma StillEnds(m: seq<Byte>, now: seq<Byte>, p: nat, e: nat)
    requires Ends(m, p, e) && |now| == |m| && now[p..e + 1] == m[p..e + 1]
    ensures Ends(now, p, e)
  {
    assert forall i :: p <= i <= e ==> now[i] == now[p..e + 1][i - p] == m[p..e + 1][i - p] == m[i];
  }

  method CopyWord(m: array<Byte>, dst: nat, src: nat)
    requires dst + 4 <= m.Length && src + 4 <= m.Length
    modifies m
    ensures m[..] == Copied(old(m[..]), dst, src, 4)
  {
    hide Copied;
    ghost var was := m[..];
    m[dst], m[dst + 1], m[dst + 2], m[dst + 3] := m[src], m[src + 1], m[src + 2], m[src + 3];
    forall i | 0 <= i < |was|
      ensures |Copied(was, dst, src, 4)| == |was| && Copied(was, dst, src, 4)[i] == m[i]
    {
      CopiedAt(was, dst, src, 4, i);
    }
    CopiedSize(was, dst, src, 4);
  }

  lemma CopiedSize(m: seq<Byte>, dst: nat, src: nat, n: nat)
    requires dst + n <= |m| && src + n <= |m|
    ensures |Copied(m, dst, src, n)| == |m|
  {}

  method CopyByte(m: array<Byte>, dst: nat, src: nat)
    requires dst < m.Length && src < m.Length
    modifies m
    ensures m[..] == Copied(old(m[..]), dst, src, 1)
  {
    m[dst] := m[src];
  }

  lemma StartCopy(m: seq<Byte>, dst: nat, src: nat)
    requires dst <= |m| && src <= |m|
    ensures Copied(m, dst, src, 0) == m
  {}

  lemma StringSpan(m: seq<Byte>, p: nat, e: nat)
    requires Ends(m, p, e)
    ensures p <= e < |m|
  {}

  method Strcpy(m: array<Byte>, dst: nat, src: nat, ghost e: nat)
    requires m.Length % 4 == 0 && Ends(m[..], src, e)
    requires dst + (e + 1 - src) <= m.Length && Unharmed(dst, src, e + 1 - src)
    modifies m
    ensures m[..] == Copied(old(m[..]), dst, src, e + 1 - src)
  {
    hide Detects, WordAt, Copied, Ends;
    ghost var was, total := m[..], e + 1 - src;
    var n: nat := 0;
    InMemory(was, src, e);
    StringSpan(was, src, e);
    StartCopy(was, dst, src);
    if src % 4 == 0 && dst % 4 == 0 {
      while !Detects(WordAt(m[..], src + n))
        invariant n % 4 == 0 && src + n <= e && src + n + 4 <= m.Length
        invariant m[..] == Copied(was, dst, src, n) && Ends(m[..], src + n, e)
        decreases e - n
      {
        EndAhead(m[..], src + n, e);
        InMemory(m[..], src + n + 4, e);
        n := CopyOn(m, dst, src, n, 4, e, was);
      }
    }
    while true
      invariant src + n <= e && m[..] == Copied(was, dst, src, n) && Ends(m[..], src + n, e)
      decreases e - n
    {
      StringSpan(m[..], src + n, e);
      var c := m[src + n];
      ByteAhead(m[..], src + n, e);
      if c != 0 {
        ByteBehind(m[..], src + n, e);
      }
      n := CopyOn(m, dst, src, n, 1, e, was);
      if c == 0 {
        break;
      }
    }
  }

  lemma SameTail(a: seq<Byte>, b: seq<Byte>, m: seq<Byte>, i: nat, j: nat, e: nat)
    requires i <= j <= e <= |m| == |a| == |b| && a[i..e] == m[i..e] && b[j..e] == m[j..e]
    ensures b[j..e] == a[j..e]
  {
    assert a[j..e] == a[i..e][j - i..] && m[j..e] == m[i..e][j - i..];
  }

  lemma NoEnd(m: seq<Byte>, p: nat, e: nat)
    requires e < p
    ensures !Ends(m, p, e)
  {}

  method CopyOn(m: array<Byte>, dst: nat, src: nat, n: nat, step: nat, ghost e: nat, ghost was: seq<Byte>)
    returns (k: nat)
    requires (step == 1 || step == 4) && src + n + step <= e + 1 <= m.Length == |was|
    requires dst + (e + 1 - src) <= m.Length && Unharmed(dst, src, e + 1 - src)
    requires m[..] == Copied(was, dst, src, n)
    modifies m
    ensures k == n + step && m[..] == Copied(was, dst, src, k)
    ensures Ends(old(m[..]), src + k, e) ==> Ends(m[..], src + k, e)
  {
    hide Copied, Ends;
    ghost var before := m[..];
    CopiedNext(was, m[..], dst, src, n, step, e + 1 - src);
    if step == 4 {
      CopyWord(m, dst + n, src + n);
    } else {
      CopyByte(m, dst + n, src + n);
    }
    k := n + step;
    if src + k <= e {
      CopiedNext(was, m[..], dst, src, k, 0, e + 1 - src);
      SameTail(before, m[..], was, src + n, src + k, e + 1);
      if Ends(before, src + k, e) {
        StillEnds(before, m[..], src + k, e);
      }
    } else {
      NoEnd(before, src + k, e);
    }
  }
}
