/** `itoa` and `atol`: numbers as decimal text, and back. */
module Decimals {
  import opened Words

  function Digit(d: nat): char
    requires d < 10
  {
    '0' + d as char
  }

  predicate IsDigit(c: char) {
    '0' <= c <= '9'
  }

  function DigitValue(c: char): nat
    requires IsDigit(c)
  {
    (c - '0') as nat
  }

  lemma DigitBack(d: nat)
    requires d < 10
    ensures IsDigit(Digit(d)) && DigitValue(Digit(d)) == d
  {}

  /** The digits of a number, the highest first; none for zero. */
  function Decimal(v: nat): string {
    if v == 0 then "" else Decimal(v / 10) + [Digit(v % 10)]
  }

  /** What `itoa` leaves in the buffer it is given. */
  function Text(value: int): string {
    if value < 0 then "-" + Decimal(-value) else if value == 0 then "0" else Decimal(value)
  }

  /** The text goes to `str` with a zero behind it. */
  method Itoa(value: Int32, str: array<char>) returns (n: nat)
    requires |Text(value)| < str.Length
    modifies str
    ensures n == |Text(value)| && str[..n] == Text(value) && str[n] == '\0'
    ensures forall i :: n < i < str.Length ==> str[i] == old(str[i])
  {
    hide Reversed, Wrap;
    var v: nat := 0;
    n := 0;
    if value < 0 {
      str[n] := '-';
      n := n + 1;
      v := Unsigned(Wrap(0 - value));
      NegatedWord(value);
    } else {
      if value == 0 {
        str[n] := '0';
        n := n + 1;
      }
      v := value;
    }
    ghost var sign := str[..n];
    var buffer := new char[11];
    var size := PutDigits(v, buffer);
    ReversedSize(buffer[..size]);
    n := PutBack(str, n, buffer, size);
    assert sign + Decimal(v) == Text(value);
    str[n] := '\0';
  }

  /** The digits go behind what is there, the last one first. */
  method PutBack(str: array<char>, at: nat, buffer: array<char>, size: nat) returns (n: nat)
    requires size <= buffer.Length && at + size <= str.Length && str != buffer
    modifies str
    ensures n == at + size && str[..n] == old(str[..at]) + Reversed(buffer[..size])
    ensures forall i :: n <= i < str.Length ==> str[i] == old(str[i])
  {
    var k := size;
    n := at;
    while k > 0
      invariant 0 <= k <= size && n == at + size - k
      invariant str[..n] + Reversed(buffer[..k]) == old(str[..at]) + Reversed(buffer[..size])
      invariant forall i :: n <= i < str.Length ==> str[i] == old(str[i])
    {
      k := k - 1;
      assert buffer[..k + 1][..k] == buffer[..k];
      ghost var before := str[..n];
      str[n] := buffer[k];
      n := n + 1;
      assert str[..n] == before + [buffer[k]];
    }
    assert buffer[..0] == [];
  }

  lemma NegatedWord(value: int)
    requires MIN <= value < 0
    ensures Unsigned(Wrap(-value)) == -value
  {}

  /** The lowest digit goes first. */
  method PutDigits(whole: nat, buffer: array<char>) returns (n: nat)
    requires whole <= -MIN && buffer.Length == 11
    modifies buffer
    ensures n <= 10 && Decimal(whole) == Reversed(buffer[..n])
  {
    var v := whole;
    n := 0;
    FewDigits(v, 10);
    while v != 0
      invariant n + |Decimal(v)| <= 10
      invariant Decimal(whole) == Decimal(v) + Reversed(buffer[..n])
    {
      buffer[n] := Digit(v % 10);
      assert buffer[..n + 1][..n] == buffer[..n];
      v := v / 10;
      n := n + 1;
    }
  }

  function Reversed(s: seq<char>): seq<char> {
    if s == [] then [] else [s[|s| - 1]] + Reversed(s[..|s| - 1])
  }

  lemma {:induction false} ReversedSize(s: seq<char>)
    ensures |Reversed(s)| == |s|
    decreases |s|
  {
    if s != [] {
      ReversedSize(s[..|s| - 1]);
    }
  }

  function Pow10(n: nat): nat {
    if n == 0 then 1 else 10 * Pow10(n - 1)
  }

  /** Ten digits are enough for 32 bits. */
  lemma {:induction false} DigitCount(v: nat, n: nat)
    requires v < Pow10(n)
    ensures |Decimal(v)| <= n
  {
    if v != 0 {
      DigitCount(v / 10, n - 1);
    }
  }

  lemma FewDigits(v: nat, n: nat)
    requires v <= 0x8000_0000 && n == 10
    ensures |Decimal(v)| <= n
  {
    assert Pow10(5) == 100000;
    assert Pow10(10) == 10000000000;
    DigitCount(v, 10);
  }

  lemma {:induction false} ManyDigits(v: nat, n: nat)
    requires v >= Pow10(n)
    ensures |Decimal(v)| > n
  {
    if n > 0 {
      ManyDigits(v / 10, n - 1);
    }
  }

  /** A buffer of eleven characters has room for a number and the zero behind it. */
  predicate FitsEleven(value: Int32) {
    |Text(value)| + 1 <= 11
  }

  /** It has unless the number has a sign and ten digits; twelve characters are enough for all. */
  lemma FitsElevenIff(value: Int32)
    ensures FitsEleven(value) <==> value >= -999999999
    ensures |Text(value)| + 1 <= 12
  {
    var v: nat := if value < 0 then 0 - value else value;
    FewDigits(v, 10);
    assert Pow10(4) == 10000;
    assert Pow10(9) == 1000000000;
    if v < 1000000000 {
      DigitCount(v, 9);
    } else {
      ManyDigits(v, 9);
    }
  }

  // ----- Back.

  /** The number read after `ret`, up to the first character that is not a digit. */
  function Read(s: string, ret: int): int {
    if s == "" || !IsDigit(s[0]) then ret else Read(s[1..], ret * 10 + DigitValue(s[0]))
  }

  function Value(s: string): int {
    if s != "" && s[0] == '-' then -Read(s[1..], 0) else Read(s, 0)
  }

  /** Wrapping on the way makes no difference to what 32 bits hold in the end. */
  lemma WrapSum(x: int, y: int)
    ensures Wrap(Wrap(x) + y) == Wrap(x + y)
  {
    SameWrap(x + y, Wrap(x) + y, (x + 0x8000_0000) / 0x1_0000_0000);
  }

  lemma SameWrap(x: int, y: int, n: int)
    requires x == y + n * 0x1_0000_0000
    ensures Wrap(x) == Wrap(y)
  {
    var m := (y + 0x8000_0000) / 0x1_0000_0000;
    assert x + 0x8000_0000 == (m + n) * 0x1_0000_0000 + (y + 0x8000_0000) % 0x1_0000_0000;
  }

  lemma WrapTimes(x: int)
    ensures Wrap(Wrap(x) * 10) == Wrap(x * 10) && Wrap(0 - Wrap(x)) == Wrap(-x)
  {
    var n := (x + 0x8000_0000) / 0x1_0000_0000;
    SameWrap(x * 10, Wrap(x) * 10, n * 10);
    SameWrap(-x, 0 - Wrap(x), -n);
  }

  /** One turn of the loop, in the order in which the code adds and subtracts. */
  function Turn(ret: int, c: char): int {
    Wrap(Wrap(Wrap(ret * 10) + c as int) - '0' as int)
  }

  lemma TurnWraps(ret: int, c: char)
    requires IsDigit(c)
    ensures Turn(Wrap(ret), c) == Wrap(ret * 10 + DigitValue(c))
  {
    WrapTimes(ret);
    WrapSum(ret * 10, c as int);
    WrapSum(ret * 10 + c as int, -('0' as int));
  }

  /** Of any text `atol` reads what 32 bits hold of its number. */
  method Atol(s: string) returns (r: int)
    ensures r == Wrap(Value(s))
  {
    var ret, neg, i := 0, false, 0;
    if |s| > 0 && s[0] == '-' {
      neg := true;
      i := i + 1;
    }
    ghost var digits, read := s[i..], 0;
    while i < |s| && IsDigit(s[i])
      invariant i <= |s| && ret == Wrap(read) && Read(s[i..], read) == Read(digits, 0)
    {
      assert s[i..][1..] == s[i + 1..];
      TurnWraps(read, s[i]);
      read := read * 10 + DigitValue(s[i]);
      ret := Turn(ret, s[i]);
      i := i + 1;
    }
    WrapTimes(read);
    r := if neg then Wrap(-ret) else ret;
  }

  lemma {:induction false} ReadAppend(s: string, c: char, ret: int)
    requires (forall i :: 0 <= i < |s| ==> IsDigit(s[i])) && IsDigit(c)
    ensures Read(s + [c], ret) == Read(s, ret) * 10 + DigitValue(c)
    decreases |s|
  {
    if s == "" {
      assert (s + [c])[1..] == "";
    } else {
      assert (s + [c])[1..] == s[1..] + [c];
      ReadAppend(s[1..], c, ret * 10 + DigitValue(s[0]));
    }
  }

  lemma {:induction false} ReadDecimal(v: nat)
    ensures forall i :: 0 <= i < |Decimal(v)| ==> IsDigit(Decimal(v)[i])
    ensures Read(Decimal(v), 0) == v
  {
    if v != 0 {
      ReadDecimal(v / 10);
      DigitBack(v % 10);
      ReadAppend(Decimal(v / 10), Digit(v % 10), 0);
    }
  }

  /** Reading back what was written gives the number; the least one too, as long as sums wrap. */
  lemma RoundTrip(value: int)
    requires MIN <= value <= MAX
    ensures Wrap(Value(Text(value))) == value
  {
    ValueText(value);
  }

  lemma ValueText(value: int)
    ensures Value(Text(value)) == value
  {
    ReadDecimal(if value < 0 then -value else value);
    if value < 0 {
      assert Text(value)[1..] == Decimal(-value);
    } else if value == 0 {
      assert Text(value)[1..] == "" && DigitValue('0') == 0;
    } else {
      DecimalStarts(value);
    }
  }

  lemma {:induction false} DecimalStarts(v: nat)
    requires v != 0
    ensures Decimal(v) != "" && IsDigit(Decimal(v)[0])
  {
    ReadDecimal(v);
  }

  // ----- When nothing wraps.

  /** Every value that reading the digits computes, in order. */
  function Computed(s: string, ret: int): seq<int> {
    if s == "" || !IsDigit(s[0]) then []
    else
      [ret * 10, ret * 10 + s[0] as int, ret * 10 + s[0] as int - '0' as int] +
      Computed(s[1..], ret * 10 + DigitValue(s[0]))
  }

  predicate Fit(s: seq<int>) {
    forall i :: 0 <= i < |s| ==> MIN <= s[i] <= MAX
  }

  /** Everything computed on the way to the value, its sign included. */
  function AllComputed(s: string): seq<int> {
    if s != "" && s[0] == '-' then Computed(s[1..], 0) + [Value(s)] else Computed(s, 0)
  }

  lemma {:induction false} ComputedFit(s: string, ret: nat)
    ensures ret <= Read(s, ret)
    ensures s != "" && IsDigit(s[0]) ==> (Fit(Computed(s, ret)) <==> Read(s, ret) <= MAX - '0' as int)
    ensures s == "" || !IsDigit(s[0]) ==> Computed(s, ret) == []
    decreases |s|
  {
    if s != "" && IsDigit(s[0]) {
      var next, rest := ret * 10 + DigitValue(s[0]), s[1..];
      ComputedFit(rest, next);
      var first := [ret * 10, ret * 10 + s[0] as int, ret * 10 + s[0] as int - '0' as int];
      FitAppend(first, Computed(rest, next));
      assert Fit(first) <==> next + '0' as int <= MAX by {
        assert first[1] == next + '0' as int;
      }
    }
  }

  lemma FitAppend(s: seq<int>, t: seq<int>)
    ensures Fit(s + t) <==> Fit(s) && Fit(t)
  {
    if Fit(s + t) {
      assert forall i :: 0 <= i < |s| ==> (s + t)[i] == s[i];
      assert forall i :: 0 <= i < |t| ==> (s + t)[|s| + i] == t[i];
    }
  }

  /** Since a character is added before '0' is subtracted, 32 bits are enough exactly for the
      numbers up to 48 short of the greatest one, whatever the text looks like. */
  lemma FitsIff(s: string)
    ensures Fit(AllComputed(s)) <==> -2147483599 <= Value(s) <= 2147483599
  {
    if s != "" && s[0] == '-' {
      ComputedFit(s[1..], 0);
      FitAppend(Computed(s[1..], 0), [Value(s)]);
      assert [Value(s)][0] == Value(s);
    } else {
      ComputedFit(s, 0);
    }
  }

  /** The first number that does not fit on the way, although it does in the end. */
  lemma JustTooLarge()
    ensures !Fit(AllComputed(Text(2147483600))) && Wrap(Value(Text(2147483600))) == 2147483600
  {
    ValueText(2147483600);
    FitsIff(Text(2147483600));
  }
}
