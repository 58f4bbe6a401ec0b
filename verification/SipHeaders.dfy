/** Header lines of SIP messages: the scanner that cuts text into pieces, and the parsers and
    printers of three headers against each other. */
module SipHeaders {
  import opened Decimals
  import opened Words

  // ----- The scanner.

  /** Whether it is inside angle brackets or quotes, where nothing separates. */
  datatype Mode = Plain | Angle | Quoted

  function NextMode(mode: Mode, c: char): Mode {
    match mode
    case Plain => if c == '<' then Angle else if c == '"' then Quoted else Plain
    case Angle => if c == '>' then Plain else Angle
    case Quoted => if c == '"' then Plain else Quoted
  }

  function ModeAfter(text: string, mode: Mode): Mode {
    if text == "" then mode else ModeAfter(text[1..], NextMode(mode, text[0]))
  }

  /** Does `c` separate? With `ignoreSpecial` it does anywhere. */
  predicate Cuts(mode: Mode, c: char, seps: string, ignoreSpecial: bool) {
    c in seps && (ignoreSpecial || (mode == Plain && c != '<' && c != '"'))
  }

  /** Where the first separator is, at the end for none. */
  function Cut(text: string, seps: string, ignoreSpecial: bool, mode: Mode): (k: nat)
    ensures k <= |text|
  {
    if text == "" || Cuts(mode, text[0], seps, ignoreSpecial) then 0
    else 1 + Cut(text[1..], seps, ignoreSpecial, NextMode(mode, text[0]))
  }

  predicate Blank(c: char) {
    c == ' ' || c == '\t'
  }

  function TrimLeft(text: string): (r: string)
    ensures |r| <= |text|
  {
    if text != "" && Blank(text[0]) then TrimLeft(text[1..]) else text
  }

  function TrimRight(text: string): (r: string)
    ensures |r| <= |text|
  {
    if text != "" && Blank(text[|text| - 1]) then TrimRight(text[..|text| - 1]) else text
  }

  function Trim(text: string): (r: string)
    ensures |r| <= |text|
  {
    TrimRight(TrimLeft(text))
  }

  predicate Trimmed(text: string) {
    text == "" || (!Blank(text[0]) && !Blank(text[|text| - 1]))
  }

  /** What `match` copies, with a zero behind it, has room in `size` characters. */
  predicate Fits(text: string, seps: string, ignoreSpecial: bool, size: nat) {
    Cut(text, seps, ignoreSpecial, Plain) < size
  }

  /** `match`: the text up to the first separator and the text behind it. The two flags of the code
      are never set together. `size` is that of the buffer for the result; `over` says that more
      has been written to it, after which nothing is known. */
  method Match(text: string, seps: string, ignoreSpecial: bool, size: nat)
    returns (found: bool, result: string, rest: string, over: bool)
    ensures over <==> !Fits(text, seps, ignoreSpecial, size)
    ensures !over ==>
              var k := Cut(text, seps, ignoreSpecial, Plain);
              && found == (k < |text|) && result == text[..k] && rest == if found then text[k + 1..] else text
  {
    var angle, quoted, i := false, false, 0;
    ghost var k, mode := Cut(text, seps, ignoreSpecial, Plain), Plain;
    assert text[0..] == text;
    while i < |text| && i < size
      invariant 0 <= i <= |text| && i <= size && k == i + Cut(text[i..], seps, ignoreSpecial, mode)
      invariant !ignoreSpecial ==> angle == mode.Angle? && quoted == mode.Quoted?
    {
      var p := text[i];
      assert text[i..][0] == p && text[i..][1..] == text[i + 1..];
      var skip := false;
      if !ignoreSpecial {
        if angle || quoted {
          if (angle && p == '>') || (quoted && p == '"') {
            angle, quoted := false, false;
          }
          skip := true;
        } else if p == '<' || p == '"' {
          angle, quoted := p == '<', p == '"';
          skip := true;
        }
      }
      if !skip && p in seps {
        return true, text[..i], text[i + 1..], false;
      }
      mode := NextMode(mode, p);
      i := i + 1;
    }
    assert text[..|text|] == text;
    return false, text, text, i == size;
  }

  /** `trim`. */
  method TrimBlanks(text: string) returns (r: string)
    ensures r == Trim(text)
  {
    r := SkipBlanks(text);
    ghost var left := r;
    var size := |r|;
    assert r[..size] == r;
    while size > 0 && Blank(r[size - 1])
      invariant 0 <= size <= |r| && TrimRight(r[..size]) == TrimRight(left)
    {
      assert r[..size][..size - 1] == r[..size - 1];
      size := size - 1;
    }
    r := r[..size];
  }

  /** `skip` of blanks. */
  method SkipBlanks(text: string) returns (r: string)
    ensures r == TrimLeft(text)
  {
    var i := 0;
    assert text[0..] == text;
    while i < |text| && Blank(text[i])
      invariant 0 <= i <= |text| && TrimLeft(text[i..]) == TrimLeft(text)
    {
      assert text[i..][1..] == text[i + 1..];
      i := i + 1;
    }
    r := text[i..];
  }

  method StartWith(text: string, head: string) returns (r: bool)
    ensures r <==> head <= text
  {
    if |text| < |head| {
      return false;
    }
    var i := 0;
    while i < |head|
      invariant 0 <= i <= |head| && text[..i] == head[..i]
    {
      if text[i] != head[i] {
        return false;
      }
      i := i + 1;
    }
    return true;
  }

  /** `contains` says yes of an empty text, whatever is looked for, and to a single character,
      wherever it is looked for. */
  predicate Contains(text: string, part: string) {
    text == "" || |part| == 1 || exists i :: 0 <= i <= |text| - |part| && part <= text[i..]
  }

  method ContainsText(text: string, part: string) returns (r: bool)
    requires part != ""
    ensures r <==> Contains(text, part)
  {
    var i := 0;
    while i < |text|
      invariant 0 <= i <= |text| && (i > 0 ==> |part| <= |text| - i + 1)
      invariant forall n :: 0 <= n < i && n <= |text| - |part| ==> !(part <= text[n..])
    {
      if |text| - i < |part| {
        return false;
      }
      var j := 0;
      while j < |part|
        invariant 0 <= j < |part| && text[i..i + j] == part[..j]
      {
        if text[i + j] != part[j] {
          break;
        }
        assert text[i..i + j + 1] == text[i..i + j] + [part[j]] && part[..j + 1] == part[..j] + [part[j]];
        if j == |part| - 1 {
          assert text[i..i + j + 1] == part;
          assert part <= text[i..];
          return true;
        }
        j := j + 1;
      }
      assert text[i..][j] == text[i + j];
      i := i + 1;
    }
    return true;
  }

  // ----- Laws of the scanner.

  /** Nothing separates in `text`, and it leaves no bracket or quote open. */
  predicate Closed(text: string, seps: string) {
    Cut(text, seps, false, Plain) == |text| && ModeAfter(text, Plain) == Plain
  }

  lemma {:induction false} CutBehind(a: string, b: string, seps: string, mode: Mode)
    requires Cut(a, seps, false, mode) == |a|
    ensures Cut(a + b, seps, false, mode) == |a| + Cut(b, seps, false, ModeAfter(a, mode))
    ensures ModeAfter(a + b, mode) == ModeAfter(b, ModeAfter(a, mode))
    decreases |a|
  {
    if a == "" {
      assert a + b == b;
    } else {
      assert (a + b)[1..] == a[1..] + b;
      CutBehind(a[1..], b, seps, NextMode(mode, a[0]));
    }
  }

  /** Without a bracket, a quote or a separator in it a text is closed. */
  lemma {:induction false} PlainClosed(a: string, seps: string)
    requires forall c :: c in a ==> c !in seps && c != '<' && c != '"'
    ensures Closed(a, seps)
    decreases |a|
  {
    if a != "" {
      assert a[0] in a && forall c :: c in a[1..] ==> c in a;
      PlainClosed(a[1..], seps);
    }
  }

  lemma ClosedJoin(a: string, b: string, seps: string)
    requires Closed(a, seps) && Closed(b, seps)
    ensures Closed(a + b, seps)
  {
    CutBehind(a, b, seps, Plain);
  }

  lemma {:induction false} InBrackets(a: string, seps: string)
    requires '>' !in a
    ensures Cut(a + ">", seps, false, Angle) == |a| + 1 && ModeAfter(a + ">", Angle) == Plain
    decreases |a|
  {
    if a != "" {
      assert (a + ">")[1..] == a[1..] + ">";
      InBrackets(a[1..], seps);
    } else {
      assert (a + ">")[1..] == "";
    }
  }

  lemma BracketsClosed(a: string, seps: string)
    requires '>' !in a
    ensures Closed("<" + a + ">", seps)
  {
    assert ("<" + a + ">")[1..] == a + ">";
    InBrackets(a, seps);
  }

  /** A closed text is cut off by the separator behind it. */
  lemma CutAt(a: string, c: char, b: string, seps: string)
    requires Closed(a, seps) && c in seps && c != '<' && c != '"'
    ensures Cut(a + [c] + b, seps, false, Plain) == |a|
    ensures (a + [c] + b)[..|a|] == a && (a + [c] + b)[|a| + 1..] == b
  {
    assert a + [c] + b == a + ([c] + b);
    CutBehind(a, [c] + b, seps, Plain);
  }

  /** With `ignoreSpecial` the first occurrence counts. */
  lemma {:induction false} CutFirst(a: string, c: char, b: string, mode: Mode)
    requires c !in a
    ensures Cut(a + [c] + b, [c], true, mode) == |a|
    ensures (a + [c] + b)[..|a|] == a && (a + [c] + b)[|a| + 1..] == b
    decreases |a|
  {
    if a != "" {
      assert (a + [c] + b)[1..] == a[1..] + [c] + b;
      CutFirst(a[1..], c, b, NextMode(mode, a[0]));
    } else {
      assert (a + [c] + b)[0] == c;
    }
  }

  lemma {:induction false} CutNowhere(a: string, c: char, mode: Mode)
    requires c !in a
    ensures Cut(a, [c], true, mode) == |a|
    decreases |a|
  {
    if a != "" {
      CutNowhere(a[1..], c, NextMode(mode, a[0]));
    }
  }

  /** What is found first is free of the separator. */
  lemma {:induction false} CutIsFirst(a: string, c: char, mode: Mode)
    ensures c !in a[..Cut(a, [c], true, mode)]
    ensures Cut(a, [c], true, mode) < |a| <==> c in a
    decreases |a|
  {
    if a != "" && a[0] != c {
      CutIsFirst(a[1..], c, NextMode(mode, a[0]));
      var k := Cut(a, [c], true, mode);
      assert a[..k] == [a[0]] + a[1..][..k - 1];
      assert c in a <==> c in a[1..] by {
        assert a == [a[0]] + a[1..];
      }
    }
  }

  lemma TrimKeeps(a: string)
    requires Trimmed(a)
    ensures Trim(a) == a
  {}

  lemma TrimSpaced(a: string)
    requires Trimmed(a)
    ensures Trim(" " + a) == a && Trim(a + " ") == a
  {
    var before, behind := " " + a, a + " ";
    assert before[1..] == a && TrimLeft(before) == TrimLeft(a) == a;
    if a == "" {
      assert behind == " " && behind[1..] == "";
    } else {
      assert behind[0] == a[0] && TrimLeft(behind) == behind;
      assert behind[..|a|] == a && Blank(behind[|behind| - 1]);
      assert TrimRight(a) == a;
    }
  }

  lemma {:induction false} TrimLeftPart(a: string)
    ensures forall c :: c in TrimLeft(a) ==> c in a
    decreases |a|
  {
    if a != "" && Blank(a[0]) {
      TrimLeftPart(a[1..]);
    }
  }

  lemma {:induction false} TrimRightPart(a: string)
    ensures forall c :: c in TrimRight(a) ==> c in a
    decreases |a|
  {
    if a != "" && Blank(a[|a| - 1]) {
      TrimRightPart(a[..|a| - 1]);
    }
  }

  lemma TrimPart(a: string)
    ensures forall c :: c in Trim(a) ==> c in a
  {
    TrimLeftPart(a);
    TrimRightPart(TrimLeft(a));
  }

  // ----- Lines.

  datatype Option<T> = None | Some(value: T)

  /** `getLine`: the first line without its end, and what follows it. */
  function GetLine(text: string): (bool, string, string) {
    var k := Cut(text, "\n", false, Plain);
    if k == |text| then (false, text, text)
    else (true, if k > 0 && text[k - 1] == '\r' then text[..k - 1] else text[..k], text[k + 1..])
  }

  /** The values of one line, for the headers that may have several. */
  function Values(text: string): seq<string>
    decreases |text|
  {
    var k := Cut(text, ",", false, Plain);
    [Trim(text[..k])] + if k < |text| then Values(text[k + 1..]) else []
  }

  /** The size of the buffers for a line, for a name and for what stands between separators. */
  const LINE := 512
  const PIECE := 255

  /** The line has room in its buffer, and the name in front of the colon in its own. */
  predicate LineFits(text: string) {
    Fits(text, "\n", false, LINE) && Fits(GetLine(text).1, ":", false, PIECE)
  }

  /** A header line, printed in front of anything, comes back as a line with that name and that one
      value; there is room for it exactly if name and line are not too long. */
  lemma LineBack(name: string, value: string, more: string)
    requires forall c :: c in name ==> c !in ":\n<\""
    requires Closed(value, "\n") && Closed(value, ",") && Trimmed(value)
    ensures var (line, text) := (name + ": " + value, name + ": " + value + "\r\n" + more);
      && (LineFits(text) <==> |name| <= 254 && |name| + |value| <= 508)
      && GetLine(text) == (true, line, more)
      && Cut(line, ":", false, Plain) == |name| && line[..|name|] == name
      && Trim(line[|name| + 1..]) == value && Values(line[|name| + 1..]) == [value]
  {
    hide GetLine, Values, Cut, Closed, Trim;
    LineEnds(name, value, more);
    NameEnds(name, value);
  }

  lemma LineEnds(name: string, value: string, more: string)
    requires (forall c :: c in name ==> c !in ":\n<\"") && Closed(value, "\n")
    ensures var text := name + ": " + value + "\r\n" + more;
      GetLine(text) == (true, name + ": " + value, more) && Cut(text, "\n", false, Plain) == |name| + |value| + 3
  {
    var line := name + ": " + value;
    PlainClosed(name + ": ", "\n");
    PlainClosed("\r", "\n");
    ClosedJoin(name + ": ", value, "\n");
    ClosedJoin(line, "\r", "\n");
    hide Closed, Cut;
    var text := line + "\r\n" + more;
    assert text == line + "\r" + ['\n'] + more;
    CutAt(line + "\r", '\n', more, "\n");
    assert (line + "\r")[..|line|] == line && text[..|line|] == line && text[|line|] == '\r';
  }

  lemma NameEnds(name: string, value: string)
    requires (forall c :: c in name ==> c !in ":\n<\"") && Closed(value, ",") && Trimmed(value)
    ensures var line := name + ": " + value;
      && Cut(line, ":", false, Plain) == |name| && line[..|name|] == name
      && Trim(line[|name| + 1..]) == value && Values(line[|name| + 1..]) == [value]
  {
    var rest := " " + value;
    assert name + ": " + value == name + [':'] + rest;
    PlainClosed(name, ":");
    CutAt(name, ':', rest, ":");
    PlainClosed(" ", ",");
    ClosedJoin(" ", value, ",");
    TrimSpaced(value);
    hide Cut, Trim;
    assert rest[..|rest|] == rest;
  }

  // ----- CSeq.

  datatype Method = ACK | BYE | INVITE | MESSAGE | NOTIFY | SUBSCRIBE | RESPONSE

  function Name(m: Method): string {
    match m
    case ACK => "ACK"
    case BYE => "BYE"
    case INVITE => "INVITE"
    case MESSAGE => "MESSAGE"
    case NOTIFY => "NOTIFY"
    case SUBSCRIBE => "SUBSCRIBE"
    case RESPONSE => "SIP/2.0"
  }

  function Named(text: string): Option<Method> {
    if text == "ACK" then Some(ACK)
    else if text == "BYE" then Some(BYE)
    else if text == "INVITE" then Some(INVITE)
    else if text == "MESSAGE" then Some(MESSAGE)
    else if text == "NOTIFY" then Some(NOTIFY)
    else if text == "SUBSCRIBE" then Some(SUBSCRIBE)
    else if text == "SIP/2.0" then Some(RESPONSE)
    else None
  }

  lemma NameBack(m: Method)
    ensures Named(Name(m)) == Some(m)
    ensures Name(m) != "" && Trimmed(Name(m)) && forall c :: c in Name(m) ==> c !in ":,\n<\""
  {}

  datatype CSeq = CSeq(sequence: nat, request: Method)

  function PrintCSeq(v: CSeq): string {
    Text(Wrap(v.sequence)) + " " + Name(v.request)
  }

  function ParseCSeq(text: string): Option<CSeq> {
    var t := TrimLeft(text);
    var k := Cut(t, " \t", false, Plain);
    if k == |t| then None
    else
      var m := Named(Trim(t[k + 1..]));
      if m.None? then None else Some(CSeq(Unsigned(Wrap(Value(Trim(t[..k])))), m.value))
  }

  lemma {:induction false} DecimalDigits(v: nat)
    ensures forall c :: c in Decimal(v) ==> IsDigit(c)
  {
    if v != 0 {
      DecimalDigits(v / 10);
    }
  }

  /** A number in a header has neither blanks nor separators. */
  lemma TextPlain(n: int)
    ensures Text(n) != "" && Trimmed(Text(n)) && forall c :: c in Text(n) ==> IsDigit(c) || c == '-'
  {
    DecimalDigits(if n < 0 then -n else n);
    if n > 0 {
      DecimalStarts(n);
    }
    forall c | c in Text(n)
      ensures IsDigit(c) || c == '-'
    {}
    assert Text(n)[0] in Text(n) && Text(n)[|Text(n)| - 1] in Text(n);
  }

  predicate CSeqFits(text: string) {
    Fits(TrimLeft(text), " \t", false, PIECE)
  }

  /** Printed and parsed it comes back, without a buffer being left. */
  predicate CSeqReturns(v: CSeq) {
    FitsEleven(Wrap(v.sequence)) && CSeqFits(PrintCSeq(v)) && ParseCSeq(PrintCSeq(v)) == Some(v)
  }

  /** The sequence numbers whose text is short enough: they are printed with a sign. */
  predicate Short(sequence: nat) {
    sequence < 0x8000_0000 || sequence > 0x1_0000_0000 - 1000000000
  }

  lemma ShortIff(sequence: nat)
    requires sequence < 0x1_0000_0000
    ensures FitsEleven(Wrap(sequence)) <==> Short(sequence)
  {
    FitsElevenIff(Wrap(sequence));
    assert Wrap(sequence) == if sequence < 0x8000_0000 then sequence else sequence - 0x1_0000_0000;
  }

  /** A sequence number of 32 bits comes back, with any method, exactly if it is short enough when
      it is printed with a sign; all others leave the encoder's buffer. */
  lemma CSeqRoundTripIff(v: CSeq)
    requires v.sequence < 0x1_0000_0000
    ensures CSeqReturns(v) <==> Short(v.sequence)
  {
    hide Text, Wrap, Unsigned, Name, Named, FitsEleven, Short;
    ShortIff(v.sequence);
    FitsElevenIff(Wrap(v.sequence));
    TextPlain(Wrap(v.sequence));
    NameBack(v.request);
    Numbered(Text(Wrap(v.sequence)), Name(v.request));
    SignBack(v.sequence);
  }

  /** The first one that does not. */
  lemma TwelveCharacters()
    ensures !CSeqReturns(CSeq(0x8000_0000, INVITE)) && !FitsEleven(Wrap(0x8000_0000))
  {
    CSeqRoundTripIff(CSeq(0x8000_0000, INVITE));
    ShortIff(0x8000_0000);
  }

  lemma SignBack(n: nat)
    requires n < 0x1_0000_0000
    ensures Unsigned(Wrap(Value(Text(Wrap(n))))) == n
  {
    ValueText(Wrap(n));
    hide Text, Decimals.Value;
    assert Wrap(n) == if n < 0x8000_0000 then n else n - 0x1_0000_0000;
  }

  /** A number and a name, with a blank between them. */
  lemma Numbered(number: string, name: string)
    requires number != "" && Trimmed(number) && (forall c :: c in number ==> IsDigit(c) || c == '-') && Trimmed(name)
    ensures var text := number + " " + name;
      && TrimLeft(text) == text && Cut(text, " \t", false, Plain) == |number| < |text|
      && Trim(text[..|number|]) == number && Trim(text[|number| + 1..]) == name
  {
    var text := number + " " + name;
    PlainClosed(number, " \t");
    assert text == number + [' '] + name;
    CutAt(number, ' ', name, " \t");
    assert text[0] == number[0];
    TrimKeeps(number);
    TrimKeeps(name);
  }

  lemma CSeqPlain(v: CSeq)
    ensures Trimmed(PrintCSeq(v)) && Closed(PrintCSeq(v), "\n") && Closed(PrintCSeq(v), ",")
  {
    hide Text, Wrap, Name;
    var number, name, text := Text(Wrap(v.sequence)), Name(v.request), PrintCSeq(v);
    TextPlain(Wrap(v.sequence));
    NameBack(v.request);
    assert forall c :: c in text ==> c in number || c == ' ' || c in name;
    PlainClosed(text, "\n");
    PlainClosed(text, ",");
    assert text[0] == number[0] && text[|text| - 1] == name[|name| - 1];
  }

  /** The line that is sent, in front of anything, yields the same. */
  predicate CSeqLineReturns(v: CSeq, more: string) {
    var text := "CSeq: " + PrintCSeq(v) + "\r\n" + more;
    var (found, line, rest) := GetLine(text);
    && FitsEleven(Wrap(v.sequence)) && LineFits(text) && found && rest == more
    && 4 < |line| && Cut(line, ":", false, Plain) == 4 && line[..4] == "CSeq"
    && CSeqFits(Trim(line[5..])) && ParseCSeq(Trim(line[5..])) == Some(v)
  }

  lemma CSeqLineIff(v: CSeq, more: string)
    requires v.sequence < 0x1_0000_0000
    ensures CSeqLineReturns(v, more) <==> Short(v.sequence)
  {
    hide PrintCSeq, ParseCSeq, Cut, Trim, GetLine, Closed, Values, FitsEleven, Short, LineFits, CSeqFits;
    CSeqPlain(v);
    LineBack("CSeq", PrintCSeq(v), more);
    CSeqRoundTripIff(v);
    CSeqSize(v);
    assert "CSeq" + ": " == "CSeq: ";
    ShortIff(v.sequence);
  }

  lemma CSeqSize(v: CSeq)
    ensures |PrintCSeq(v)| <= 21
  {
    FitsElevenIff(Wrap(v.sequence));
  }

  // ----- An address with its parameters: `From`, `To`, `Route`, `Record-Route` and `Contact`.

  /** An empty string stands for none. `lr` is the parameter for loose routing. */
  datatype Address = Address(display: string, address: string, tag: string, lr: bool)

  const NOWHERE := Address("", "", "", false)

  function Bracketed(a: Address): string {
    "<" + a.address + (if a.lr then ";lr" else "") + ">"
  }

  function Displayed(a: Address): string {
    (if a.display != "" then a.display + " " else "") + Bracketed(a)
  }

  /** `contact` says that the header is a `Contact`, in which a star stands alone. */
  function PrintAddress(a: Address, contact: bool): string {
    if contact && a.address == "*" then "*" else Displayed(a) + if a.tag != "" then ";tag=" + a.tag else ""
  }

  /** The part in front of the parameters. */
  function ParseFirst(part: string, a: Address): Option<Address> {
    var k := Cut(part, "<", true, Plain);
    var d := if k < |part| then a.(display := Trim(part[..k])) else a;
    var rest := if k < |part| then part[k + 1..] else part;
    var j, m := Cut(rest, ";", true, Plain), Cut(rest, ">", true, Plain);
    if j < |rest| then
      Addressed(d.(address := Trim(rest[..j]), lr := d.lr || Contains(rest[j + 1..], "lr")))
    else if k < |part| then
      if m == |rest| then None else Addressed(d.(address := Trim(rest[..m])))
    else Addressed(d.(address := part))
  }

  function Addressed(a: Address): Option<Address> {
    if a.address == "" then None else Some(a)
  }

  function ParseParams(text: string, a: Address): Option<Address>
    decreases |text|
  {
    var k := Cut(text, ";", false, Plain);
    var part := Trim(text[..k]);
    if part == "tag=" then None
    else
      var t := if "tag=" <= part then a.(tag := part[4..]) else a;
      if k < |text| then ParseParams(text[k + 1..], t) else Some(t)
  }

  function ParseInto(text: string, a: Address): Option<Address> {
    var k := Cut(text, ";", false, Plain);
    var first := ParseFirst(Trim(text[..k]), a);
    if first.None? then None else if k < |text| then ParseParams(text[k + 1..], first.value) else first
  }

  function ParseAddress(text: string): Option<Address> {
    ParseInto(text, NOWHERE)
  }

  // ----- The buffers of the address parser: `LINE` characters for a part, `PIECE` for a piece of it.

  predicate FirstFits(part: string) {
    var k := Cut(part, "<", true, Plain);
    Fits(part, "<", true, PIECE) && Fits(if k < |part| then part[k + 1..] else part, ";", true, PIECE)
  }

  predicate ParamsFit(text: string)
    decreases |text|
  {
    var k := Cut(text, ";", false, Plain);
    Fits(text, ";", false, LINE) && (k < |text| && Trim(text[..k]) != "tag=" ==> ParamsFit(text[k + 1..]))
  }

  predicate IntoFits(text: string, a: Address) {
    var k := Cut(text, ";", false, Plain);
    var part := Trim(text[..k]);
    && Fits(text, ";", false, LINE) && FirstFits(part)
    && (k < |text| && ParseFirst(part, a).Some? ==> ParamsFit(text[k + 1..]))
  }

  predicate AddressFits(text: string) {
    IntoFits(text, NOWHERE)
  }

  /** Printed and parsed it comes back, without a buffer being left. */
  predicate AddressReturns(a: Address, contact: bool) {
    AddressFits(PrintAddress(a, contact)) && ParseAddress(PrintAddress(a, contact)) == Some(a)
  }

  /** The parts are short enough for the parser's buffers. */
  predicate ShortAddress(a: Address) {
    && |a.display| <= 253 && |a.address| <= (if a.lr then 254 else 253) && |a.tag| <= 507
    && |Displayed(a)| <= 511
  }

  /** What the grammar of section 25.1 of RFC 3261 allows and more: no open bracket or quote, no
      semicolon outside quotes, no blanks around. */
  predicate Legal(a: Address) {
    && Trimmed(a.display) && Closed(a.display, ";")
    && a.address != "" && Trimmed(a.address) && '>' !in a.address
    && (a.tag != "" ==> Closed(a.tag, ";") && !Blank(a.tag[|a.tag| - 1]))
  }

  lemma DisplayedClosed(a: Address)
    requires Legal(a)
    ensures Closed(Displayed(a), ";") && Trimmed(Displayed(a)) && Displayed(a) != ""
  {
    hide Cut, ModeAfter;
    var inside := a.address + if a.lr then ";lr" else "";
    assert '>' !in inside;
    BracketsClosed(inside, ";");
    assert "<" + (a.address + if a.lr then ";lr" else "") + ">" == Bracketed(a);
    if a.display != "" {
      PlainClosed(" ", ";");
      ClosedJoin(a.display, " ", ";");
      ClosedJoin(a.display + " ", Bracketed(a), ";");
    } else {
      assert Displayed(a) == Bracketed(a);
    }
  }

  /** The display is cut off at its first bracket. */
  lemma FirstBracket(a: Address)
    requires Legal(a)
    ensures var (part, k) := (Displayed(a), Cut(Displayed(a), "<", true, Plain));
      && k < |part|
      && ('<' in a.display ==> '<' !in Trim(part[..k]))
      && ('<' !in a.display ==>
            Trim(part[..k]) == a.display && part[k + 1..] == a.address + (if a.lr then ";lr" else "") + ">")
  {
    var part := Displayed(a);
    var before := if a.display != "" then a.display + " " else "";
    var after := a.address + (if a.lr then ";lr" else "") + ">";
    assert part == before + ['<'] + after && "<" == ['<'];
    CutIsFirst(part, '<', Plain);
    TrimPart(part[..Cut(part, "<", true, Plain)]);
    if '<' !in a.display {
      CutFirst(before, '<', after, Plain);
      TrimSpaced(a.display);
      assert Cut(part, "<", true, Plain) == |before| && part[..|before|] == before && part[|before| + 1..] == after;
    }
  }

  /** The address ends at its first semicolon. */
  lemma FirstSemicolon(a: Address)
    requires Legal(a)
    ensures var rest := a.address + (if a.lr then ";lr" else "") + ">";
      var j, m := Cut(rest, ";", true, Plain), Cut(rest, ">", true, Plain);
      && (j < |rest| <==> a.lr || ';' in a.address)
      && (';' in a.address ==> ';' !in Trim(rest[..j]))
      && (';' !in a.address && a.lr ==> Trim(rest[..j]) == a.address && rest[j + 1..] == "lr>")
      && (!a.lr ==> m < |rest| && Trim(rest[..m]) == a.address)
  {
    var rest := a.address + (if a.lr then ";lr" else "") + ">";
    assert ";" == [';'] && ">" == ['>'];
    CutIsFirst(rest, ';', Plain);
    TrimPart(rest[..Cut(rest, ";", true, Plain)]);
    TrimKeeps(a.address);
    if ';' !in a.address && a.lr {
      assert rest == a.address + [';'] + "lr>";
      CutFirst(a.address, ';', "lr>", Plain);
      assert Cut(rest, ";", true, Plain) == |a.address|;
      assert rest[..|a.address|] == a.address && rest[|a.address| + 1..] == "lr>";
    }
    if !a.lr {
      assert rest == a.address + ['>'] + "";
      CutFirst(a.address, '>', "", Plain);
      assert Cut(rest, ">", true, Plain) == |a.address| && rest[..|a.address|] == a.address;
    }
  }

  lemma FirstBack(a: Address)
    requires Legal(a)
    ensures var p := ParseFirst(Displayed(a), NOWHERE);
      if '<' !in a.display && ';' !in a.address then p == Some(a.(tag := ""))
      else p.Some? ==> p.value.display != a.display || p.value.address != a.address
  {
    hide Cut, Trim, Displayed, Trimmed, Closed;
    FirstBracket(a);
    FirstSemicolon(a);
    assert "lr" <= "lr>"[0..];
    assert Contains("lr>", "lr");
  }

  lemma AddressParts(a: Address)
    requires Legal(a)
    ensures var (text, part) := (PrintAddress(a, false), Displayed(a));
      && Cut(text, ";", false, Plain) == |part| && text[..|part|] == part && Trim(part) == part
      && (a.tag == "" ==> text == part)
      && (a.tag != "" ==> |part| < |text| && text[|part| + 1..] == "tag=" + a.tag)
  {
    hide Displayed;
    var text, part := PrintAddress(a, false), Displayed(a);
    DisplayedClosed(a);
    TrimKeeps(part);
    if a.tag != "" {
      assert text == part + [';'] + ("tag=" + a.tag);
      CutAt(part, ';', "tag=" + a.tag, ";");
    } else {
      assert text == part && part[..|part|] == part;
    }
  }

  lemma TagBack(a: Address, b: Address)
    requires Legal(a) && a.tag != ""
    ensures ParseParams("tag=" + a.tag, b) == Some(b.(tag := a.tag))
  {
    var text := "tag=" + a.tag;
    PlainClosed("tag=", ";");
    ClosedJoin("tag=", a.tag, ";");
    assert text[..|text|] == text && text[4..] == a.tag;
    assert Trim(text) == text;
  }

  lemma AddressParsed(a: Address)
    requires Legal(a)
    ensures ParseAddress(PrintAddress(a, false)) == Some(a) <==> '<' !in a.display && ';' !in a.address
  {
    hide Cut, Trim, Displayed, ParseFirst, ParseParams, Legal;
    AddressParts(a);
    FirstBack(a);
    var first := ParseFirst(Displayed(a), NOWHERE);
    if a.tag != "" {
      TagBack(a, a.(tag := ""));
      if first.Some? {
        TagBack(a, first.value);
      }
    }
  }

  /** How much of the displayed address each piece takes. */
  lemma FirstSizes(a: Address)
    requires Legal(a) && '<' !in a.display && ';' !in a.address
    ensures FirstFits(Displayed(a)) <==> |a.display| <= 253 && |a.address| <= if a.lr then 254 else 253
  {
    hide Cut, Legal, Displayed;
    BracketAt(a);
    SemicolonAt(a);
  }

  lemma BracketAt(a: Address)
    requires '<' !in a.display
    ensures var (part, k) := (Displayed(a), Cut(Displayed(a), "<", true, Plain));
      && k == (if a.display != "" then |a.display| + 1 else 0) < |part|
      && part[k + 1..] == a.address + (if a.lr then ";lr" else "") + ">"
  {
    hide Cut;
    var before := if a.display != "" then a.display + " " else "";
    var after := a.address + (if a.lr then ";lr" else "") + ">";
    assert Displayed(a) == before + ['<'] + after && "<" == ['<'];
    CutFirst(before, '<', after, Plain);
  }

  lemma SemicolonAt(a: Address)
    requires ';' !in a.address
    ensures Cut(a.address + (if a.lr then ";lr" else "") + ">", ";", true, Plain) == |a.address| + if a.lr then 0 else 1
  {
    hide Cut;
    assert ";" == [';'];
    if a.lr {
      assert a.address + ";lr" + ">" == a.address + [';'] + "lr>";
      CutFirst(a.address, ';', "lr>", Plain);
    } else {
      assert a.address + "" + ">" == a.address + ">";
      CutNowhere(a.address + ">", ';', Plain);
    }
  }

  lemma TagFits(a: Address)
    requires Legal(a) && a.tag != ""
    ensures ParamsFit("tag=" + a.tag) <==> |a.tag| <= 507
  {
    var text := "tag=" + a.tag;
    PlainClosed("tag=", ";");
    ClosedJoin("tag=", a.tag, ";");
  }

  lemma AddressSizes(a: Address)
    requires Legal(a) && '<' !in a.display && ';' !in a.address
    ensures AddressFits(PrintAddress(a, false)) <==> ShortAddress(a)
  {
    hide Cut, Trim, Displayed, ParseFirst, ParamsFit, FirstFits, Legal;
    AddressParts(a);
    FirstSizes(a);
    FirstBack(a);
    if a.tag != "" {
      TagFits(a);
    }
  }

  /** A legal address comes back as it was printed exactly if its display has no bracket, not even
      in quotes, the address has no parameters of its own, and all is short enough. */
  lemma AddressRoundTripIff(a: Address)
    requires Legal(a)
    ensures AddressReturns(a, false) <==> '<' !in a.display && ';' !in a.address && ShortAddress(a)
  {
    hide ParseAddress, PrintAddress, AddressFits, Legal, ShortAddress;
    AddressParsed(a);
    if '<' !in a.display && ';' !in a.address {
      AddressSizes(a);
    }
  }

  /** A display of 254 characters leaves the buffer for a piece: a blank and a zero go behind it. */
  lemma DisplayTooLong(a: Address)
    requires Legal(a) && |a.display| == 254
    ensures !AddressReturns(a, false)
  {
    hide AddressReturns, Legal, Displayed;
    AddressRoundTripIff(a);
  }

  /** A short text never leaves a buffer. */
  lemma ShortText(text: string, a: Address)
    requires |text| < PIECE
    ensures IntoFits(text, a)
  {
    hide Cut, Trim, ParseFirst, ParamsFit;
    var k := Cut(text, ";", false, Plain);
    if k < |text| {
      ShortParams(text[k + 1..]);
    }
  }

  lemma {:induction false} ShortParams(text: string)
    requires |text| < PIECE
    ensures ParamsFit(text)
    decreases |text|
  {
    hide Cut, Trim;
    var k := Cut(text, ";", false, Plain);
    if k < |text| {
      ShortParams(text[k + 1..]);
    }
  }

  /** A parameter inside the brackets, which RFC 3261 allows, is lost. */
  lemma ParameterLost()
    ensures var a := Address("", "sip:a@b;c", "", false);
      AddressFits(PrintAddress(a, false)) && ParseAddress(PrintAddress(a, false)) != Some(a)
  {
    var a := Address("", "sip:a@b;c", "", false);
    assert a.address[7] == ';';
    assert Trimmed(a.address) && '>' !in a.address;
    AddressParsed(a);
    ShortText(PrintAddress(a, false), NOWHERE);
  }

  /** In a contact a star comes back as long as nothing else is asked of it. */
  lemma StarRoundTripIff(a: Address)
    requires a.address == "*"
    ensures AddressReturns(a, true) <==> a == Address("", "*", "", false)
  {
    PlainClosed("*", ";");
    CutNowhere("*", '<', Plain);
    CutNowhere("*", ';', Plain);
    assert "*"[..1] == "*" && Trim("*") == "*" && "<" == ['<'] && ";" == [';'];
  }

  // ----- An address without brackets, as other programs write it.

  function Bare(a: Address): string {
    a.address + if a.tag != "" then ";tag=" + a.tag else ""
  }

  /** Parsed it gives the address and the tag, and nothing else, without a buffer being left. */
  predicate BareReturns(a: Address) {
    AddressFits(Bare(a)) && ParseAddress(Bare(a)) == Some(Address("", a.address, a.tag, false))
  }

  lemma BareParts(a: Address)
    requires Legal(a) && Closed(a.address, ";")
    ensures var (text, part) := (Bare(a), a.address);
      && Cut(text, ";", false, Plain) == |part| && text[..|part|] == part && Trim(part) == part
      && (a.tag == "" ==> text == part)
      && (a.tag != "" ==> |part| < |text| && text[|part| + 1..] == "tag=" + a.tag)
  {
    TrimKeeps(a.address);
    hide Cut, Trim;
    if a.tag != "" {
      assert Bare(a) == a.address + [';'] + ("tag=" + a.tag);
      CutAt(a.address, ';', "tag=" + a.tag, ";");
    } else {
      assert Bare(a) == a.address;
    }
  }

  /** All of it is the address, unless there is a bracket or a semicolon in quotes. */
  lemma BareFirst(a: Address)
    requires Legal(a)
    ensures var p := ParseFirst(a.address, NOWHERE);
      if '<' !in a.address && ';' !in a.address then p == Some(Address("", a.address, "", false))
      else p.Some? ==> p.value.address != a.address
  {
    hide Cut, Trim, Contains;
    var part := a.address;
    assert "<" == ['<'] && ";" == [';'] && ">" == ['>'];
    CutIsFirst(part, '<', Plain);
    var k := Cut(part, "<", true, Plain);
    var rest := if k < |part| then part[k + 1..] else part;
    assert forall c :: c in rest ==> c in part;
    CutIsFirst(rest, ';', Plain);
    CutIsFirst(rest, '>', Plain);
  }

  lemma BareSizes(a: Address)
    requires Legal(a) && Closed(a.address, ";") && '<' !in a.address && ';' !in a.address
    ensures AddressFits(Bare(a)) <==> |a.address| <= 254 && |a.tag| <= 507
  {
    BareParts(a);
    BareFirst(a);
    assert "<" == ['<'] && ";" == [';'];
    CutNowhere(a.address, '<', Plain);
    CutNowhere(a.address, ';', Plain);
    if a.tag != "" {
      TagFits(a);
    }
    hide Cut, Trim, ParamsFit, ParseFirst;
  }

  /** An address without brackets, closed and legal otherwise, comes back exactly if it has no bracket and
      no semicolon, not even in quotes, and is short enough: its display is empty, and it does not ask for
      loose routing. */
  lemma BareIff(a: Address)
    requires Legal(a) && Closed(a.address, ";")
    ensures BareReturns(a) <==>
            '<' !in a.address && ';' !in a.address && |a.address| <= 254 && |a.tag| <= 507
  {
    BareParsed(a);
    if '<' !in a.address && ';' !in a.address {
      BareSizes(a);
    }
    hide Legal, Bare, AddressFits, ParseAddress, Closed;
  }

  lemma BareParsed(a: Address)
    requires Legal(a) && Closed(a.address, ";")
    ensures ParseAddress(Bare(a)) == Some(Address("", a.address, a.tag, false)) <==>
            '<' !in a.address && ';' !in a.address
  {
    hide Cut, Trim, ParseFirst, ParseParams, Bare, Legal, Closed;
    BareParts(a);
    BareFirst(a);
    var first := ParseFirst(a.address, NOWHERE);
    if a.tag != "" && first.Some? {
      TagBack(a, first.value);
    }
  }

  // ----- Via.

  datatype Transport = UDP | TCP

  datatype Via = Via(name: string, version: string, transport: Transport, sentBy: string, port: int,
                     branch: string, received: string)

  function TransportName(t: Transport): string {
    if t == UDP then "UDP" else "TCP"
  }

  function PrintVia(v: Via): string {
    v.name + "/" + v.version + "/" + TransportName(v.transport) + " " + v.sentBy + ":" + Text(v.port) + ViaParams(v)
  }

  function ParseViaParams(text: string, v: Via): Option<Via>
    decreases |text|
  {
    var k := Cut(text, ";", false, Plain);
    var part := Trim(text[..k]);
    if part == "branch=" || part == "received=" then None
    else
      var p := if "branch=" <= part then v.(branch := part[7..])
               else if "received=" <= part then v.(received := part[9..])
               else v;
      if k < |text| then ParseViaParams(text[k + 1..], p) else Some(p)
  }

  function ParseSentBy(text: string, v: Via): Option<Via> {
    var k := Cut(text, ":", false, Plain);
    var (host, rest) := if k < |text| then (Trim(text[..k]), text[k + 1..]) else ("", text);
    var j := Cut(rest, ";", false, Plain);
    var p := if k < |text| then v.(sentBy := host, port := Wrap(Value(Trim(rest[..j]))))
             else v.(sentBy := Trim(rest[..j]), port := 5060);
    if p.sentBy == "" then None
    else if j < |rest| then ParseViaParams(rest[j + 1..], p)
    else Some(p)
  }

  /** `branch` and `received` are what the object held before. */
  function ParseViaInto(text: string, branch: string, received: string): Option<Via> {
    var k := Cut(text, "/", false, Plain);
    if k == |text| || Trim(text[..k]) == "" then None
    else
      var rest := text[k + 1..];
      var j := Cut(rest, "/", false, Plain);
      if j == |rest| || Trim(rest[..j]) == "" then None
      else
        var t := TrimLeft(rest[j + 1..]);
        var m := Cut(t, " \t", false, Plain);
        if m == |t| || Trim(t[..m]) !in {"UDP", "TCP"} then None
        else
          var transport := if Trim(t[..m]) == "UDP" then UDP else TCP;
          ParseSentBy(t[m + 1..], Via(Trim(text[..k]), Trim(rest[..j]), transport, "", 0, branch, received))
  }

  function ParseVia(text: string): Option<Via> {
    ParseViaInto(text, "", "")
  }

  // ----- The buffer of the Via parser: `PIECE` characters for everything.

  predicate ViaParamsFit(text: string)
    decreases |text|
  {
    var k := Cut(text, ";", false, Plain);
    && Fits(text, ";", false, PIECE)
    && (k < |text| && Trim(text[..k]) != "branch=" && Trim(text[..k]) != "received=" ==> ViaParamsFit(text[k + 1..]))
  }

  predicate SentByFits(text: string) {
    var k := Cut(text, ":", false, Plain);
    var rest := if k < |text| then text[k + 1..] else text;
    var j := Cut(rest, ";", false, Plain);
    && Fits(text, ":", false, PIECE)
    && (k == |text| || Trim(text[..k]) != "" ==>
          && Fits(rest, ";", false, PIECE)
          && (j < |rest| && (k < |text| || Trim(rest[..j]) != "") ==> ViaParamsFit(rest[j + 1..])))
  }

  predicate ViaFits(text: string) {
    var k := Cut(text, "/", false, Plain);
    && Fits(text, "/", false, PIECE)
    && (k < |text| && Trim(text[..k]) != "" ==>
          var rest := text[k + 1..];
          var j := Cut(rest, "/", false, Plain);
          && Fits(rest, "/", false, PIECE)
          && (j < |rest| && Trim(rest[..j]) != "" ==>
                var t := TrimLeft(rest[j + 1..]);
                var m := Cut(t, " \t", false, Plain);
                && Fits(t, " \t", false, PIECE)
                && (m < |t| && Trim(t[..m]) in {"UDP", "TCP"} ==> SentByFits(t[m + 1..]))))
  }

  /** Printed and parsed it comes back, without a buffer being left. */
  predicate ViaReturns(v: Via)
    requires MIN <= v.port <= MAX
  {
    FitsEleven(v.port) && ViaFits(PrintVia(v)) && ParseVia(PrintVia(v)) == Some(v)
  }

  /** The parts are short enough, the port for the encoder's buffer, the others for the parser's. */
  predicate ShortVia(v: Via) {
    && v.port >= -999999999
    && |v.name| <= 254 && |v.version| <= 254 && |v.sentBy| <= 254
    && |v.branch| <= 247 && |v.received| <= 245
  }

  predicate PlainText(s: string) {
    forall c :: c in s ==> c !in "/;<\"" && !Blank(c)
  }

  /** The parts of the line are free of each other's separators; the host may have colons of its
      own, as an IPv6 reference has. */
  predicate LegalVia(v: Via) {
    && v.name != "" && PlainText(v.name) && v.version != "" && PlainText(v.version)
    && v.sentBy != "" && PlainText(v.sentBy) && MIN <= v.port <= MAX
    && (v.branch != "" ==> Closed(v.branch, ";") && !Blank(v.branch[|v.branch| - 1]))
    && (v.received != "" ==> Closed(v.received, ";") && !Blank(v.received[|v.received| - 1]))
  }

  function ViaParams(v: Via): string {
    (if v.branch != "" then ";branch=" + v.branch else "") + if v.received != "" then ";received=" + v.received else ""
  }

  lemma PlainTrimmed(s: string)
    requires PlainText(s)
    ensures Trimmed(s) && Trim(s) == s && TrimLeft(s) == s
  {
    if s != "" {
      assert s[0] in s && s[|s| - 1] in s;
    }
  }

  /** A parameter, at the end of the line and in front of another one. */
  lemma ParamPart(head: string, value: string, more: string)
    requires (head == "branch=" || head == "received=") && value != "" && Closed(value, ";")
    requires !Blank(value[|value| - 1])
    ensures var part := head + value;
      && Trim(part) == part && part[|head|..] == value && part != "branch=" && part != "received="
      && ("branch=" <= part <==> head == "branch=") && ("received=" <= part <==> head == "received=")
      && Cut(part, ";", false, Plain) == |part| && part[..|part|] == part
      && Cut(part + ";" + more, ";", false, Plain) == |part|
      && (part + ";" + more)[..|part|] == part && (part + ";" + more)[|part| + 1..] == more
  {
    var part := head + value;
    PlainClosed(head, ";");
    ClosedJoin(head, value, ";");
    CutAt(part, ';', more, ";");
    assert part + ";" + more == part + [';'] + more;
    hide Closed, Cut;
    PartHead(head, value);
  }

  lemma PartHead(head: string, value: string)
    requires (head == "branch=" || head == "received=") && value != "" && !Blank(value[|value| - 1])
    ensures var part := head + value;
      && Trim(part) == part && part[|head|..] == value && part != "branch=" && part != "received="
      && ("branch=" <= part <==> head == "branch=") && ("received=" <= part <==> head == "received=")
  {
    var part := head + value;
    assert part[0] == head[0];
    assert "branch="[0] == 'b' && "received="[0] == 'r';
    assert head <= part && |part| > |head|;
    assert !Blank(part[0]) && !Blank(part[|part| - 1]);
  }

  lemma LastParam(head: string, value: string, v: Via)
    requires (head == "branch=" || head == "received=") && value != "" && Closed(value, ";")
    requires !Blank(value[|value| - 1])
    ensures ParseViaParams(head + value, v) ==
            Some(if head == "branch=" then v.(branch := value) else v.(received := value))
  {
    hide Cut, Trim, Closed;
    ParamPart(head, value, "");
  }

  lemma BothParams(b: string, r: string, v: Via)
    requires b != "" && Closed(b, ";") && !Blank(b[|b| - 1])
    requires r != "" && Closed(r, ";") && !Blank(r[|r| - 1])
    ensures ParseViaParams("branch=" + b + ";" + ("received=" + r), v) == Some(v.(branch := b, received := r))
  {
    hide Cut, Trim, Closed;
    var more := "received=" + r;
    ParamPart("branch=", b, more);
    LastParam("received=", r, v.(branch := b));
  }

  lemma ParamsBack(v: Via, w: Via)
    requires LegalVia(v) && ViaParams(v) != "" && w.branch == w.received == ""
    ensures ParseViaParams(ViaParams(v)[1..], w) == Some(w.(branch := v.branch, received := v.received))
  {
    hide ParseViaParams, Closed, PlainText;
    var text := ViaParams(v)[1..];
    if v.branch == "" {
      assert text == "received=" + v.received;
      LastParam("received=", v.received, w);
    } else if v.received == "" {
      assert text == "branch=" + v.branch;
      LastParam("branch=", v.branch, w);
    } else {
      assert text == "branch=" + v.branch + ";" + ("received=" + v.received);
      BothParams(v.branch, v.received, w);
    }
  }

  /** Where the host ends, and what the port is read from. */
  lemma HostAndPort(v: Via)
    requires LegalVia(v) && ':' !in v.sentBy
    ensures var rest := Text(v.port) + ViaParams(v);
      var text := v.sentBy + ":" + rest;
      && Cut(text, ":", false, Plain) == |v.sentBy| && text[..|v.sentBy|] == v.sentBy && text[|v.sentBy| + 1..] == rest
      && Cut(rest, ";", false, Plain) == |Text(v.port)| && rest[..|Text(v.port)|] == Text(v.port)
      && (ViaParams(v) != "" ==> rest[|Text(v.port)| + 1..] == ViaParams(v)[1..])
  {
    hide Text;
    var port, params := Text(v.port), ViaParams(v);
    TextPlain(v.port);
    PlainClosed(v.sentBy, ":");
    assert v.sentBy + ":" + (port + params) == v.sentBy + [':'] + (port + params);
    CutAt(v.sentBy, ':', port + params, ":");
    PlainClosed(port, ";");
    if params == "" {
      assert port + params == port;
    } else {
      assert params == [';'] + params[1..] && port + params == port + [';'] + params[1..];
      CutAt(port, ';', params[1..], ";");
    }
  }

  lemma SentByBack(v: Via, w: Via)
    requires LegalVia(v) && ':' !in v.sentBy && w.branch == w.received == ""
    ensures ParseSentBy(v.sentBy + ":" + (Text(v.port) + ViaParams(v)), w) ==
            Some(w.(sentBy := v.sentBy, port := v.port, branch := v.branch, received := v.received))
  {
    hide Text, ViaParams, Cut, Trim, ParseViaParams;
    HostAndPort(v);
    PlainTrimmed(v.sentBy);
    TextPlain(v.port);
    TrimKeeps(Text(v.port));
    ValueText(v.port);
    NoParams(v);
    if ViaParams(v) != "" {
      ParamsBack(v, w.(sentBy := v.sentBy, port := v.port));
    }
  }

  lemma NoParams(v: Via)
    ensures ViaParams(v) == "" <==> v.branch == "" && v.received == ""
  {}

  /** With a colon in it the host is cut short. */
  lemma HostCut(v: Via, w: Via)
    requires LegalVia(v) && ':' in v.sentBy
    ensures var p := ParseSentBy(v.sentBy + ":" + (Text(v.port) + ViaParams(v)), w);
      p.Some? ==> p.value.sentBy != v.sentBy
  {
    hide Text, ViaParams, ParseSentBy;
    CutInHost(v.sentBy, Text(v.port) + ViaParams(v));
    KeptSentBy(v.sentBy + ":" + (Text(v.port) + ViaParams(v)), w);
  }

  lemma CutInHost(host: string, more: string)
    requires PlainText(host) && ':' in host
    ensures var text := host + ":" + more;
      var k := Cut(text, ":", false, Plain);
      k < |text| && ':' !in Trim(text[..k])
  {
    var i := FirstIn(host, ':');
    var text := host + ":" + more;
    assert text == host[..i] + [':'] + (host[i + 1..] + ":" + more);
    assert forall c :: c in host[..i] ==> c in host;
    PlainClosed(host[..i], ":");
    CutAt(host[..i], ':', host[i + 1..] + ":" + more, ":");
    TrimPart(host[..i]);
  }

  function FirstIn(s: string, c: char): (i: nat)
    requires c in s
    ensures i < |s| && s[i] == c && c !in s[..i]
  {
    if s[0] == c then 0
    else
      assert s == [s[0]] + s[1..];
      var i := FirstIn(s[1..], c);
      assert s[..i + 1] == [s[0]] + s[1..][..i];
      i + 1
  }

  lemma {:induction false} ParamsKeep(text: string, v: Via)
    ensures var p := ParseViaParams(text, v);
      p.Some? ==> p.value == v.(branch := p.value.branch, received := p.value.received)
    decreases |text|
  {
    var k := Cut(text, ";", false, Plain);
    if k < |text| {
      var part := Trim(text[..k]);
      ParamsKeep(text[k + 1..], if "branch=" <= part then v.(branch := part[7..])
                                else if "received=" <= part then v.(received := part[9..])
                                else v);
    }
  }

  lemma KeptSentBy(text: string, w: Via)
    requires Cut(text, ":", false, Plain) < |text|
    ensures var p := ParseSentBy(text, w);
      p.Some? ==> p.value.sentBy == Trim(text[..Cut(text, ":", false, Plain)])
  {
    hide Cut, Trim, ParseViaParams, Wrap, Decimals.Value;
    var k := Cut(text, ":", false, Plain);
    var rest := text[k + 1..];
    var j := Cut(rest, ";", false, Plain);
    if j < |rest| {
      ParamsKeep(rest[j + 1..], w.(sentBy := Trim(text[..k]), port := Wrap(Value(Trim(rest[..j])))));
    }
  }

  /** A part without separators in front of one. */
  lemma PlainPart(a: string, c: char, b: string, seps: string)
    requires PlainText(a) && c in seps && c !in "<\"" && forall x :: x in a ==> x !in seps
    ensures Cut(a + [c] + b, seps, false, Plain) == |a| && Trim((a + [c] + b)[..|a|]) == a
    ensures (a + [c] + b)[|a| + 1..] == b
  {
    PlainClosed(a, seps);
    CutAt(a, c, b, seps);
    PlainTrimmed(a);
  }

  lemma TransportBack(t: Transport, host: string)
    ensures var text := TransportName(t) + [' '] + host;
      && TrimLeft(text) == text && Cut(text, " \t", false, Plain) == 3
      && text[..3] == TransportName(t) && Trim(TransportName(t)) == TransportName(t) && text[4..] == host
  {
    var text := TransportName(t) + [' '] + host;
    PlainPart(TransportName(t), ' ', host, " \t");
    assert text[0] == TransportName(t)[0];
    assert text[..3] == TransportName(t);
    PlainTrimmed(TransportName(t));
  }

  /** What stands in front of the host. */
  lemma ProtocolBack(v: Via, host: string)
    requires LegalVia(v)
    ensures var text := v.name + "/" + v.version + "/" + TransportName(v.transport) + " " + host;
      && ParseVia(text) == ParseSentBy(host, Via(v.name, v.version, v.transport, "", 0, "", ""))
      && (ViaFits(text) <==> |v.name| <= 254 && |v.version| <= 254 && SentByFits(host))
  {
    hide ParseSentBy, SentByFits, Cut, Trim, TrimLeft;
    var t := TransportName(v.transport) + [' '] + host;
    var rest := v.version + ['/'] + t;
    assert v.name + "/" + v.version + "/" + TransportName(v.transport) + " " + host == v.name + ['/'] + rest;
    PlainPart(v.name, '/', rest, "/");
    PlainPart(v.version, '/', t, "/");
    TransportBack(v.transport, host);
  }

  lemma ViaParsed(v: Via)
    requires LegalVia(v)
    ensures ParseVia(PrintVia(v)) == Some(v) <==> ':' !in v.sentBy
    ensures ViaFits(PrintVia(v)) <==>
              |v.name| <= 254 && |v.version| <= 254 && SentByFits(v.sentBy + ":" + (Text(v.port) + ViaParams(v)))
  {
    hide Text, ViaParams, ParseVia, ViaFits, ParseSentBy, SentByFits, TransportName, LegalVia;
    var host := v.sentBy + ":" + (Text(v.port) + ViaParams(v));
    var w := Via(v.name, v.version, v.transport, "", 0, "", "");
    assert PrintVia(v) == v.name + "/" + v.version + "/" + TransportName(v.transport) + " " + host;
    ProtocolBack(v, host);
    assert w.branch == w.received == "";
    if ':' !in v.sentBy {
      SentByBack(v, w);
    } else {
      HostCut(v, w);
    }
  }

  lemma ParamsSizes(v: Via)
    requires LegalVia(v) && ViaParams(v) != ""
    ensures ViaParamsFit(ViaParams(v)[1..]) <==> |v.branch| <= 247 && |v.received| <= 245
  {
    hide Closed, PlainText, ViaParamsFit;
    var text := ViaParams(v)[1..];
    if v.branch == "" {
      assert text == "received=" + v.received;
      ParamSize("received=", v.received);
    } else if v.received == "" {
      assert text == "branch=" + v.branch;
      ParamSize("branch=", v.branch);
    } else {
      var more := "received=" + v.received;
      assert text == "branch=" + v.branch + ";" + more;
      BothSizes("branch=", v.branch, more);
      ParamSize("received=", v.received);
    }
  }

  lemma ParamSize(head: string, value: string)
    requires (head == "branch=" || head == "received=") && value != "" && Closed(value, ";")
    requires !Blank(value[|value| - 1])
    ensures ViaParamsFit(head + value) <==> |head| + |value| < PIECE
  {
    hide Closed, Cut, Trim;
    ParamPart(head, value, "");
  }

  lemma BothSizes(head: string, value: string, more: string)
    requires (head == "branch=" || head == "received=") && value != "" && Closed(value, ";")
    requires !Blank(value[|value| - 1])
    ensures ViaParamsFit(head + value + ";" + more) <==> |head| + |value| < PIECE && ViaParamsFit(more)
  {
    hide Closed, Cut, Trim;
    ParamPart(head, value, more);
  }

  lemma SentBySizes(v: Via)
    requires LegalVia(v) && ':' !in v.sentBy
    ensures SentByFits(v.sentBy + ":" + (Text(v.port) + ViaParams(v))) <==>
            |v.sentBy| <= 254 && |v.branch| <= 247 && |v.received| <= 245
  {
    hide Text, ViaParams, Cut, Trim, ViaParamsFit;
    HostAndPort(v);
    PlainTrimmed(v.sentBy);
    FitsElevenIff(v.port);
    NoParams(v);
    if ViaParams(v) != "" {
      ParamsSizes(v);
    }
  }

  /** A legal Via comes back as it was printed exactly if there is no colon in its host, and all is
      short enough. */
  lemma ViaRoundTripIff(v: Via)
    requires LegalVia(v)
    ensures ViaReturns(v) <==> ':' !in v.sentBy && ShortVia(v)
  {
    hide ParseVia, ViaFits, PrintVia, SentByFits, Text, ViaParams, FitsEleven;
    ViaParsed(v);
    FitsElevenIff(v.port);
    if ':' !in v.sentBy {
      SentBySizes(v);
    }
  }

  /** The least port leaves the encoder's buffer, whatever the rest of the line is. */
  lemma LeastPort(v: Via)
    requires LegalVia(v) && v.port == MIN
    ensures !FitsEleven(v.port) && !ViaReturns(v)
  {
    hide LegalVia, ViaReturns, FitsEleven;
    FitsElevenIff(MIN);
    ViaRoundTripIff(v);
  }

  /** An IPv6 reference for a host does not come back. */
  lemma ReferenceLost()
    ensures var v := Via("SIP", "2.0", UDP, "[::1]", 5060, "", "");
      LegalVia(v) && FitsEleven(v.port) && ParseVia(PrintVia(v)) != Some(v)
  {
    var v := Via("SIP", "2.0", UDP, "[::1]", 5060, "", "");
    assert v.sentBy[1] == ':';
    FitsElevenIff(v.port);
    ViaParsed(v);
  }

  // ----- A Via without a port, as other programs write it.

  function Portless(v: Via): string {
    v.name + "/" + v.version + "/" + TransportName(v.transport) + " " + v.sentBy + ViaParams(v)
  }

  /** Parsed it gives the same parts, and the port that SIP has by default, without a buffer being left. */
  predicate PortlessReturns(v: Via) {
    ViaFits(Portless(v)) && ParseVia(Portless(v)) == Some(v.(port := 5060))
  }

  /** No colon outside quotes and brackets. */
  predicate NoColon(text: string) {
    Cut(text, ":", false, Plain) == |text|
  }

  lemma {:induction false} TrimHolds(a: string, c: char)
    requires c in a && !Blank(c)
    ensures c in Trim(a)
  {
    TrimLeftHolds(a, c);
    TrimRightHolds(TrimLeft(a), c);
  }

  lemma {:induction false} TrimLeftHolds(a: string, c: char)
    requires c in a && !Blank(c)
    ensures c in TrimLeft(a)
    decreases |a|
  {
    if Blank(a[0]) {
      assert a == [a[0]] + a[1..];
      TrimLeftHolds(a[1..], c);
    }
  }

  lemma {:induction false} TrimRightHolds(a: string, c: char)
    requires c in a && !Blank(c)
    ensures c in TrimRight(a)
    decreases |a|
  {
    var last := |a| - 1;
    if Blank(a[last]) {
      assert a == a[..last] + [a[last]];
      TrimRightHolds(a[..last], c);
    }
  }

  /** Where the first colon is. */
  lemma PortlessColon(v: Via)
    requires LegalVia(v) && ':' !in v.sentBy
    ensures var (text, k) := (v.sentBy + ViaParams(v), Cut(v.sentBy + ViaParams(v), ":", false, Plain));
      && k == |v.sentBy| + Cut(ViaParams(v), ":", false, Plain)
      && (k < |text| ==> ';' in Trim(text[..k]))
  {
    hide Trim;
    PlainClosed(v.sentBy, ":");
    CutBehind(v.sentBy, ViaParams(v), ":", Plain);
    var text := v.sentBy + ViaParams(v);
    var k := Cut(text, ":", false, Plain);
    if k < |text| {
      assert ViaParams(v)[0] == ';' && text[|v.sentBy|] == ';';
      assert Cut(ViaParams(v), ":", false, Plain) > 0;
      assert text[..k][|v.sentBy|] == ';';
      TrimHolds(text[..k], ';');
    }
  }

  /** Without one the host ends at the parameters. */
  lemma PortlessHost(v: Via)
    requires LegalVia(v)
    ensures var text := v.sentBy + ViaParams(v);
      && Cut(text, ";", false, Plain) == |v.sentBy| && text[..|v.sentBy|] == v.sentBy
      && (ViaParams(v) != "" ==> text[|v.sentBy| + 1..] == ViaParams(v)[1..])
  {
    var params := ViaParams(v);
    PlainClosed(v.sentBy, ";");
    if params == "" {
      assert v.sentBy + params == v.sentBy;
    } else {
      assert params == [';'] + params[1..] && v.sentBy + params == v.sentBy + [';'] + params[1..];
      CutAt(v.sentBy, ';', params[1..], ";");
    }
  }

  lemma PortlessParsed(v: Via, w: Via)
    requires LegalVia(v) && ':' !in v.sentBy && w.branch == w.received == ""
    ensures ParseSentBy(v.sentBy + ViaParams(v), w) ==
              Some(w.(sentBy := v.sentBy, port := 5060, branch := v.branch, received := v.received)) <==>
            NoColon(ViaParams(v))
  {
    hide ViaParams, Cut, Trim, ParseViaParams;
    PortlessColon(v);
    PortlessHost(v);
    PlainTrimmed(v.sentBy);
    NoParams(v);
    if !NoColon(ViaParams(v)) {
      KeptSentBy(v.sentBy + ViaParams(v), w);
      assert ';' !in v.sentBy;
    } else if ViaParams(v) != "" {
      ParamsBack(v, w.(sentBy := v.sentBy, port := 5060));
    }
  }

  lemma PortlessSizes(v: Via)
    requires LegalVia(v) && ':' !in v.sentBy && NoColon(ViaParams(v))
    ensures SentByFits(v.sentBy + ViaParams(v)) <==> |v.sentBy| + |ViaParams(v)| <= 254
  {
    hide Cut, Trim, ViaParamsFit;
    PortlessColon(v);
    PortlessHost(v);
    PlainTrimmed(v.sentBy);
    if ViaParams(v) != "" {
      ParamsSizes(v);
    }
  }

  /** With a colon in it the host is cut short here too. */
  lemma PortlessHostCut(v: Via, w: Via)
    requires LegalVia(v) && ':' in v.sentBy
    ensures var p := ParseSentBy(v.sentBy + ViaParams(v), w);
      p.Some? ==> p.value.sentBy != v.sentBy
  {
    hide ViaParams, ParseSentBy;
    var i := FirstIn(v.sentBy, ':');
    var head, text := v.sentBy[..i], v.sentBy + ViaParams(v);
    assert text == head + [':'] + (v.sentBy[i + 1..] + ViaParams(v));
    assert forall c :: c in head ==> c in v.sentBy;
    PlainClosed(head, ":");
    CutAt(head, ':', v.sentBy[i + 1..] + ViaParams(v), ":");
    TrimPart(head);
    KeptSentBy(text, w);
  }

  /** A legal Via without a port comes back, with port 5060, exactly if there is no colon in its host, nor
      one outside quotes in its parameters, and all is short enough: the host with its parameters goes into
      one buffer, because a colon is looked for first. */
  lemma PortlessIff(v: Via)
    requires LegalVia(v)
    ensures PortlessReturns(v) <==>
            && ':' !in v.sentBy && NoColon(ViaParams(v))
            && |v.name| <= 254 && |v.version| <= 254 && |v.sentBy| + |ViaParams(v)| <= 254
  {
    hide ViaParams, ParseVia, ViaFits, ParseSentBy, SentByFits, TransportName, LegalVia, NoColon;
    var host := v.sentBy + ViaParams(v);
    var w := Via(v.name, v.version, v.transport, "", 0, "", "");
    assert Portless(v) == v.name + "/" + v.version + "/" + TransportName(v.transport) + " " + host;
    ProtocolBack(v, host);
    assert w.branch == w.received == "";
    if ':' !in v.sentBy {
      PortlessParsed(v, w);
      if NoColon(ViaParams(v)) {
        PortlessSizes(v);
      }
    } else {
      PortlessHostCut(v, w);
    }
  }

  // ----- The parsers and printers as the objects they fill.

  /** The text of a number, in a buffer of eleven characters. `over` says that it does not fit, after
      which nothing is known. */
  method PutNumber(value: Int32) returns (text: string, over: bool)
    ensures over <==> !FitsEleven(value)
    ensures !over ==> text == Text(value)
  {
    over := !FitsEleven(value);
    text := "";
    if !over {
      var buffer := new char[11];
      var n := Itoa(value, buffer);
      text := buffer[..n];
    }
  }

  class CSeqHeader {
    var sequence: nat
    var request: Option<Method>

    constructor ()
      ensures sequence == 0 && request == None
    {
      sequence, request := 0, None;
    }

    method Parse(sipMsg: string) returns (ok: bool, over: bool)
      modifies this
      ensures over <==> !CSeqFits(sipMsg)
      ensures !over ==> ok == ParseCSeq(sipMsg).Some?
      ensures !over && ok ==> request.Some? && CSeq(sequence, request.value) == ParseCSeq(sipMsg).value
    {
      var text := SkipBlanks(sipMsg);
      var matched, result, rest, left := Match(text, " \t", false, PIECE);
      if left || !matched {
        return false, left;
      }
      result := TrimBlanks(result);
      var n := Atol(result);
      sequence := Unsigned(n);
      rest := TrimBlanks(rest);
      request := Named(rest);
      return request.Some?, false;
    }

    method Encode() returns (text: string, over: bool)
      requires sequence < 0x1_0000_0000 && request.Some?
      ensures over <==> !FitsEleven(Wrap(sequence))
      ensures !over ==> text == "CSeq: " + PrintCSeq(CSeq(sequence, request.value)) + "\r\n"
    {
      var value, left := PutNumber(Wrap(sequence));
      if left {
        return "", true;
      }
      text := "CSeq: " + value + " " + Name(request.value) + "\r\n";
      assert text == "CSeq: " + (value + " " + Name(request.value)) + "\r\n";
      over := false;
    }
  }

  class AddressHeader {
    var display: string
    var address: string
    var tag: string
    var lr: bool

    constructor ()
      ensures View() == NOWHERE
    {
      display, address, tag, lr := "", "", "", false;
    }

    ghost function View(): Address
      reads this
    {
      Address(display, address, tag, lr)
    }

    method Parse(sipMsg: string) returns (ok: bool, over: bool)
      modifies this
      ensures over <==> !IntoFits(sipMsg, old(View()))
      ensures !over ==> ok == ParseInto(sipMsg, old(View())).Some?
      ensures !over && ok ==> View() == ParseInto(sipMsg, old(View())).value
    {
      hide Cut, Trim, ParseFirst, FirstFits;
      var matched, result, rest, left := Match(sipMsg, ";", false, LINE);
      if left {
        return false, true;
      }
      result := TrimBlanks(result);
      ok, over := ParsePart(result);
      if over || !ok {
        return;
      }
      while matched
        invariant matched ==> ParseInto(sipMsg, old(View())) == ParseParams(rest, View())
        invariant matched ==> (IntoFits(sipMsg, old(View())) <==> ParamsFit(rest))
        invariant !matched ==> ParseInto(sipMsg, old(View())) == Some(View()) && IntoFits(sipMsg, old(View()))
        decreases if matched then |rest| + 1 else 0
      {
        matched, result, rest, left := Match(rest, ";", false, LINE);
        if left {
          return false, true;
        }
        result := TrimBlanks(result);
        var tagged := StartWith(result, "tag=");
        if tagged {
          tag := result[4..];
          if tag == "" {
            assert result == "tag=";
            return false, false;
          }
        }
      }
      return true, false;
    }

    method ParsePart(part: string) returns (ok: bool, over: bool)
      modifies this
      ensures over <==> !FirstFits(part)
      ensures !over ==> ok == ParseFirst(part, old(View())).Some?
      ensures !over && ok ==> View() == ParseFirst(part, old(View())).value
    {
      hide Cut, Trim, Contains;
      ok, over := false, false;
      var matched1, aux, result, left1 := Match(part, "<", true, PIECE);
      if left1 {
        return false, true;
      }
      if matched1 {
        aux := TrimBlanks(aux);
        display := aux;
      }
      var matched2, before, behind, left2 := Match(result, ";", true, PIECE);
      if left2 {
        return false, true;
      }
      if matched2 {
        before := TrimBlanks(before);
        address := before;
        var loose := ContainsText(behind, "lr");
        lr := lr || loose;
      } else if matched1 {
        matched1, before, behind, left1 := Match(result, ">", true, PIECE);
        if !matched1 {
          return;
        }
        before := TrimBlanks(before);
        address := before;
      } else {
        address := result;
      }
      ok := address != "";
    }

    method EncodeDisplayed() returns (value: string)
      ensures value == Displayed(View())
    {
      value := "";
      if display != "" {
        value := value + display;
        value := value + " ";
      }
      ghost var before := value;
      value := value + "<";
      value := value + address;
      if lr {
        value := value + ";lr";
      }
      value := value + ">";
      assert value == before + Bracketed(View());
    }

    method Encode(name: string, contact: bool) returns (text: string)
      ensures text == name + ": " + PrintAddress(View(), contact) + "\r\n"
    {
      text := name + ": ";
      if contact && address == "*" {
        return text + "*\r\n";
      }
      var value := EncodeDisplayed();
      if tag != "" {
        value := value + ";tag=" + tag;
      }
      text := text + value;
      assert text == name + ": " + PrintAddress(View(), contact);
      text := text + "\r\n";
    }
  }

  class ViaHeader {
    var name: string
    var version: string
    var transport: Option<Transport>
    var sentBy: string
    var port: int
    var branch: string
    var received: string

    constructor ()
      ensures name == version == sentBy == branch == received == "" && transport == None && port == 0
    {
      name, version, transport, sentBy, port, branch, received := "", "", None, "", 0, "", "";
    }

    ghost function View(): Via
      requires transport.Some?
      reads this
    {
      Via(name, version, transport.value, sentBy, port, branch, received)
    }

    method Parse(sipMsg: string) returns (ok: bool, over: bool)
      modifies this
      ensures over <==> !ViaFits(sipMsg)
      ensures !over ==> ok == ParseViaInto(sipMsg, old(branch), old(received)).Some?
      ensures !over && ok ==> transport.Some? && View() == ParseViaInto(sipMsg, old(branch), old(received)).value
    {
      hide Cut, Trim, TrimLeft, ParseSentBy, SentByFits;
      var matched, result, rest, left := Match(sipMsg, "/", false, PIECE);
      if left || !matched {
        return false, left;
      }
      name := TrimBlanks(result);
      if name == "" {
        return false, false;
      }
      matched, result, rest, left := Match(rest, "/", false, PIECE);
      if left || !matched {
        return false, left;
      }
      version := TrimBlanks(result);
      if version == "" {
        return false, false;
      }
      rest := SkipBlanks(rest);
      matched, result, rest, left := Match(rest, " \t", false, PIECE);
      if left || !matched {
        return false, left;
      }
      result := TrimBlanks(result);
      transport := if result == "UDP" then Some(UDP) else if result == "TCP" then Some(TCP) else None;
      if transport.None? {
        return false, false;
      }
      ghost var w := Via(name, version, transport.value, "", 0, branch, received);
      SentByFresh(rest, View(), w);
      ok, over := ParseHost(rest);
    }

    /** Host and port are always written. */
    lemma SentByFresh(text: string, v: Via, w: Via)
      requires w == v.(sentBy := w.sentBy, port := w.port)
      ensures ParseSentBy(text, v) == ParseSentBy(text, w)
    {}

    method ParseHost(sipMsg: string) returns (ok: bool, over: bool)
      requires transport.Some?
      modifies this
      ensures transport == old(transport)
      ensures over <==> !SentByFits(sipMsg)
      ensures !over ==> ok == ParseSentBy(sipMsg, old(View())).Some?
      ensures !over && ok ==> View() == ParseSentBy(sipMsg, old(View())).value
    {
      hide Cut, Trim;
      ok, over := false, false;
      var matched, result, rest, left := Match(sipMsg, ":", false, PIECE);
      if left {
        return false, true;
      }
      if matched {
        sentBy := TrimBlanks(result);
        if sentBy == "" {
          return;
        }
        matched, result, rest, left := Match(rest, ";", false, PIECE);
        if left {
          return false, true;
        }
        result := TrimBlanks(result);
        port := Atol(result);
      } else {
        matched, result, rest, left := Match(rest, ";", false, PIECE);
        if left {
          return false, true;
        }
        sentBy := TrimBlanks(result);
        if sentBy == "" {
          return;
        }
        port := 5060;
      }
      ok := true;
      if matched {
        ok, over := ParseParameters(rest);
      }
    }

    method ParseParameters(params: string) returns (ok: bool, over: bool)
      requires transport.Some?
      modifies this
      ensures transport == old(transport)
      ensures over <==> !ViaParamsFit(params)
      ensures !over ==> ok == ParseViaParams(params, old(View())).Some?
      ensures !over && ok ==> View() == ParseViaParams(params, old(View())).value
    {
      hide Cut, Trim;
      var matched, result, rest, left := true, "", params, false;
      while matched
        invariant transport == old(transport)
        invariant matched ==> ParseViaParams(params, old(View())) == ParseViaParams(rest, View())
        invariant matched ==> (ViaParamsFit(params) <==> ViaParamsFit(rest))
        invariant !matched ==> ParseViaParams(params, old(View())) == Some(View()) && ViaParamsFit(params)
        decreases if matched then |rest| + 1 else 0
      {
        matched, result, rest, left := Match(rest, ";", false, PIECE);
        if left {
          return false, true;
        }
        result := TrimBlanks(result);
        DifferentHeads(result);
        var isBranch := StartWith(result, "branch=");
        var isReceived := StartWith(result, "received=");
        if isBranch {
          branch := result[7..];
          if branch == "" {
            assert result == "branch=";
            return false, false;
          }
        } else if isReceived {
          received := result[9..];
          if received == "" {
            assert result == "received=";
            return false, false;
          }
        }
      }
      return true, false;
    }

    lemma DifferentHeads(part: string)
      ensures "branch=" <= part ==> !("received=" <= part)
      ensures part == "branch=" ==> "branch=" <= part && part[7..] == ""
      ensures part == "received=" ==> "received=" <= part && part[9..] == ""
    {
      assert "branch=" <= part ==> part[0] == 'b';
      assert "received=" <= part ==> part[0] == 'r';
    }

    method Encode() returns (text: string, over: bool)
      requires transport.Some? && MIN <= port <= MAX
      ensures over <==> !FitsEleven(port)
      ensures !over ==> text == "Via: " + PrintVia(View()) + "\r\n"
    {
      var value, left := PutNumber(port);
      if left {
        return "", true;
      }
      var params := EncodeParameters();
      var protocol := name + "/" + version + "/" + TransportName(transport.value);
      text := "Via: " + (protocol + " " + sentBy + ":" + value + params);
      text := text + "\r\n";
      over := false;
    }

    method EncodeParameters() returns (params: string)
      requires transport.Some?
      ensures params == ViaParams(View())
    {
      params := "";
      if branch != "" {
        params := params + ";branch=" + branch;
      }
      if received != "" {
        params := params + ";received=" + received;
      }
    }
  }
}
