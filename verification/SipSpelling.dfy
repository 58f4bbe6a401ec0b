/** Header values as other programs spell them: with blanks around the pieces, and with parameters that
    the parsers do not know. */
module SipSpelling {
  import opened Decimals
  import opened Words
  import opened SipHeaders

  predicate Blanks(text: string) {
    forall c :: c in text ==> Blank(c)
  }

  predicate AllBlanks(pads: seq<string>) {
    forall i :: 0 <= i < |pads| ==> Blanks(pads[i])
  }

  // ----- Blanks around a piece.

  lemma {:induction false} LeftPad(b: string, a: string)
    requires Blanks(b)
    ensures TrimLeft(b + a) == TrimLeft(a)
    decreases |b|
  {
    if b == "" {
      assert b + a == a;
    } else {
      assert b[0] in b && forall c :: c in b[1..] ==> c in b;
      assert (b + a)[1..] == b[1..] + a;
      LeftPad(b[1..], a);
    }
  }

  lemma {:induction false} RightPad(a: string, b: string)
    requires Blanks(b)
    ensures TrimRight(a + b) == TrimRight(a)
    decreases |b|
  {
    if b == "" {
      assert a + b == a;
    } else {
      var last := |b| - 1;
      assert b[last] in b && forall c :: c in b[..last] ==> c in b;
      assert (a + b)[..|a| + last] == a + b[..last];
      RightPad(a, b[..last]);
    }
  }

  lemma TrimPadded(b: string, a: string, d: string)
    requires Blanks(b) && Blanks(d) && Trimmed(a)
    ensures Trim(b + a + d) == a
  {
    assert b + a + d == b + (a + d);
    LeftPad(b, a + d);
    RightPad(a, d);
    if a == "" {
      assert a + d == d + "";
      LeftPad(d, "");
    } else {
      assert (a + d)[0] == a[0];
    }
  }

  /** A piece with blanks around it, in front of a separator. */
  lemma PieceBack(b: string, a: string, d: string, c: char, more: string, seps: string)
    requires Blanks(b) && Blanks(d) && Closed(a, seps) && Trimmed(a)
    requires c in seps && c != '<' && c != '"' && !exists x :: x in seps && Blank(x)
    ensures var text := b + a + d + [c] + more;
      && Cut(text, seps, false, Plain) == |b + a + d| < |text|
      && Trim(text[..|b + a + d|]) == a && text[|b + a + d| + 1..] == more
  {
    PlainClosed(b, seps);
    PlainClosed(d, seps);
    ClosedJoin(b, a, seps);
    ClosedJoin(b + a, d, seps);
    CutAt(b + a + d, c, more, seps);
    TrimPadded(b, a, d);
  }

  /** And at the end. */
  lemma LastBack(b: string, a: string, d: string, seps: string)
    requires Blanks(b) && Blanks(d) && Closed(a, seps) && Trimmed(a)
    requires !exists x :: x in seps && Blank(x)
    ensures var text := b + a + d;
      Cut(text, seps, false, Plain) == |text| && text[..|text|] == text && Trim(text) == a
  {
    PlainClosed(b, seps);
    PlainClosed(d, seps);
    ClosedJoin(b, a, seps);
    ClosedJoin(b + a, d, seps);
    TrimPadded(b, a, d);
  }

  // ----- Via.

  function ProtocolText(v: Via, p: seq<string>, host: string): string
    requires |p| == 5
  {
    p[0] + v.name + p[1] + "/" +
    (p[2] + v.version + p[3] + "/" + (p[4] + (TransportName(v.transport) + " " + host)))
  }

  function HostText(v: Via, p: seq<string>): string
    requires |p| == 4
  {
    p[0] + v.sentBy + p[1] + ":" + (p[2] + Text(v.port) + p[3] + ViaParams(v))
  }

  function PortlessText(v: Via, p: seq<string>): string
    requires |p| == 2
  {
    p[0] + v.sentBy + p[1] + ViaParams(v)
  }

  lemma ProtocolSpelled(v: Via, p: seq<string>, host: string)
    requires LegalVia(v) && |p| == 5 && AllBlanks(p)
    ensures ParseVia(ProtocolText(v, p, host)) ==
            ParseSentBy(host, Via(v.name, v.version, v.transport, "", 0, "", ""))
  {
    hide ParseSentBy, Cut, Trim, TrimLeft, Closed;
    var t := TransportName(v.transport) + [' '] + host;
    var rest := p[2] + v.version + p[3] + ['/'] + (p[4] + t);
    assert ProtocolText(v, p, host) == p[0] + v.name + p[1] + ['/'] + rest;
    PlainClosed(v.name, "/");
    PlainClosed(v.version, "/");
    PlainTrimmed(v.name);
    PlainTrimmed(v.version);
    PieceBack(p[0], v.name, p[1], '/', rest, "/");
    PieceBack(p[2], v.version, p[3], '/', p[4] + t, "/");
    LeftPad(p[4], t);
    TransportBack(v.transport, host);
  }

  /** A piece at the end, or in front of the parameters. */
  lemma BeforeParams(b: string, a: string, d: string, v: Via)
    requires Blanks(b) && Blanks(d) && Closed(a, ";") && Trimmed(a)
    ensures var text := b + a + d + ViaParams(v);
      var j := Cut(text, ";", false, Plain);
      && Trim(text[..j]) == a && (j < |text| <==> ViaParams(v) != "")
      && (j < |text| ==> text[j + 1..] == ViaParams(v)[1..])
  {
    hide Cut, Trim, Closed;
    var params := ViaParams(v);
    if params == "" {
      assert b + a + d + params == b + a + d;
      LastBack(b, a, d, ";");
    } else {
      assert params == [';'] + params[1..] && b + a + d + params == b + a + d + [';'] + params[1..];
      PieceBack(b, a, d, ';', params[1..], ";");
    }
  }

  lemma HostSpelled(v: Via, p: seq<string>, w: Via)
    requires LegalVia(v) && ':' !in v.sentBy && |p| == 4 && AllBlanks(p) && w.branch == w.received == ""
    ensures ParseSentBy(HostText(v, p), w) ==
            Some(w.(sentBy := v.sentBy, port := v.port, branch := v.branch, received := v.received))
  {
    hide Text, ViaParams, Cut, Trim, ParseViaParams, Closed;
    var rest := p[2] + Text(v.port) + p[3] + ViaParams(v);
    assert HostText(v, p) == p[0] + v.sentBy + p[1] + [':'] + rest;
    PlainClosed(v.sentBy, ":");
    PlainTrimmed(v.sentBy);
    PieceBack(p[0], v.sentBy, p[1], ':', rest, ":");
    TextPlain(v.port);
    PlainClosed(Text(v.port), ";");
    BeforeParams(p[2], Text(v.port), p[3], v);
    ValueText(v.port);
    NoParams(v);
    if ViaParams(v) != "" {
      ParamsBack(v, w.(sentBy := v.sentBy, port := v.port));
    }
  }

  lemma PortlessSpelled(v: Via, p: seq<string>, w: Via)
    requires LegalVia(v) && ':' !in v.sentBy && |p| == 2 && AllBlanks(p) && w.branch == w.received == ""
    requires NoColon(ViaParams(v))
    ensures ParseSentBy(PortlessText(v, p), w) ==
            Some(w.(sentBy := v.sentBy, port := 5060, branch := v.branch, received := v.received))
  {
    hide ViaParams, Cut, Trim, ParseViaParams, Closed;
    NoColonBefore(p[0] + v.sentBy + p[1], ViaParams(v));
    PlainClosed(v.sentBy, ";");
    PlainTrimmed(v.sentBy);
    BeforeParams(p[0], v.sentBy, p[1], v);
    NoParams(v);
    if ViaParams(v) != "" {
      ParamsBack(v, w.(sentBy := v.sentBy, port := 5060));
    }
  }

  lemma NoColonBefore(a: string, b: string)
    requires (forall c :: c in a ==> c !in ":<\"") && NoColon(b)
    ensures Cut(a + b, ":", false, Plain) == |a + b|
  {
    PlainClosed(a, ":");
    CutBehind(a, b, ":", Plain);
  }

  /** A legal Via means the same however many blanks stand around its pieces, with a port and without. */
  lemma ViaSpelled(v: Via, p: seq<string>, h: seq<string>, n: seq<string>)
    requires LegalVia(v) && ':' !in v.sentBy && AllBlanks(p) && AllBlanks(h) && AllBlanks(n)
    requires |p| == 5 && |h| == 4 && |n| == 2
    ensures ParseVia(ProtocolText(v, p, HostText(v, h))) == Some(v)
    ensures NoColon(ViaParams(v)) ==> ParseVia(ProtocolText(v, p, PortlessText(v, n))) == Some(v.(port := 5060))
  {
    hide ParseVia, ParseSentBy, ProtocolText, HostText, PortlessText, LegalVia, ViaParams, NoColon;
    var w := Via(v.name, v.version, v.transport, "", 0, "", "");
    ProtocolSpelled(v, p, HostText(v, h));
    HostSpelled(v, h, w);
    if NoColon(ViaParams(v)) {
      ProtocolSpelled(v, p, PortlessText(v, n));
      PortlessSpelled(v, n, w);
    }
  }

  // ----- Parameters.

  /** A parameter that the parser does not know is passed over. */
  lemma OtherViaParam(b: string, part: string, d: string, more: string, v: Via)
    requires Blanks(b) && Blanks(d) && Closed(part, ";") && Trimmed(part)
    requires !("branch=" <= part) && !("received=" <= part)
    ensures ParseViaParams(b + part + d + ";" + more, v) == ParseViaParams(more, v)
    ensures ParseViaParams(b + part + d, v) == Some(v)
  {
    hide Cut, Trim, Closed;
    assert b + part + d + ";" + more == b + part + d + [';'] + more;
    PieceBack(b, part, d, ';', more, ";");
    LastBack(b, part, d, ";");
  }

  /** Of two that it knows the later one counts. */
  lemma LaterBranch(x: string, y: string, v: Via)
    requires x != "" && Closed(x, ";") && !Blank(x[|x| - 1])
    requires y != "" && Closed(y, ";") && !Blank(y[|y| - 1])
    ensures ParseViaParams("branch=" + x + ";" + ("branch=" + y), v) == Some(v.(branch := y))
  {
    hide Cut, Trim, Closed;
    ParamPart("branch=", x, "branch=" + y);
    LastParam("branch=", y, v.(branch := x));
  }

  lemma OtherParam(b: string, part: string, d: string, more: string, a: Address)
    requires Blanks(b) && Blanks(d) && Closed(part, ";") && Trimmed(part) && !("tag=" <= part)
    ensures ParseParams(b + part + d + ";" + more, a) == ParseParams(more, a)
    ensures ParseParams(b + part + d, a) == Some(a)
  {
    hide Cut, Trim, Closed;
    assert b + part + d + ";" + more == b + part + d + [';'] + more;
    PieceBack(b, part, d, ';', more, ";");
    LastBack(b, part, d, ";");
  }

  lemma TagSpelled(b: string, tag: string, d: string, a: Address)
    requires Blanks(b) && Blanks(d) && tag != "" && Closed(tag, ";") && !Blank(tag[|tag| - 1])
    ensures ParseParams(b + ("tag=" + tag) + d, a) == Some(a.(tag := tag))
  {
    PlainClosed("tag=", ";");
    ClosedJoin("tag=", tag, ";");
    assert ("tag=" + tag)[4..] == tag && "tag=" <= "tag=" + tag;
    hide Cut, Trim, Closed;
    LastBack(b, "tag=" + tag, d, ";");
  }

  // ----- Addresses.

  function Lead(a: Address, p: seq<string>): string
    requires |p| == 3
  {
    if a.display == "" then "" else a.display + p[0]
  }

  function Inside(a: Address, p: seq<string>): string
    requires |p| == 3
  {
    p[1] + a.address + p[2]
  }

  /** A name, and the address in brackets. */
  function PartText(a: Address, p: seq<string>): string
    requires |p| == 3
  {
    Lead(a, p) + ("<" + (Inside(a, p) + if a.lr then ";lr" else "") + ">")
  }

  lemma LeadBack(a: Address, p: seq<string>, more: string)
    requires Legal(a) && '<' !in a.display && |p| == 3 && AllBlanks(p)
    ensures var text := Lead(a, p) + ['<'] + more;
      var k := Cut(text, "<", true, Plain);
      k < |text| && Trim(text[..k]) == a.display && text[k + 1..] == more
  {
    hide Cut, Trim;
    assert "<" == ['<'] && Blanks(p[0]);
    CutFirst(Lead(a, p), '<', more, Plain);
    var pad := if a.display == "" then "" else p[0];
    assert Lead(a, p) == "" + a.display + pad;
    TrimPadded("", a.display, pad);
  }

  lemma InsideBack(a: Address, p: seq<string>)
    requires Legal(a) && ';' !in a.address && |p| == 3 && AllBlanks(p)
    ensures var rest := Inside(a, p) + (if a.lr then ";lr" else "") + ">";
      var j, m := Cut(rest, ";", true, Plain), Cut(rest, ">", true, Plain);
      && (a.lr ==> j < |rest| && Trim(rest[..j]) == a.address && rest[j + 1..] == "lr>")
      && (!a.lr ==> j == |rest| && m < |rest| && Trim(rest[..m]) == a.address)
  {
    hide Cut, Trim;
    var inside := Inside(a, p);
    assert ";" == [';'] && ">" == ['>'] && Blanks(p[1]) && Blanks(p[2]);
    TrimPadded(p[1], a.address, p[2]);
    assert forall c :: c in inside ==> Blank(c) || c in a.address;
    if a.lr {
      assert inside + ";lr" + ">" == inside + [';'] + "lr>";
      CutFirst(inside, ';', "lr>", Plain);
    } else {
      assert inside + "" + ">" == inside + ['>'] + "";
      CutFirst(inside, '>', "", Plain);
      CutNowhere(inside + ">", ';', Plain);
    }
  }

  lemma PartSpelled(a: Address, p: seq<string>)
    requires Legal(a) && '<' !in a.display && ';' !in a.address && |p| == 3 && AllBlanks(p)
    ensures ParseFirst(PartText(a, p), NOWHERE) == Some(a.(tag := ""))
  {
    hide Cut, Trim, Legal, Lead, Inside;
    var rest := Inside(a, p) + (if a.lr then ";lr" else "") + ">";
    assert PartText(a, p) == Lead(a, p) + ['<'] + rest;
    LeadBack(a, p, rest);
    InsideBack(a, p);
    HasAddress(a);
    assert "lr" <= "lr>"[0..] && Contains("lr>", "lr");
  }

  lemma HasAddress(a: Address)
    requires Legal(a)
    ensures a.address != ""
  {}

  lemma PartClosed(a: Address, p: seq<string>)
    requires Legal(a) && |p| == 3 && AllBlanks(p)
    ensures Closed(PartText(a, p), ";") && Trimmed(PartText(a, p)) && PartText(a, p) != ""
  {
    hide Cut, ModeAfter;
    assert Blanks(p[0]) && Blanks(p[1]) && Blanks(p[2]);
    var inside := Inside(a, p) + if a.lr then ";lr" else "";
    assert '>' !in inside;
    BracketsClosed(inside, ";");
    PlainClosed(p[0], ";");
    PlainClosed("", ";");
    if a.display != "" {
      ClosedJoin(a.display, p[0], ";");
    }
    ClosedJoin(Lead(a, p), "<" + inside + ">", ";");
  }

  /** A legal address means the same however many blanks stand around its pieces: in brackets, and without
      them if it has neither name nor routing parameter. */
  lemma AddressSpelled(a: Address, p: seq<string>, q: seq<string>)
    requires Legal(a) && '<' !in a.display && ';' !in a.address && |p| == 3 && AllBlanks(p) && |q| == 4 && AllBlanks(q)
    ensures ParseAddress(q[0] + PartText(a, p) + q[1] +
                         if a.tag != "" then ";" + (q[2] + ("tag=" + a.tag) + q[3]) else "") == Some(a)
    ensures Closed(a.address, ";") && '<' !in a.address ==>
              ParseAddress(q[0] + a.address + q[1] +
                           if a.tag != "" then ";" + (q[2] + ("tag=" + a.tag) + q[3]) else "") ==
              Some(Address("", a.address, a.tag, false))
  {
    hide PartText, Legal, ParseAddress;
    PartClosed(a, p);
    PartSpelled(a, p);
    TaggedSpelled(a, PartText(a, p), q, a.(tag := ""));
    if Closed(a.address, ";") && '<' !in a.address {
      HasAddress(a);
      BareFirst(a);
      TaggedSpelled(a, a.address, q, Address("", a.address, "", false));
    }
  }

  lemma TaggedSpelled(a: Address, part: string, q: seq<string>, first: Address)
    requires Legal(a) && Closed(part, ";") && (part == a.address || Trimmed(part)) && |q| == 4 && AllBlanks(q)
    requires ParseFirst(part, NOWHERE) == Some(first)
    ensures ParseAddress(q[0] + part + q[1] + if a.tag != "" then ";" + (q[2] + ("tag=" + a.tag) + q[3]) else "") ==
            Some(if a.tag != "" then first.(tag := a.tag) else first)
  {
    hide Cut, Trim, ParseFirst, ParseParams, Closed;
    if a.tag != "" {
      var more := q[2] + ("tag=" + a.tag) + q[3];
      assert q[0] + part + q[1] + (";" + more) == q[0] + part + q[1] + [';'] + more;
      PieceBack(q[0], part, q[1], ';', more, ";");
      TagSpelled(q[2], a.tag, q[3], first);
    } else {
      assert q[0] + part + q[1] + "" == q[0] + part + q[1];
      LastBack(q[0], part, q[1], ";");
    }
  }

  // ----- CSeq.

  /** A sequence number and a method mean the same with any blanks around them and at least one between. */
  lemma CSeqSpelled(v: CSeq, b: string, d: string, e: string)
    requires v.sequence < 0x1_0000_0000 && Blanks(b) && Blanks(d) && Blanks(e)
    ensures ParseCSeq(b + (Text(Wrap(v.sequence)) + " " + (d + Name(v.request) + e))) == Some(v)
  {
    hide Text, Wrap, Unsigned, Name, Named, Cut, Trim, TrimLeft;
    var number, name := Text(Wrap(v.sequence)), d + Name(v.request) + e;
    LeftPad(b, number + " " + name);
    TextPlain(Wrap(v.sequence));
    NameBack(v.request);
    NumberedLoosely(number, name);
    TrimPadded(d, Name(v.request), e);
    SignBack(v.sequence);
  }

  lemma NumberedLoosely(number: string, name: string)
    requires number != "" && Trimmed(number) && forall c :: c in number ==> IsDigit(c) || c == '-'
    ensures var text := number + " " + name;
      && TrimLeft(text) == text && Cut(text, " \t", false, Plain) == |number| < |text|
      && Trim(text[..|number|]) == number && text[|number| + 1..] == name
  {
    var text := number + " " + name;
    PlainClosed(number, " \t");
    assert text == number + [' '] + name;
    CutAt(number, ' ', name, " \t");
    assert text[0] == number[0];
    TrimKeeps(number);
  }

  // ----- What is refused.

  lemma {:induction false} ParamsKeepTag(text: string, a: Address)
    ensures var p := ParseParams(text, a); p.Some? ==> p.value == a.(tag := p.value.tag)
    decreases |text|
  {
    var k := Cut(text, ";", false, Plain);
    if k < |text| {
      var part := Trim(text[..k]);
      ParamsKeepTag(text[k + 1..], if "tag=" <= part then a.(tag := part[4..]) else a);
    }
  }

  /** What is parsed at all has an address, and a Via has a protocol, a version and a host. */
  lemma NothingEmpty(text: string)
    ensures ParseAddress(text).Some? ==> ParseAddress(text).value.address != ""
    ensures ParseVia(text).Some? ==>
              var v := ParseVia(text).value;
              v.name != "" && v.version != "" && v.sentBy != ""
  {
    AddressNotEmpty(text);
    ViaNotEmpty(text);
  }

  lemma AddressNotEmpty(text: string)
    ensures ParseAddress(text).Some? ==> ParseAddress(text).value.address != ""
  {
    hide Cut, Trim, Contains, ParseParams;
    var k := Cut(text, ";", false, Plain);
    var first := ParseFirst(Trim(text[..k]), NOWHERE);
    if first.Some? && k < |text| {
      ParamsKeepTag(text[k + 1..], first.value);
    }
  }

  lemma SentByNotEmpty(text: string, w: Via)
    ensures var p := ParseSentBy(text, w);
      p.Some? ==> p.value.sentBy != "" && p.value.name == w.name && p.value.version == w.version
  {
    hide Cut, Trim, ParseViaParams, Wrap, Decimals.Value;
    var k := Cut(text, ":", false, Plain);
    var rest := if k < |text| then text[k + 1..] else text;
    var j := Cut(rest, ";", false, Plain);
    if j < |rest| {
      ParamsKeep(rest[j + 1..], if k < |text| then w.(sentBy := Trim(text[..k]), port := Wrap(Value(Trim(rest[..j]))))
                                else w.(sentBy := Trim(rest[..j]), port := 5060));
    }
  }

  lemma ViaNotEmpty(text: string)
    ensures ParseVia(text).Some? ==>
              var v := ParseVia(text).value;
              v.name != "" && v.version != "" && v.sentBy != ""
  {
    hide Cut, Trim, TrimLeft, ParseSentBy;
    var k := Cut(text, "/", false, Plain);
    if k < |text| {
      var rest := text[k + 1..];
      var j := Cut(rest, "/", false, Plain);
      if j < |rest| {
        var t := TrimLeft(rest[j + 1..]);
        var m := Cut(t, " \t", false, Plain);
        if m < |t| {
          var transport := if Trim(t[..m]) == "UDP" then UDP else TCP;
          SentByNotEmpty(t[m + 1..], Via(Trim(text[..k]), Trim(rest[..j]), transport, "", 0, "", ""));
        }
      }
    }
  }

  /** A known parameter without a value spoils the header. */
  lemma EmptyParam(head: string, b: string, d: string, more: string, v: Via, a: Address)
    requires Blanks(b) && Blanks(d) && (head == "tag=" || head == "branch=" || head == "received=")
    ensures head != "tag=" ==> ParseViaParams(b + head + d + ";" + more, v) == ParseViaParams(b + head + d, v) == None
    ensures head == "tag=" ==> ParseParams(b + head + d + ";" + more, a) == ParseParams(b + head + d, a) == None
  {
    PlainClosed(head, ";");
    hide Cut, Trim, Closed, Blanks;
    assert b + head + d + ";" + more == b + head + d + [';'] + more;
    PieceBack(b, head, d, ';', more, ";");
    LastBack(b, head, d, ";");
    Spoils(b + head + d + [';'] + more, head, v, a);
    Spoils(b + head + d, head, v, a);
  }

  lemma Spoils(text: string, head: string, v: Via, a: Address)
    requires Trim(text[..Cut(text, ";", false, Plain)]) == head
    requires head == "tag=" || head == "branch=" || head == "received="
    ensures if head == "tag=" then ParseParams(text, a) == None else ParseViaParams(text, v) == None
  {
    hide Cut, Trim;
  }

  /** So does any protocol but UDP and TCP. */
  lemma OtherProtocol(v: Via, protocol: string, host: string)
    requires LegalVia(v) && PlainText(protocol) && protocol != "" && protocol != "UDP" && protocol != "TCP"
    ensures ParseVia(v.name + "/" + v.version + "/" + protocol + " " + host) == None
  {
    hide Cut, Trim, TrimLeft, ParseSentBy, Closed;
    var t := protocol + [' '] + host;
    var rest := v.version + ['/'] + t;
    assert v.name + "/" + v.version + "/" + protocol + " " + host == v.name + ['/'] + rest;
    PlainPart(v.name, '/', rest, "/");
    PlainPart(v.version, '/', t, "/");
    ProtocolCut(protocol, host);
  }

  lemma ProtocolCut(protocol: string, host: string)
    requires PlainText(protocol) && protocol != ""
    ensures var t := TrimLeft(protocol + [' '] + host);
      var m := Cut(t, " \t", false, Plain);
      m < |t| && Trim(t[..m]) == protocol
  {
    var t := protocol + [' '] + host;
    PlainPart(protocol, ' ', host, " \t");
    assert t[0] == protocol[0] && protocol[0] in protocol;
    assert TrimLeft(t) == t;
  }

  /** And any method that is not known. */
  lemma OtherMethod(v: CSeq, name: string)
    requires v.sequence < 0x1_0000_0000 && Trimmed(name)
    ensures ParseCSeq(Text(Wrap(v.sequence)) + " " + name).Some? <==> Named(name).Some?
  {
    hide Text, Wrap, Unsigned, Named, Cut, Trim, TrimLeft;
    TextPlain(Wrap(v.sequence));
    NumberedLoosely(Text(Wrap(v.sequence)), name);
    TrimKeeps(name);
  }
}
