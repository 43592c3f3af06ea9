// The forms the parser reads and the printer never writes: addresses without a
// prefix length, the other words for an option, letter case, blanks, comments.
module Forms {
  import opened Text
  import opened Decimal
  import opened Ip
  import opened KeyText
  import opened Config
  import opened Parser
  import opened Writer
  import opened Values
  import LineText
  import HopScan

  // ----- Addresses -----

  // An address alone stands for itself: 32 bits of IPv4, 128 of IPv6.
  lemma {:induction false} BareAddress(ip: IP)
    ensures To4(ip).Some? ==> ParseIPCidr(Show(ip)) == Ok(IPCidr(To4(ip).value, 32))
    ensures To4(ip).None? ==> ParseIPCidr(Show(ip)) == Ok(IPCidr(ip, 128))
  {
    ShowIsAddressText(ip);
    AddressItem(Show(ip));
    IndexOfNone(Show(ip), '/');
    ParseShow(ip);
  }

  // The prefix length of all bits, and no length after the slash, say nothing.
  lemma {:induction false} FullLength(s: string, n: nat)
    requires '/' !in s && (ParseIP(s).Some? ==> n == Bits(ParseIP(s).value)) && n <= 128
    ensures ParseIPCidr(s + ['/'] + Itoa(n)) == ParseIPCidr(s) == ParseIPCidr(s + ['/'])
  {
    var t := s + ['/'] + Itoa(n);
    IndexOfNone(s, '/');
    IndexOfAt(s, '/', Itoa(n));
    IndexOfAt(s, '/', "");
    assert t[..|s|] == s && t[|s| + 1..] == Itoa(n);
    assert s + ['/'] + "" == s + ['/'];
    assert (s + ['/'])[..|s|] == s && (s + ['/'])[|s| + 1..] == "";
    AtoiOfItoa(n);
  }

  // ----- One line in place of another -----

  // The text with these lines around one line.
  function Around(before: seq<string>, line: string, after: seq<string>): (text: string) {
    LinesText(before + [line] + after)
  }

  // The line asks the parser for this.
  predicate AsksFor(line: string, d: Directive) {
    '\n' !in line && DirectiveOf(Classify(line)) == d
  }

  // Two lines that ask for the same can stand for each other in any text.
  lemma {:induction false} LineSwap(before: seq<string>, x: string, y: string, after: seq<string>, d: Directive, name: string)
    requires NewlineFree(before) && NewlineFree(after) && AsksFor(x, d) && AsksFor(y, d)
    ensures Parse(Around(before, x, after), name) == Parse(Around(before, y, after), name)
  {
    LinesOf(before, x, after);
    LinesOf(before, y, after);
    DirectivesAround(before, x, y, after + [""]);
  }

  lemma {:induction false} LinesOf(before: seq<string>, line: string, after: seq<string>)
    requires NewlineFree(before) && NewlineFree(after) && '\n' !in line
    ensures Split(Around(before, line, after), '\n') == before + [line] + (after + [""])
  {
    var lines := before + [line] + after;
    LineText.SplitRendered(lines);
    assert lines + [""] == before + [line] + (after + [""]);
  }

  lemma {:induction false} ClassifyAround(before: seq<string>, x: string, rest: seq<string>)
    ensures ClassifyAll(before + [x] + rest) == ClassifyAll(before) + [Classify(x)] + ClassifyAll(rest)
  {
  }

  lemma {:induction false} DirectivesOfThree(before: seq<Line>, x: Line, rest: seq<Line>)
    ensures Directives(before + [x] + rest) == Directives(before) + [DirectiveOf(x)] + Directives(rest)
  {
  }

  lemma {:induction false} DirectivesSame(before: seq<Line>, x: Line, y: Line, rest: seq<Line>)
    requires DirectiveOf(x) == DirectiveOf(y)
    ensures Directives(before + [x] + rest) == Directives(before + [y] + rest)
  {
    DirectivesOfThree(before, x, rest);
    DirectivesOfThree(before, y, rest);
  }

  lemma {:induction false} DirectivesAround(before: seq<string>, x: string, y: string, rest: seq<string>)
    requires DirectiveOf(Classify(x)) == DirectiveOf(Classify(y))
    ensures Directives(ClassifyAll(before + [x] + rest)) == Directives(ClassifyAll(before + [y] + rest))
  {
    ClassifyAround(before, x, rest);
    ClassifyAround(before, y, rest);
    DirectivesSame(ClassifyAll(before), Classify(x), Classify(y), ClassifyAll(rest));
  }

  // ----- Lists of prefixes -----

  // The line of a list of prefixes.
  function ListLine(key: OptionKey, items: seq<string>): (line: string)
    requires key == Address || key == AllowedIPs
  {
    KeyName(key) + " = " + JoinComma(items)
  }

  lemma {:induction false} CidrsCons(x: string, items: seq<string>)
    ensures ParseIPCidrs([x] + items) ==
      match ParseIPCidr(x)
      case Err(e) => Err(e)
      case Ok(a) => match ParseIPCidrs(items) case Err(e) => Err(e) case Ok(rest) => Ok([a] + rest)
  {
    assert ([x] + items)[1..] == items;
  }

  lemma {:induction false} SameBehind(x: string, a: seq<string>, b: seq<string>)
    requires ParseIPCidrs(a) == ParseIPCidrs(b)
    ensures ParseIPCidrs([x] + a) == ParseIPCidrs([x] + b)
  {
    CidrsCons(x, a);
    CidrsCons(x, b);
  }

  lemma {:induction false} SameInFront(s: string, t: string, items: seq<string>)
    requires ParseIPCidr(s) == ParseIPCidr(t)
    ensures ParseIPCidrs([s] + items) == ParseIPCidrs([t] + items)
  {
    CidrsCons(s, items);
    CidrsCons(t, items);
  }

  lemma {:induction false} SameItem(pre: seq<string>, s: string, t: string, post: seq<string>)
    requires ParseIPCidr(s) == ParseIPCidr(t)
    ensures ParseIPCidrs(pre + ([s] + post)) == ParseIPCidrs(pre + ([t] + post))
  {
    if pre == [] {
      SameInFront(s, t, post);
      assert pre + ([s] + post) == [s] + post && pre + ([t] + post) == [t] + post;
    } else {
      SameItem(pre[1..], s, t, post);
      ConsBehind(pre, [s] + post);
      ConsBehind(pre, [t] + post);
      SameBehind(pre[0], pre[1..] + ([s] + post), pre[1..] + ([t] + post));
    }
  }

  lemma {:induction false} ConsBehind(pre: seq<string>, items: seq<string>)
    requires pre != []
    ensures pre + items == [pre[0]] + (pre[1..] + items)
  {
  }

  // What a list of prefixes asks for.
  function ListAsks(key: OptionKey, a: Result<seq<IPCidr>>): (d: Directive) {
    if key == Address then InterfaceAddresses(a) else PeerAllowedIPs(a)
  }

  lemma {:induction false} ListLineAsks(key: OptionKey, items: seq<string>)
    requires key == Address || key == AllowedIPs
    requires items != [] && PlainItems(items)
    ensures AsksFor(ListLine(key, items), ListAsks(key, ParseIPCidrs(items)))
  {
    ListValue(items);
    LineText.ClassifyEntry(key, KeyName(key), JoinComma(items));
  }

  // Leaving out a full-length suffix anywhere in a list leaves the meaning of
  // the whole text as it was.
  lemma {:induction false} SuffixLeftOut(before: seq<string>, after: seq<string>, key: OptionKey, pre: seq<string>, s: string, post: seq<string>, name: string)
    requires NewlineFree(before) && NewlineFree(after) && (key == Address || key == AllowedIPs)
    requires PlainItems(pre) && PlainItems(post) && PlainItem(s) && '/' !in s && ParseIP(s).Some?
    ensures
      var full := s + ['/'] + Itoa(Bits(ParseIP(s).value));
      Parse(Around(before, ListLine(key, pre + [full] + post), after), name)
        == Parse(Around(before, ListLine(key, pre + [s] + post), after), name)
  {
    var n := Bits(ParseIP(s).value);
    var full := s + ['/'] + Itoa(n);
    FullLength(s, n);
    SuffixedItem(s, n);
    SameItem(pre, full, s, post);
    assert pre + [full] + post == pre + ([full] + post) && pre + [s] + post == pre + ([s] + post);
    PlainAround(pre, full, post);
    PlainAround(pre, s, post);
    SameLists(before, after, key, pre + [full] + post, pre + [s] + post, name);
  }

  lemma {:induction false} PlainAround(pre: seq<string>, s: string, post: seq<string>)
    requires PlainItems(pre) && PlainItem(s) && PlainItems(post)
    ensures PlainItems(pre + [s] + post)
  {
  }

  lemma {:induction false} SameLists(before: seq<string>, after: seq<string>, key: OptionKey, a: seq<string>, b: seq<string>, name: string)
    requires NewlineFree(before) && NewlineFree(after) && (key == Address || key == AllowedIPs)
    requires a != [] && PlainItems(a) && b != [] && PlainItems(b) && ParseIPCidrs(a) == ParseIPCidrs(b)
    ensures Parse(Around(before, ListLine(key, a), after), name) == Parse(Around(before, ListLine(key, b), after), name)
  {
    ListLineAsks(key, a);
    ListLineAsks(key, b);
    LineSwap(before, ListLine(key, a), ListLine(key, b), after, ListAsks(key, ParseIPCidrs(a)), name);
  }

  lemma {:induction false} SuffixedItem(s: string, n: nat)
    requires PlainItem(s)
    ensures PlainItem(s + ['/'] + Itoa(n))
  {
    var t := s + ['/'] + Itoa(n);
    assert t[0] == s[0] && t[|t| - 1] == Itoa(n)[|Itoa(n)| - 1];
  }

  // ----- Words -----

  function OptionLine(key: OptionKey, val: string): (line: string)
    requires HasName(key)
  {
    KeyName(key) + " = " + val
  }

  lemma {:induction false} OptionAsks(key: OptionKey, val: string, d: Directive)
    requires HasName(key) && ValueText(val) && EntryDirective(key, val) == d
    ensures AsksFor(OptionLine(key, val), d)
  {
    LineText.ClassifyEntry(key, KeyName(key), val);
  }

  // A number, or one of the words, that means the default table.
  predicate DefaultTable(val: string) {
    val == "auto" || val == "main" || (val != "" && AllDigits(val) && NatOf(val) < 0x1_0000_0000)
  }

  lemma {:induction false} TableValue(val: string)
    requires DefaultTable(val) || val == "off"
    ensures ValueText(val) && EntryDirective(Table, val) == ForInterface(SetTableOff(val == "off"))
  {
    if val != "off" {
      TableReads(val);
    }
  }

  lemma {:induction false} TableReads(val: string)
    requires DefaultTable(val)
    ensures ParseTableOff(val) == Some(false)
  {
    assert !IsDigit("off"[0]) && "auto" != "off" && "main" != "off";
  }

  // All the ways to ask for the default table mean the same in any text.
  lemma {:induction false} TableForms(before: seq<string>, after: seq<string>, a: string, b: string, name: string)
    requires NewlineFree(before) && NewlineFree(after) && DefaultTable(a) && DefaultTable(b)
    ensures AsksFor(OptionLine(Table, a), ForInterface(SetTableOff(false)))
    ensures Parse(Around(before, OptionLine(Table, a), after), name) == Parse(Around(before, OptionLine(Table, b), after), name)
  {
    TableAsks(a);
    TableAsks(b);
    LineSwap(before, OptionLine(Table, a), OptionLine(Table, b), after, ForInterface(SetTableOff(false)), name);
  }

  lemma {:induction false} TableAsks(val: string)
    requires DefaultTable(val)
    ensures AsksFor(OptionLine(Table, val), ForInterface(SetTableOff(false)))
  {
    TableValue(val);
    TableReads(val);
    OptionAsks(Table, val, ForInterface(SetTableOff(false)));
  }

  // A keepalive of "off" or "(off)" is one of 0 in any text.
  lemma {:induction false} KeepaliveOff(before: seq<string>, after: seq<string>, off: string, name: string)
    requires NewlineFree(before) && NewlineFree(after) && (off == "off" || off == "(off)")
    ensures AsksFor(OptionLine(PersistentKeepalive, off), ForPeer(SetKeepalive("0")))
    ensures Parse(Around(before, OptionLine(PersistentKeepalive, off), after), name)
         == Parse(Around(before, OptionLine(PersistentKeepalive, "0"), after), name)
  {
    KeepaliveAsks(off);
    KeepaliveAsks("0");
    LineSwap(before, OptionLine(PersistentKeepalive, off), OptionLine(PersistentKeepalive, "0"), after, ForPeer(SetKeepalive("0")), name);
  }

  lemma {:induction false} KeepaliveAsks(val: string)
    requires val == "off" || val == "(off)" || val == "0"
    ensures AsksFor(OptionLine(PersistentKeepalive, val), ForPeer(SetKeepalive("0")))
  {
    assert ParseKeepalive(val) == "0";
    OptionAsks(PersistentKeepalive, val, ForPeer(SetKeepalive("0")));
  }

  // ----- Numbers -----

  // A number is digits with or without a sign, and the zeros in front say
  // nothing; it must fit in 64 bits.
  lemma {:induction false} NumberForms(digits: string)
    requires digits != "" && AllDigits(digits)
    ensures Atoi(digits) == Atoi(['+'] + digits) == Atoi(['0'] + digits)
    ensures Atoi(digits).Some? <==> NatOf(digits) <= 9223372036854775807
    ensures Atoi(digits).Some? ==>
      && Atoi(digits).value == NatOf(digits)
      && Atoi(['-'] + digits).Some? && Atoi(['-'] + digits).value + NatOf(digits) == 0
  {
    assert (['+'] + digits)[1..] == digits && (['-'] + digits)[1..] == digits;
    ZeroBefore(digits);
  }

  lemma {:induction false} ZeroBefore(digits: string)
    requires AllDigits(digits)
    ensures AllDigits(['0'] + digits) && NatOf(['0'] + digits) == NatOf(digits)
  {
    var s := ['0'] + digits;
    if digits == "" {
      assert s[..0] == "";
    } else {
      ZeroBefore(digits[..|digits| - 1]);
      assert s[..|s| - 1] == ['0'] + digits[..|digits| - 1];
    }
  }

  // Nothing else is a number.
  lemma {:induction false} OnlyNumbers(s: string)
    requires Atoi(s).Some?
    ensures exists digits :: digits != "" && AllDigits(digits) && (s == digits || s == ['+'] + digits || s == ['-'] + digits)
  {
    if s[0] == '+' || s[0] == '-' {
      assert s == [s[0]] + s[1..];
    }
  }

  // ----- Keys -----

  // Line breaks inside a key are skipped.
  lemma {:induction false} BreaksSkipped(a: string, c: char, b: string)
    requires c == '\r' || c == '\n'
    ensures ParseKey(a + [c] + b) == ParseKey(a + b)
  {
    SkipsBreak(a, c, b);
  }

  lemma {:induction false} SkipsBreak(a: string, c: char, b: string)
    requires c == '\r' || c == '\n'
    ensures SkipBreaks(a + [c] + b) == SkipBreaks(a + b)
  {
    if a == "" {
      assert a + [c] + b == [c] + b && a + b == b && ([c] + b)[1..] == b;
    } else {
      SkipsBreak(a[1..], c, b);
      assert (a + [c] + b)[1..] == a[1..] + [c] + b && (a + b)[1..] == a[1..] + b;
    }
  }

  // ----- Endpoints -----

  // A host that is taken without brackets: one that has no colon, or begins with one.
  predicate PlainName(host: string) {
    host != "" && host[0] != '[' && host[|host| - 1] != ']' && (':' !in host || host[0] == ':')
  }

  // An address in brackets, with or without a zone.
  predicate Bracketed(shown: string, host: string) {
    shown == ['['] + host + [']'] && ':' in host && ParseIP(AddressPart(host)).Some?
  }

  // Any endpoint text is a host and, behind its last colon, a port. It is read
  // exactly when the port is one and the host is plain or an address in brackets.
  lemma {:induction false} EndpointForms(shown: string, port: string)
    requires ':' !in port
    ensures
      var e := ParseEndpoint(shown + [':'] + port);
      var isPort := Atoi(port).Some? && 0 <= Atoi(port).value <= 65535;
      && (isPort && PlainName(shown) ==> e == Some(Endpoint(shown, Atoi(port).value)))
      && (forall host :: isPort && Bracketed(shown, host) ==> e == Some(Endpoint(host, Atoi(port).value)))
      && (e.Some? ==> isPort && (PlainName(shown) || exists host :: Bracketed(shown, host)))
  {
    var s := shown + [':'] + port;
    LastIndexOfAt(shown, ':', port);
    assert s[..|shown|] == shown && s[|shown| + 1..] == port;
    if shown != "" {
      HostForms(shown);
    }
  }

  lemma {:induction false} NoColonNoEndpoint(s: string)
    requires ':' !in s
    ensures ParseEndpoint(s) == None
  {
    LastIndexOfNone(s, ':');
  }

  lemma {:induction false} HostForms(shown: string)
    requires shown != ""
    ensures PlainName(shown) ==> ParseHost(shown) == Some(shown)
    ensures forall host :: Bracketed(shown, host) ==> ParseHost(shown) == Some(host)
    ensures ParseHost(shown).Some? ==> PlainName(shown) || exists host :: Bracketed(shown, host)
  {
    IndexOfNone(shown, ':');
    forall host | Bracketed(shown, host)
      ensures ParseHost(shown) == Some(host)
    {
      InBrackets(host);
    }
    var last := |shown| - 1;
    if last > 0 && shown[0] == '[' && shown[last] == ']' {
      var host := shown[1..last];
      assert shown == ['['] + host + [']'];
      InBrackets(host);
      assert ParseHost(shown).Some? ==> Bracketed(shown, host);
    } else {
      NotInBrackets(shown);
    }
  }

  lemma {:induction false} NotInBrackets(shown: string)
    requires shown != "" && !(|shown| > 1 && shown[0] == '[' && shown[|shown| - 1] == ']')
    ensures ParseHost(shown) == if PlainName(shown) then Some(shown) else None
  {
    IndexOfNone(shown, ':');
    if ':' in shown {
      IndexOfFirst(shown, ':');
    }
  }

  lemma {:induction false} InBrackets(host: string)
    ensures ParseHost(['['] + host + [']']) == if ':' in host && ParseIP(AddressPart(host)).Some? then Some(host) else None
  {
    var t := ['['] + host + [']'];
    IndexOfShift(':', host, '[', [']']);
    IndexOfNone(host, ':');
    LastIndexOfShift('%', host, '[', ']');
    var i := LastIndexOf(host, '%');
    assert t[1..|t| - 1] == host;
    assert i >= 1 ==> t[1..i + 1] == host[..i];
    if ':' in host && |host| == 1 {
      assert host == ":";
      LoneColon();
    }
  }

  lemma {:induction false} LoneColon()
    ensures AddressPart(":") == ":" && ParseIP(":") == None
  {
    LastIndexOfNone(":", '%');
    assert HexRun(":") == 0;
  }

  // ----- Blanks, comments and letter case -----

  // White space around a line and a comment behind it make no difference.
  lemma {:induction false} Decorated(w: string, line: string, v: string, comment: string)
    requires AllSpace(w) && AllSpace(v) && '#' !in line
    ensures Classify(w + line + v) == Classify(line)
    ensures Classify(w + line + v + ['#'] + comment) == Classify(line)
  {
    var body := w + line + v;
    var t := body + ['#'] + comment;
    IndexOfNone(line, '#');
    IndexOfNone(body, '#');
    IndexOfAt(body, '#', comment);
    assert t[..|body|] == body;
    TrimPadded(w, line, v);
  }

  lemma {:induction false} HeaderForms(line: string)
    requires EqualFold(line, "[Interface]") || EqualFold(line, "[Peer]")
    ensures Classify(line) == if EqualFold(line, "[Interface]") then InterfaceHeader else PeerHeader
  {
    LineText.LowerHeaders();
    var low := Lower(line);
    assert |low| == |line|;
    forall i | 0 <= i < |line|
      ensures line[i] != '#' && !IsSpace(line[i])
    {
      assert low[i] == LowerChar(line[i]);
      HeaderChars(low, i);
    }
    LineText.StripPlain(line);
  }

  lemma {:induction false} HeaderChars(low: string, i: nat)
    requires low == "[interface]" || low == "[peer]"
    requires i < |low|
    ensures low[i] != '#' && !IsSpace(low[i])
  {
  }

  // A line is read as an entry by what stands before the first '=', letter case
  // and blanks aside, and what stands behind it, up to a comment.
  lemma {:induction false} EntryForm(w: string, key: string, val: string)
    requires AllSpace(w) && key != "" && !IsSpace(key[0]) && '=' !in key && '#' !in key
    ensures Classify(w + (key + ['='] + val)) == Entry(KeyOf(Lower(Trim(key))), Trim(HopScan.BeforeComment(val)))
  {
    assert '#' !in w;
    HopScan.StripKeyed(w, key, val);
    HopScan.ClassifyKeyed(key, TrimRight(HopScan.BeforeComment(val)));
    HopScan.TrimOfTrimRight(HopScan.BeforeComment(val));
  }

  // Only the name of an option, in any letter case, is read as that option.
  lemma {:induction false} OnlyItsName(key: string, k: OptionKey)
    requires HasName(k)
    ensures KeyOf(Lower(key)) == k <==> EqualFold(key, KeyName(k))
  {
    LineText.KeyOfName(k);
    NameOfKey(Lower(key), k);
  }

  // The tags of the handshake, which no section takes.
  predicate IsTag(low: string) {
    low == "j1" || low == "j2" || low == "j3" || low == "itime"
  }

  lemma {:induction false} TagNames(low: string)
    ensures KeyOf(low) == HandshakeTag <==> IsTag(low)
  {
  }

  // The options that may stand without a value, besides the packets and the tags.
  predicate MayStandAlone(k: OptionKey) {
    k == HeaderProtectionKey
    || k in {Parser.Text(ContentPaddingAddition), Parser.Text(RekeyAfterTime), Parser.Text(RekeyTimeout), Parser.Text(RejectAfterTime),
             Parser.Text(KeepaliveTimeout), Parser.Text(MaxHandshakeAttempts), Parser.Text(RandomTrailers), Parser.Text(DisableCookies)}
  }

  // An entry without a value is refused for that exactly when its key is none of
  // these, an option or not.
  lemma {:induction false} EmptyValue(low: string)
    ensures DirectiveOf(Entry(KeyOf(low), "")) == Malformed(MissingValue) <==>
      !(MayStandAlone(KeyOf(low)) || KeyOf(low).Packet? || IsTag(low))
  {
    TagNames(low);
    EmptyOf(KeyOf(low));
  }

  lemma {:induction false} EmptyOf(k: OptionKey)
    ensures DirectiveOf(Entry(k, "")) == Malformed(MissingValue) <==> !(MayStandAlone(k) || k.Packet? || k.HandshakeTag?)
  {
  }

  lemma {:induction false} NameOfKey(low: string, k: OptionKey)
    requires HasName(k)
    ensures KeyOf(low) == k ==> low == Lower(KeyName(k))
  {
    match k
    case Text(t) =>
      NameOfText(low, t);
      LineText.TextKeySpelled(t);
    case Number(n) =>
      NameOfNumber(low, n);
      NumberKeySpelled(n);
    case Packet(p) =>
      NameOfPacket(low, p);
      PacketKeySpelled(p);
    case _ =>
      NameOfOther(low, k);
      LineText.OtherKeySpelled(k);
  }

  lemma {:induction false} NameOfText(low: string, k: TextKey)
    ensures KeyOf(low) == Parser.Text(k) ==> low == LineText.TextKeyLow(k)
  {
    if |low| > 10 {
      NameOfLongText(low, k);
    } else {
      NameOfShortText(low, k);
    }
  }

  lemma {:induction false} NameOfShortText(low: string, k: TextKey)
    requires |low| <= 10
    ensures KeyOf(low) == Parser.Text(k) ==> low == LineText.TextKeyLow(k)
  {
  }

  lemma {:induction false} NameOfLongText(low: string, k: TextKey)
    requires |low| > 10
    ensures LongKeyOf(low) == Parser.Text(k) ==> low == LineText.TextKeyLow(k)
  {
  }

  lemma {:induction false} NameOfOther(low: string, k: OptionKey)
    requires HasName(k) && !k.Text? && !k.Number? && !k.Packet?
    ensures KeyOf(low) == k ==> low == LineText.OtherKeyLow(k)
  {
  }

  function NumberKeyLow(k: NumberKey): (low: string) {
    match k
    case ListenPort => "listenport"
    case Jc => "jc"
    case Jmin => "jmin"
    case Jmax => "jmax"
    case S1 => "s1"
    case S2 => "s2"
    case S3 => "s3"
    case S4 => "s4"
  }

  function PacketKeyLow(k: PacketKey): (low: string) {
    match k
    case I1 => "i1"
    case I2 => "i2"
    case I3 => "i3"
    case I4 => "i4"
    case I5 => "i5"
  }

  lemma {:induction false} NameOfNumber(low: string, k: NumberKey)
    ensures KeyOf(low) == Number(k) ==> low == NumberKeyLow(k)
  {
  }

  lemma {:induction false} NameOfPacket(low: string, k: PacketKey)
    ensures KeyOf(low) == Packet(k) ==> low == PacketKeyLow(k)
  {
  }

  lemma {:induction false} NumberKeySpelled(k: NumberKey)
    ensures Lower(NumberKeyName(k)) == NumberKeyLow(k)
  {
  }

  lemma {:induction false} PacketKeySpelled(k: PacketKey)
    ensures Lower(PacketKeyName(k)) == PacketKeyLow(k)
  {
  }
}
