// Reading one printed line back: the parser classifies the rendering of a
// line as that line.
module LineText {
  import opened Text
  import opened Config
  import opened Parser
  import opened Writer

  predicate IdentChar(c: char) {
    'a' <= c <= 'z' || 'A' <= c <= 'Z' || '0' <= c <= '9'
  }

  predicate Ident(s: string) {
    s != "" && forall i :: 0 <= i < |s| ==> IdentChar(s[i])
  }

  // The lower-case spelling of a key.
  function TextKeyLow(k: TextKey): string {
    match k
    case H1 => "h1"
    case H2 => "h2"
    case H3 => "h3"
    case H4 => "h4"
    case ContentPaddingAddition => "contentpaddingaddition"
    case RekeyAfterTime => "rekeyaftertime"
    case RekeyTimeout => "rekeytimeout"
    case RejectAfterTime => "rejectaftertime"
    case KeepaliveTimeout => "keepalivetimeout"
    case MaxHandshakeAttempts => "maxhandshakeattempts"
    case RandomTrailers => "randomtrailers"
    case DisableCookies => "disablecookies"
    case PreUp => "preup"
    case PostUp => "postup"
    case PreDown => "predown"
    case PostDown => "postdown"
    case PinEndpointVia => "pinendpointvia"
  }

  function OtherKeyLow(k: OptionKey): string {
    match k
    case PrivateKey => "privatekey"
    case HeaderProtectionKey => "headerprotectionkey"
    case Mtu => "mtu"
    case Address => "address"
    case Dns => "dns"
    case Table => "table"
    case PublicKey => "publickey"
    case PresharedKey => "presharedkey"
    case AllowedIPs => "allowedips"
    case PersistentKeepalive => "persistentkeepalive"
    case PeerEndpoint => "endpoint"
    case _ => ""
  }

  // A key, and the lower-case form the parser compares.
  predicate Spelled(name: string, low: string) {
    Ident(name) && Lower(name) == low
  }

  lemma {:induction false} SpellHeaders()
    ensures Spelled("H1", "h1")
    ensures Spelled("H2", "h2")
    ensures Spelled("H3", "h3")
    ensures Spelled("H4", "h4")
    ensures Spelled("PreUp", "preup")
    ensures Spelled("PostUp", "postup")
    ensures Spelled("PreDown", "predown")
    ensures Spelled("PostDown", "postdown")
  {
  }

  lemma {:induction false} SpellTimes()
    ensures Spelled("ContentPaddingAddition", "contentpaddingaddition")
    ensures Spelled("RekeyAfterTime", "rekeyaftertime")
  {
  }

  lemma {:induction false} SpellTimeouts()
    ensures Spelled("RekeyTimeout", "rekeytimeout")
    ensures Spelled("RejectAfterTime", "rejectaftertime")
  {
  }

  lemma {:induction false} SpellLimits()
    ensures Spelled("KeepaliveTimeout", "keepalivetimeout")
    ensures Spelled("MaxHandshakeAttempts", "maxhandshakeattempts")
  {
  }

  lemma {:induction false} SpellSwitches()
    ensures Spelled("RandomTrailers", "randomtrailers")
    ensures Spelled("DisableCookies", "disablecookies")
    ensures Spelled("PinEndpointVia", "pinendpointvia")
  {
    SpellRandomTrailers();
    SpellDisableCookies();
    SpellPinEndpointVia();
  }

  lemma {:induction false} SpellRandomTrailers()
    ensures Spelled("RandomTrailers", "randomtrailers")
  {
  }

  lemma {:induction false} SpellDisableCookies()
    ensures Spelled("DisableCookies", "disablecookies")
  {
  }

  lemma {:induction false} SpellPinEndpointVia()
    ensures Spelled("PinEndpointVia", "pinendpointvia")
  {
  }

  lemma {:induction false} SpellKeys()
    ensures Spelled("PrivateKey", "privatekey")
    ensures Spelled("HeaderProtectionKey", "headerprotectionkey")
  {
  }

  lemma {:induction false} SpellAddresses()
    ensures Spelled("MTU", "mtu")
    ensures Spelled("Address", "address")
    ensures Spelled("DNS", "dns")
    ensures Spelled("Table", "table")
  {
  }

  lemma {:induction false} SpellPeerKeys()
    ensures Spelled("PublicKey", "publickey")
    ensures Spelled("PresharedKey", "presharedkey")
  {
  }

  lemma {:induction false} SpellPeers()
    ensures Spelled("AllowedIPs", "allowedips")
    ensures Spelled("PersistentKeepalive", "persistentkeepalive")
    ensures Spelled("Endpoint", "endpoint")
  {
  }

  lemma {:induction false} TextKeySpelled(k: TextKey)
    ensures Spelled(TextKeyName(k), TextKeyLow(k))
  {
    SpellHeaders();
    SpellTimes();
    SpellTimeouts();
    SpellLimits();
    SpellSwitches();
  }

  lemma {:induction false} OtherKeySpelled(k: OptionKey)
    requires HasName(k) && !k.Text? && !k.Number? && !k.Packet?
    ensures Spelled(KeyName(k), OtherKeyLow(k))
  {
    SpellKeys();
    SpellAddresses();
    SpellPeerKeys();
    SpellPeers();
  }

  lemma {:induction false} KeyOfTextLow(k: TextKey)
    ensures KeyOf(TextKeyLow(k)) == Text(k)
  {
    match k
    case H1 =>
    case H2 =>
    case H3 =>
    case H4 =>
    case ContentPaddingAddition =>
    case RekeyAfterTime =>
    case RekeyTimeout =>
    case RejectAfterTime =>
    case KeepaliveTimeout =>
    case MaxHandshakeAttempts =>
    case RandomTrailers =>
    case DisableCookies =>
    case PreUp =>
    case PostUp =>
    case PreDown =>
    case PostDown =>
    case PinEndpointVia =>
  }

  lemma {:induction false} TextKeyOfName(k: TextKey)
    ensures Ident(TextKeyName(k)) && KeyOf(Lower(TextKeyName(k))) == Text(k)
  {
    KeyOfTextLow(k);
    TextKeySpelled(k);
  }

  lemma {:induction false} NumberKeyOfName(k: NumberKey)
    ensures Ident(NumberKeyName(k))
    ensures KeyOf(Lower(NumberKeyName(k))) == Number(k)
  {
    match k
    case ListenPort => assert Lower("ListenPort") == "listenport";
    case Jc => assert Lower("Jc") == "jc";
    case Jmin => assert Lower("Jmin") == "jmin";
    case Jmax => assert Lower("Jmax") == "jmax";
    case S1 => assert Lower("S1") == "s1";
    case S2 => assert Lower("S2") == "s2";
    case S3 => assert Lower("S3") == "s3";
    case S4 => assert Lower("S4") == "s4";
  }

  lemma {:induction false} PacketKeyOfName(k: PacketKey)
    ensures Ident(PacketKeyName(k))
    ensures KeyOf(Lower(PacketKeyName(k))) == Packet(k)
  {
    match k
    case I1 => assert Lower("I1") == "i1";
    case I2 => assert Lower("I2") == "i2";
    case I3 => assert Lower("I3") == "i3";
    case I4 => assert Lower("I4") == "i4";
    case I5 => assert Lower("I5") == "i5";
  }

  lemma {:induction false} KeyOfOtherLow(k: OptionKey)
    requires HasName(k) && !k.Text? && !k.Number? && !k.Packet?
    ensures KeyOf(OtherKeyLow(k)) == k
  {
    match k
    case PrivateKey =>
    case HeaderProtectionKey =>
    case Mtu =>
    case Address =>
    case Dns =>
    case Table =>
    case PublicKey =>
    case PresharedKey =>
    case AllowedIPs =>
    case PersistentKeepalive =>
    case PeerEndpoint =>
  }

  lemma {:induction false} KeyOfName(k: OptionKey)
    requires HasName(k)
    ensures Ident(KeyName(k)) && KeyOf(Lower(KeyName(k))) == k
  {
    match k
    case Text(t) => TextKeyOfName(t);
    case Number(n) => NumberKeyOfName(n);
    case Packet(p) => PacketKeyOfName(p);
    case _ =>
      KeyOfOtherLow(k);
      OtherKeySpelled(k);
  }

  lemma {:induction false} StripPlain(line: string)
    requires '#' !in line && Trimmed(line)
    ensures Strip(line) == line
  {
    IndexOfNone(line, '#');
    TrimId(line);
  }

  lemma {:induction false} StripPrinted(name: string, val: string)
    requires Ident(name) && ValueText(val)
    ensures Strip(name + " = " + val) == name + " = " + val
    ensures '\n' !in name + " = " + val
  {
    var line := name + " = " + val;
    assert line[0] == name[0] && line[|line| - 1] == val[|val| - 1];
    StripPlain(line);
  }

  lemma {:induction false} KeyHalf(name: string)
    requires Ident(name)
    ensures Trim(Lower(name) + " ") == Lower(name)
  {
    assert Trimmed(Lower(name));
    TrimPadded("", Lower(name), " ");
    assert "" + Lower(name) + " " == Lower(name) + " ";
    TrimId(Lower(name));
  }

  lemma {:induction false} ValueHalf(val: string)
    requires ValueText(val)
    ensures Trim(" " + val) == val
  {
    TrimPadded(" ", val, "");
    assert " " + val + "" == " " + val;
    TrimId(val);
  }

  lemma {:induction false} SplitPrinted(name: string, val: string)
    requires Ident(name) && ValueText(val)
    ensures var line := name + " = " + val;
            && IndexOf(line, '=') == |name| + 1
            && Lower(line)[..|name| + 1] == Lower(name) + " "
            && line[|name| + 2..] == " " + val
            && Lower(line)[0] != '['
  {
    var line := name + " = " + val;
    assert line == (name + " ") + ['='] + (" " + val);
    IndexOfAt(name + " ", '=', " " + val);
    assert Lower(line)[0] == LowerChar(name[0]);
  }

  lemma {:induction false} ClassifyNamed(name: string, val: string)
    requires Ident(name) && ValueText(val)
    ensures Classify(name + " = " + val) == Entry(KeyOf(Lower(name)), val)
  {
    StripPrinted(name, val);
    SplitPrinted(name, val);
    KeyHalf(name);
    ValueHalf(val);
  }

  // Lines that the printer writes.
  predicate LineOk(line: Line) {
    match line
    case Blank => true
    case InterfaceHeader => true
    case PeerHeader => true
    case NoEquals => false
    case Entry(key, val) => HasName(key) && ValueText(val)
  }

  predicate LinesOk(lines: seq<Line>) {
    forall i :: 0 <= i < |lines| ==> LineOk(lines[i])
  }

  lemma {:induction false} LowerHeaders()
    ensures Lower("[Interface]") == "[interface]" && Lower("[Peer]") == "[peer]"
    ensures '\n' !in "[Interface]" && '\n' !in "[Peer]" && '#' !in "[Interface]" && '#' !in "[Peer]"
    ensures Trimmed("[Interface]") && Trimmed("[Peer]")
  {
  }

  lemma {:induction false} ClassifyHeader(line: string)
    requires '#' !in line && Trimmed(line)
    ensures line == "" ==> Classify(line) == Blank
    ensures Lower(line) == "[interface]" ==> Classify(line) == InterfaceHeader
    ensures Lower(line) == "[peer]" ==> Classify(line) == PeerHeader
  {
    StripPlain(line);
  }

  lemma {:induction false} ClassifyHeaders()
    ensures Classify("") == Blank
    ensures Classify("[Interface]") == InterfaceHeader
    ensures Classify("[Peer]") == PeerHeader
  {
    LowerHeaders();
    ClassifyHeader("");
    ClassifyHeader("[Interface]");
    ClassifyHeader("[Peer]");
  }

  lemma {:induction false} ClassifyEntry(key: OptionKey, name: string, val: string)
    requires HasName(key) && name == KeyName(key) && ValueText(val)
    ensures Classify(name + " = " + val) == Entry(key, val)
    ensures '\n' !in name + " = " + val
  {
    KeyOfName(key);
    ClassifyNamed(name, val);
    StripPrinted(name, val);
  }

  lemma {:induction false} ClassifyRender(line: Line)
    requires LineOk(line)
    ensures Classify(Render(line)) == line
    ensures '\n' !in Render(line)
  {
    match line
    case Entry(key, val) => ClassifyEntry(key, KeyName(key), val);
    case _ =>
      LowerHeaders();
      ClassifyHeaders();
  }

  // The printed lines, split and classified again, are the lines printed, with
  // one blank line for the newline at the end.
  lemma {:induction false} ClassifyRendered(lines: seq<Line>)
    requires LinesOk(lines)
    ensures ClassifyAll(Split(LinesText(RenderAll(lines)), '\n')) == lines + [Blank]
  {
    var texts := RenderAll(lines);
    forall i | 0 <= i < |lines| ensures Classify(texts[i]) == lines[i] && '\n' !in texts[i] {
      ClassifyRender(lines[i]);
    }
    SplitRendered(texts);
    ClassifyHeaders();
    ClassifyAllSnoc(texts, lines, "");
  }

  lemma {:induction false} SplitRendered(texts: seq<string>)
    requires NewlineFree(texts)
    ensures Split(LinesText(texts), '\n') == texts + [""]
  {
    SplitLinesText(texts, "");
    assert LinesText(texts) + "" == LinesText(texts);
    SplitSingle("", '\n');
  }

  lemma {:induction false} ClassifyAllSnoc(texts: seq<string>, lines: seq<Line>, last: string)
    requires |texts| == |lines| && forall i :: 0 <= i < |lines| ==> Classify(texts[i]) == lines[i]
    ensures ClassifyAll(texts + [last]) == lines + [Classify(last)]
  {
  }
}
