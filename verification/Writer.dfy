// The wg-quick printer: Config to text.
module Writer {
  import opened Text
  import opened Decimal
  import opened Ip
  import opened KeyText
  import opened Config
  import opened Parser

  // The spelling a key is printed with.
  function TextKeyName(k: TextKey): string {
    match k
    case H1 => "H1"
    case H2 => "H2"
    case H3 => "H3"
    case H4 => "H4"
    case ContentPaddingAddition => "ContentPaddingAddition"
    case RekeyAfterTime => "RekeyAfterTime"
    case RekeyTimeout => "RekeyTimeout"
    case RejectAfterTime => "RejectAfterTime"
    case KeepaliveTimeout => "KeepaliveTimeout"
    case MaxHandshakeAttempts => "MaxHandshakeAttempts"
    case RandomTrailers => "RandomTrailers"
    case DisableCookies => "DisableCookies"
    case PreUp => "PreUp"
    case PostUp => "PostUp"
    case PreDown => "PreDown"
    case PostDown => "PostDown"
    case PinEndpointVia => "PinEndpointVia"
  }

  function NumberKeyName(k: NumberKey): string {
    match k
    case ListenPort => "ListenPort"
    case Jc => "Jc"
    case Jmin => "Jmin"
    case Jmax => "Jmax"
    case S1 => "S1"
    case S2 => "S2"
    case S3 => "S3"
    case S4 => "S4"
  }

  function PacketKeyName(k: PacketKey): string {
    match k
    case I1 => "I1"
    case I2 => "I2"
    case I3 => "I3"
    case I4 => "I4"
    case I5 => "I5"
  }

  predicate HasName(k: OptionKey) {
    !k.HandshakeTag? && !k.Unknown?
  }

  function KeyName(k: OptionKey): string
    requires HasName(k)
  {
    match k
    case Text(t) => TextKeyName(t)
    case Number(n) => NumberKeyName(n)
    case Packet(p) => PacketKeyName(p)
    case PrivateKey => "PrivateKey"
    case HeaderProtectionKey => "HeaderProtectionKey"
    case Mtu => "MTU"
    case Address => "Address"
    case Dns => "DNS"
    case Table => "Table"
    case PublicKey => "PublicKey"
    case PresharedKey => "PresharedKey"
    case AllowedIPs => "AllowedIPs"
    case PersistentKeepalive => "PersistentKeepalive"
    case PeerEndpoint => "Endpoint"
  }

  // IPCidr.String
  function ShowCidr(a: IPCidr): string {
    Show(a.ip) + ['/'] + Itoa(a.cidr)
  }

  function ShowCidrs(s: seq<IPCidr>): (r: seq<string>)
    ensures |r| == |s|
  {
    if s == [] then [] else [ShowCidr(s[0])] + ShowCidrs(s[1..])
  }

  function ShowIPs(s: seq<IP>): (r: seq<string>)
    ensures |r| == |s|
  {
    if s == [] then [] else [Show(s[0])] + ShowIPs(s[1..])
  }

  // Endpoint.String
  function ShowEndpoint(e: Endpoint): string {
    (if IndexOf(e.host, ':') > 0 then "[" + e.host + "]" else e.host) + [':'] + Itoa(e.port)
  }

  // ----- the lines of the text, in order -----

  const NUMBER_ORDER: seq<NumberKey> := [ListenPort, Jc, Jmin, Jmax, S1, S2, S3, S4]
  const HEADER_ORDER: seq<TextKey> := [H1, H2, H3, H4]
  const TUNING_ORDER: seq<TextKey> := [
    ContentPaddingAddition, RekeyAfterTime, RekeyTimeout, RejectAfterTime,
    KeepaliveTimeout, MaxHandshakeAttempts, RandomTrailers, DisableCookies]
  const HOOK_ORDER: seq<TextKey> := [PreUp, PostUp, PreDown, PostDown]
  const PIN_ORDER: seq<TextKey> := [PinEndpointVia]

  function When(b: bool, key: OptionKey, val: string): seq<Line> {
    if b then [Entry(key, val)] else []
  }

  function NumberLines(m: map<NumberKey, nat>, keys: seq<NumberKey>): seq<Line> {
    if keys == [] then []
    else (if keys[0] in m then [Entry(Number(keys[0]), Itoa(m[keys[0]]))] else []) + NumberLines(m, keys[1..])
  }

  function TextLines(m: map<TextKey, string>, keys: seq<TextKey>): seq<Line> {
    if keys == [] then []
    else (if keys[0] in m then [Entry(Text(keys[0]), m[keys[0]])] else []) + TextLines(m, keys[1..])
  }

  function PacketLines(m: map<PacketKey, string>, keys: seq<PacketKey>): seq<Line>
    requires forall k :: k in keys ==> k in m
  {
    if keys == [] then []
    else [Entry(Packet(keys[0]), m[keys[0]])] + PacketLines(m, keys[1..])
  }

  // An order in which the loop over the I1..I5 map may visit its keys.
  predicate VisitOrder(order: seq<PacketKey>, m: map<PacketKey, string>) {
    (forall k :: k in order <==> k in m) && (forall i, j :: 0 <= i < j < |order| ==> order[i] != order[j])
  }

  function HeadLines(i: Interface, order: seq<PacketKey>): seq<Line>
    requires VisitOrder(order, i.iPackets)
  {
    [Entry(PrivateKey, ShowKey(i.privateKey))]
    + NumberLines(i.numbers, NUMBER_ORDER)
    + TextLines(i.texts, HEADER_ORDER)
    + PacketLines(i.iPackets, order)
  }

  function MiddleLines(i: Interface): seq<Line> {
    When(i.headerProtectionKey != ZERO_KEY, HeaderProtectionKey, ShowKey(i.headerProtectionKey))
    + TextLines(i.texts, TUNING_ORDER)
    + When(i.addresses != [], Address, JoinComma(ShowCidrs(i.addresses)))
    + When(i.dns != [] || i.dnsSearch != [], Dns, JoinComma(ShowIPs(i.dns) + i.dnsSearch))
  }

  function LastLines(i: Interface): seq<Line> {
    When(i.mtu > 0, Mtu, Itoa(i.mtu))
    + TextLines(i.texts, HOOK_ORDER)
    + When(i.tableOff, Table, "off")
    + TextLines(i.texts, PIN_ORDER)
  }

  function InterfaceLines(i: Interface, order: seq<PacketKey>): seq<Line>
    requires VisitOrder(order, i.iPackets)
  {
    [InterfaceHeader] + HeadLines(i, order) + MiddleLines(i) + LastLines(i)
  }

  predicate KeepaliveShown(k: string) {
    k != "" && k != "0" && k != "off"
  }

  function PeerLines(p: Peer): seq<Line> {
    [Entry(PublicKey, ShowKey(p.publicKey))]
    + When(p.presharedKey != ZERO_KEY, PresharedKey, ShowKey(p.presharedKey))
    + When(p.allowedIPs != [], AllowedIPs, JoinComma(ShowCidrs(p.allowedIPs)))
    + When(p.endpoint.host != "", PeerEndpoint, ShowEndpoint(p.endpoint))
    + When(KeepaliveShown(p.persistentKeepalive), PersistentKeepalive, p.persistentKeepalive)
  }

  function PeersLines(ps: seq<Peer>): seq<Line> {
    if ps == [] then [] else [Blank, PeerHeader] + PeerLines(ps[0]) + PeersLines(ps[1..])
  }

  function PrintedLines(c: Config, order: seq<PacketKey>): seq<Line>
    requires VisitOrder(order, c.iface.iPackets)
  {
    InterfaceLines(c.iface, order) + PeersLines(c.peers)
  }

  // The text of one line. Only the first four kinds are ever printed.
  function Render(line: Line): string {
    match line
    case Blank => ""
    case InterfaceHeader => "[Interface]"
    case PeerHeader => "[Peer]"
    case NoEquals => ""
    case Entry(key, val) => if HasName(key) then KeyName(key) + " = " + val else ""
  }

  function RenderAll(lines: seq<Line>): (r: seq<string>)
    ensures |r| == |lines|
  {
    seq(|lines|, i requires 0 <= i < |lines| => Render(lines[i]))
  }

  // The text of a config, for one order of the I1..I5 map.
  function Print(c: Config, order: seq<PacketKey>): string
    requires VisitOrder(order, c.iface.iPackets)
  {
    LinesText(RenderAll(PrintedLines(c, order)))
  }

  // ----- ToWgQuick -----

  method WriteNumbers(m: map<NumberKey, nat>, keys: seq<NumberKey>) returns (out: seq<Line>)
    ensures out == NumberLines(m, keys)
  {
    out := [];
    var n := 0;
    while n < |keys|
      invariant 0 <= n <= |keys|
      invariant NumberLines(m, keys) == out + NumberLines(m, keys[n..])
    {
      assert keys[n..][1..] == keys[n + 1..];
      if keys[n] in m {
        out := out + [Entry(Number(keys[n]), Itoa(m[keys[n]]))];
      }
      n := n + 1;
    }
  }

  method WriteTexts(m: map<TextKey, string>, keys: seq<TextKey>) returns (out: seq<Line>)
    ensures out == TextLines(m, keys)
  {
    out := [];
    var n := 0;
    while n < |keys|
      invariant 0 <= n <= |keys|
      invariant TextLines(m, keys) == out + TextLines(m, keys[n..])
    {
      assert keys[n..][1..] == keys[n + 1..];
      if keys[n] in m {
        out := out + [Entry(Text(keys[n]), m[keys[n]])];
      }
      n := n + 1;
    }
  }

  lemma {:induction false} PacketLinesSnoc(m: map<PacketKey, string>, keys: seq<PacketKey>, k: PacketKey)
    requires forall x :: x in keys ==> x in m
    requires k in m
    ensures PacketLines(m, keys + [k]) == PacketLines(m, keys) + [Entry(Packet(k), m[k])]
  {
    if keys != [] {
      PacketLinesSnoc(m, keys[1..], k);
      assert (keys + [k])[1..] == keys[1..] + [k];
    }
  }

  // The map is visited in an order of the runtime's choosing.
  method WritePackets(m: map<PacketKey, string>) returns (out: seq<Line>, order: seq<PacketKey>)
    ensures VisitOrder(order, m)
    ensures out == PacketLines(m, order)
  {
    out, order := [], [];
    var rest := m.Keys;
    while rest != {}
      invariant rest <= m.Keys
      invariant forall k :: k in order <==> k in m.Keys - rest
      invariant forall i, j :: 0 <= i < j < |order| ==> order[i] != order[j]
      invariant out == PacketLines(m, order)
      decreases rest
    {
      var k :| k in rest;
      PacketLinesSnoc(m, order, k);
      assert k !in order;
      out := out + [Entry(Packet(k), m[k])];
      order := order + [k];
      rest := rest - {k};
    }
  }

  method WriteCidrs(s: seq<IPCidr>) returns (out: seq<string>)
    ensures out == ShowCidrs(s)
  {
    out := [];
    var n := 0;
    while n < |s|
      invariant 0 <= n <= |s|
      invariant ShowCidrs(s) == out + ShowCidrs(s[n..])
    {
      assert s[n..][1..] == s[n + 1..];
      out := out + [ShowCidr(s[n])];
      n := n + 1;
    }
  }

  method WritePeer(p: Peer) returns (out: seq<Line>)
    ensures out == PeerLines(p)
  {
    out := [Entry(PublicKey, ShowKey(p.publicKey))];
    out := out + When(p.presharedKey != ZERO_KEY, PresharedKey, ShowKey(p.presharedKey));
    var addrStrings := WriteCidrs(p.allowedIPs);
    out := out + When(p.allowedIPs != [], AllowedIPs, JoinComma(addrStrings));
    out := out + When(p.endpoint.host != "", PeerEndpoint, ShowEndpoint(p.endpoint));
    out := out + When(KeepaliveShown(p.persistentKeepalive), PersistentKeepalive, p.persistentKeepalive);
  }

  method WriteHead(i: Interface) returns (out: seq<Line>, order: seq<PacketKey>)
    ensures VisitOrder(order, i.iPackets)
    ensures out == HeadLines(i, order)
  {
    out := [Entry(PrivateKey, ShowKey(i.privateKey))];
    var part := WriteNumbers(i.numbers, NUMBER_ORDER);
    out := out + part;
    part := WriteTexts(i.texts, HEADER_ORDER);
    out := out + part;
    part, order := WritePackets(i.iPackets);
    out := out + part;
  }

  method WriteMiddle(i: Interface) returns (out: seq<Line>)
    ensures out == MiddleLines(i)
  {
    out := When(i.headerProtectionKey != ZERO_KEY, HeaderProtectionKey, ShowKey(i.headerProtectionKey));
    var part := WriteTexts(i.texts, TUNING_ORDER);
    out := out + part;
    var addrStrings := WriteCidrs(i.addresses);
    out := out + When(i.addresses != [], Address, JoinComma(addrStrings));
    out := out + When(i.dns != [] || i.dnsSearch != [], Dns, JoinComma(ShowIPs(i.dns) + i.dnsSearch));
  }

  method WriteLast(i: Interface) returns (out: seq<Line>)
    ensures out == LastLines(i)
  {
    out := When(i.mtu > 0, Mtu, Itoa(i.mtu));
    var part := WriteTexts(i.texts, HOOK_ORDER);
    out := out + part;
    out := out + When(i.tableOff, Table, "off");
    part := WriteTexts(i.texts, PIN_ORDER);
    out := out + part;
  }

  // ToWgQuick. The builder holds finished lines; the order is the one in which
  // the I1..I5 map happened to be visited.
  method ToWgQuick(c: Config) returns (text: string, order: seq<PacketKey>)
    ensures VisitOrder(order, c.iface.iPackets)
    ensures text == Print(c, order)
  {
    var output := [InterfaceHeader];
    var part;
    part, order := WriteHead(c.iface);
    output := output + part;
    part := WriteMiddle(c.iface);
    output := output + part;
    part := WriteLast(c.iface);
    output := output + part;
    ghost var top := output;
    var n := 0;
    while n < |c.peers|
      invariant 0 <= n <= |c.peers|
      invariant top + PeersLines(c.peers) == output + PeersLines(c.peers[n..])
    {
      part := WritePeer(c.peers[n]);
      PeersLinesStep(output, c.peers[n..]);
      assert c.peers[n..][1..] == c.peers[n + 1..];
      output := output + ([Blank, PeerHeader] + part);
      n := n + 1;
    }
    assert output + [] == output;
    text := LinesText(RenderAll(output));
  }

  lemma {:induction false} PeersLinesStep(output: seq<Line>, ps: seq<Peer>)
    requires ps != []
    ensures output + PeersLines(ps) == output + ([Blank, PeerHeader] + PeerLines(ps[0])) + PeersLines(ps[1..])
  {
    ConcatAssoc(output, [Blank, PeerHeader] + PeerLines(ps[0]), PeersLines(ps[1..]));
  }
}
