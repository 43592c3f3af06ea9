// A whole config that does not survive being rewritten: its endpoint is
// accepted, and what is printed for it is not.
module OddEndpoint {
  import opened Text
  import opened Decimal
  import opened KeyText
  import opened Config
  import opened Parser
  import opened Names
  import opened Writer
  import LineText
  import Values
  import Parsed

  // Reads as the endpoint below.
  function EndpointValue(): (val: string) {
    "[::1%a]]" + [':'] + Itoa(80)
  }

  const ODD := Endpoint("::1%a]", 80)

  // An interface with a key and a peer with that endpoint.
  function OddLines(key: Key, peerKey: Key): (lines: seq<Line>) {
    [InterfaceHeader, Entry(PrivateKey, ShowKey(key)),
     PeerHeader, Entry(PublicKey, ShowKey(peerKey)), Entry(PeerEndpoint, EndpointValue())]
  }

  function OddText(key: Key, peerKey: Key): (text: string) {
    LinesText(RenderAll(OddLines(key, peerKey)))
  }

  function OddConfig(key: Key, peerKey: Key, name: string): (c: Config) {
    Config(name, BLANK_INTERFACE.(privateKey := key), [BLANK_PEER.(publicKey := peerKey, endpoint := ODD)])
  }

  function OddDirectives(key: Key, peerKey: Key): (ds: seq<Directive>) {
    [OpenInterface, ForInterface(SetPrivateKey(key)), OpenPeer, ForPeer(SetPublicKey(peerKey)), ForPeer(SetEndpoint(ODD)), Nothing]
  }

  // A line whose value is read as this directive.
  predicate AsksFor(line: Line, d: Directive) {
    LineText.LineOk(line) && DirectiveOf(line) == d
  }

  lemma {:induction false} EntryAsks(key: OptionKey, val: string, d: Directive)
    requires HasName(key) && ValueText(val) && EntryDirective(key, val) == d
    ensures AsksFor(Entry(key, val), d)
  {
  }

  lemma {:induction false} PrivateKeyAsks(val: string, key: Key)
    requires ValueText(val) && ParseKey(val) == Some(key)
    ensures AsksFor(Entry(PrivateKey, val), ForInterface(SetPrivateKey(key)))
  {
    EntryAsks(PrivateKey, val, InterfaceKey(true, ParseKey(val)));
  }

  lemma {:induction false} PublicKeyAsks(val: string, key: Key)
    requires ValueText(val) && ParseKey(val) == Some(key)
    ensures AsksFor(Entry(PublicKey, val), ForPeer(SetPublicKey(key)))
  {
    EntryAsks(PublicKey, val, PeerKey(true, ParseKey(val)));
  }

  lemma {:induction false} EndpointEntry(val: string)
    ensures EntryDirective(PeerEndpoint, val) == PeerEndpointOf(ParseEndpoint(val))
  {
  }

  lemma {:induction false} EndpointAsks(val: string, e: Endpoint)
    requires ValueText(val) && PeerEndpointOf(ParseEndpoint(val)) == ForPeer(SetEndpoint(e))
    ensures AsksFor(Entry(PeerEndpoint, val), ForPeer(SetEndpoint(e)))
  {
    EndpointEntry(val);
    EntryAsks(PeerEndpoint, val, ForPeer(SetEndpoint(e)));
  }

  lemma {:induction false} OddValue()
    ensures ValueText(EndpointValue()) && ParseEndpoint(EndpointValue()) == Some(ODD)
  {
    Parsed.OddEndpointIsLost();
    OddValueText("[::1%a]]");
  }

  lemma {:induction false} OddValueText(shown: string)
    requires shown == "[::1%a]]"
    ensures ValueText(shown + [':'] + Itoa(80))
  {
    assert '#' !in shown && '\n' !in shown && !IsSpace(shown[0]);
    Values.HostAndPort(shown, 80);
  }

  lemma {:induction false} FiveLines(a: Line, b: Line, c: Line, da: Directive, db: Directive, dc: Directive)
    requires AsksFor(a, da) && AsksFor(b, db) && AsksFor(c, dc)
    ensures LineText.LinesOk([InterfaceHeader, a, PeerHeader, b, c])
    ensures Directives([InterfaceHeader, a, PeerHeader, b, c] + [Blank]) == [OpenInterface, da, OpenPeer, db, dc, Nothing]
  {
  }

  lemma {:induction false} LinesAsk(key: Key, peerKey: Key)
    ensures LineText.LinesOk(OddLines(key, peerKey))
    ensures Directives(OddLines(key, peerKey) + [Blank]) == OddDirectives(key, peerKey)
  {
    Values.KeyValue(key);
    PrivateKeyAsks(ShowKey(key), key);
    Values.KeyValue(peerKey);
    PublicKeyAsks(ShowKey(peerKey), peerKey);
    OddValue();
    EndpointAsks(EndpointValue(), ODD);
    FiveLines(Entry(PrivateKey, ShowKey(key)), Entry(PublicKey, ShowKey(peerKey)), Entry(PeerEndpoint, EndpointValue()),
              ForInterface(SetPrivateKey(key)), ForPeer(SetPublicKey(peerKey)), ForPeer(SetEndpoint(ODD)));
  }

  lemma {:induction false} RunTwo(st: State, d: Directive, e: Directive, rest: seq<Directive>)
    requires Step(st, d).Ok? && Step(Step(st, d).value, e).Ok?
    ensures Run(st, [d, e] + rest) == Run(Step(Step(st, d).value, e).value, rest)
  {
    var ds := [d, e] + rest;
    assert ds[1..] == [e] + rest && ([e] + rest)[1..] == rest;
  }

  lemma {:induction false} DirectivesRead(key: Key, peerKey: Key, name: string)
    requires peerKey != ZERO_KEY
    ensures ParseDirectives(OddDirectives(key, peerKey), name) == Ok(OddConfig(key, peerKey, name))
  {
    var iface := BLANK_INTERFACE.(privateKey := key);
    var st1 := State(InInterface, iface, [], None, true);
    var peer := BLANK_PEER.(publicKey := peerKey);
    var st2 := State(InPeer, iface, [], Some(peer), true);
    var st3 := State(InPeer, iface, [], Some(peer.(endpoint := ODD)), true);
    var a, b, c := [OpenInterface, ForInterface(SetPrivateKey(key))], [OpenPeer, ForPeer(SetPublicKey(peerKey))], [ForPeer(SetEndpoint(ODD)), Nothing];
    assert OddDirectives(key, peerKey) == a + (b + c) && c == c + [];
    RunTwo(INITIAL, a[0], a[1], b + c);
    RunTwo(st1, b[0], b[1], c);
    RunTwo(st2, c[0], c[1], []);
    assert AddPeer(st3.peers, st3.peer) == [peer.(endpoint := ODD)];
  }

  // The text is accepted, and what is printed for its config is rejected.
  lemma {:induction false} OddConfigIsLost(key: Key, peerKey: Key, name: string, order: seq<PacketKey>)
    requires ValidName(name) && peerKey != ZERO_KEY && VisitOrder(order, BLANK_INTERFACE.iPackets)
    ensures Parse(OddText(key, peerKey), name) == Ok(OddConfig(key, peerKey, name))
    ensures Parse(Print(OddConfig(key, peerKey, name), order), name) == Err(BadValue)
  {
    TextRead(key, peerKey, name);
    Parsed.Reload(OddText(key, peerKey), name, order);
    ConfigIsOdd(key, peerKey, name);
  }

  lemma {:induction false} ConfigIsOdd(key: Key, peerKey: Key, name: string)
    ensures !Parsed.NoOddHost(OddConfig(key, peerKey, name))
  {
    Parsed.OddEndpointIsLost();
    assert OddConfig(key, peerKey, name).peers[0].endpoint == ODD;
  }

  lemma {:induction false} TextRead(key: Key, peerKey: Key, name: string)
    requires ValidName(name) && peerKey != ZERO_KEY
    ensures Parse(OddText(key, peerKey), name) == Ok(OddConfig(key, peerKey, name))
  {
    LinesAsk(key, peerKey);
    LineText.ClassifyRendered(OddLines(key, peerKey));
    DirectivesRead(key, peerKey, name);
  }
}
