// What the parser can return, and what happens when that is printed again.
module Parsed {
  import opened Text
  import opened Decimal
  import opened Ip
  import opened Config
  import opened Names
  import opened Parser
  import opened Writer
  import opened Values
  import opened RoundTrip

  // ----- values -----

  predicate EmptyOrValue(v: string) {
    v == "" || ValueText(v)
  }

  lemma {:induction false} StripKeeps(line: string)
    requires '\n' !in line
    ensures '#' !in Strip(line) && '\n' !in Strip(line)
  {
    var pound := IndexOf(line, '#');
    IndexOfNone(line, '#');
    if pound >= 0 { IndexOfFirst(line, '#'); }
    var body := if pound >= 0 then line[..pound] else line;
    TrimKeeps(body, '#');
    TrimKeeps(body, '\n');
  }

  lemma {:induction false} ClassifiedValue(line: string)
    requires '\n' !in line
    ensures Classify(line).Entry? ==> EmptyOrValue(Classify(line).val)
  {
    StripKeeps(line);
    StrippedValue(Strip(line));
  }

  lemma {:induction false} StrippedValue(line: string)
    requires '#' !in line && '\n' !in line
    ensures ClassifyStripped(line).Entry? ==> EmptyOrValue(ClassifyStripped(line).val)
  {
    var equals := IndexOf(line, '=');
    if equals >= 0 {
      TrimKeeps(line[equals + 1..], '#');
      TrimKeeps(line[equals + 1..], '\n');
    }
  }

  lemma {:induction false} ParsedCidrOk(s: string)
    ensures ParseIPCidr(s).Ok? ==> CidrOk(ParseIPCidr(s).value)
  {
  }

  lemma {:induction false} ParsedCidrsOk(items: seq<string>)
    ensures ParseIPCidrs(items).Ok? ==> CidrsOk(ParseIPCidrs(items).value)
  {
    if items != [] {
      ParsedCidrOk(items[0]);
      ParsedCidrsOk(items[1..]);
    }
  }

  lemma {:induction false} ParsedServers(items: seq<string>)
    ensures forall n :: 0 <= n < |DnsServers(items)| ==> |DnsServers(items)[n]| == 16
  {
    if items != [] { ParsedServers(items[1..]); }
  }

  predicate DomainsOk(s: seq<string>) {
    forall n :: 0 <= n < |s| ==> SearchOk(s[n])
  }

  lemma {:induction false} ParsedDomains(items: seq<string>)
    requires PlainItems(items)
    ensures DomainsOk(DnsDomains(items))
  {
    if items != [] { ParsedDomains(items[1..]); }
  }

  lemma {:induction false} ParsedItems(val: string)
    requires ValueText(val) && ListItems(val).Some?
    ensures PlainItems(ListItems(val).value)
  {
    ListItemsAreItems(val, '#');
    ListItemsAreItems(val, '\n');
  }

  // A host that is printed without brackets although it ends like one with.
  predicate OddHost(host: string) {
    host != "" && host[0] == ':' && host[|host| - 1] == ']'
  }

  lemma {:induction false} ParsedHost(h: string)
    requires h != "" && '#' !in h && '\n' !in h && !IsSpace(h[0]) && ParseHost(h).Some?
    ensures HostText(ParseHost(h).value)
    ensures HostOk(ParseHost(h).value) <==> !OddHost(ParseHost(h).value)
  {
    if h[0] == '[' {
      var host := h[1..|h| - 1];
      assert h == ['['] + host + [']'];
      IndexOfShift(':', host, '[', [']']);
      LastIndexOfShift('%', host, '[', ']');
      var i := LastIndexOf(host, '%');
      assert i >= 1 ==> h[1..i + 1] == host[..i];
    }
  }

  lemma {:induction false} ParsedEndpoint(val: string)
    requires ValueText(val) && ParseEndpoint(val).Some?
    ensures var e := ParseEndpoint(val).value;
            e.host != "" && EndpointText(e) && (EndpointOk(e) <==> !OddHost(e.host))
  {
    var i := LastIndexOf(val, ':');
    ParsedHost(val[..i]);
  }

  // ----- options -----

  predicate InterfaceOptionOk(o: InterfaceOption) {
    match o
    case SetText(_, v) => EmptyOrValue(v)
    case SetNumber(_, n) => n <= 65535
    case SetPacket(_, v) => EmptyOrValue(v)
    case SetMtu(m) => 576 <= m <= 65535
    case AddAddresses(a) => CidrsOk(a)
    case AddDns(servers, domains) => (forall n :: 0 <= n < |servers| ==> |servers[n]| == 16) && DomainsOk(domains)
    case _ => true
  }

  // Endpoints as the parser returns them.
  predicate EndpointRead(e: Endpoint) {
    EndpointText(e) && (EndpointOk(e) <==> !OddHost(e.host))
  }

  predicate KeepaliveRead(k: string) {
    EmptyOrValue(k) && k != "off" && k != "(off)"
  }

  predicate PeerOptionOk(o: PeerOption) {
    match o
    case AddAllowedIPs(a) => CidrsOk(a)
    case SetKeepalive(k) => KeepaliveRead(k)
    case SetEndpoint(e) => EndpointRead(e)
    case _ => true
  }

  predicate DirectiveOk(d: Directive) {
    (d.ForInterface? ==> InterfaceOptionOk(d.option)) && (d.ForPeer? ==> PeerOptionOk(d.peerOption))
  }

  lemma {:induction false} EntryOk(key: OptionKey, val: string)
    requires ValueText(val) || (val == "" && MayBeEmpty(key))
    ensures DirectiveOk(EntryDirective(key, val))
  {
    match key
    case Address => CidrListOk(val);
    case AllowedIPs => CidrListOk(val);
    case Dns => DnsOk(val);
    case PeerEndpoint => if ParseEndpoint(val).Some? { ParsedEndpoint(val); }
    case _ =>
  }

  lemma {:induction false} CidrListOk(val: string)
    ensures ParseCidrList(val).Ok? ==> CidrsOk(ParseCidrList(val).value)
  {
    if ListItems(val).Some? { ParsedCidrsOk(ListItems(val).value); }
  }

  lemma {:induction false} DnsOk(val: string)
    requires ValueText(val)
    ensures DirectiveOk(InterfaceDns(ListItems(val)))
  {
    if ListItems(val).Some? {
      var items := ListItems(val).value;
      ParsedItems(val);
      ParsedServers(items);
      ParsedDomains(items);
    }
  }

  lemma {:induction false} LineDirectiveOk(line: string)
    requires '\n' !in line
    ensures DirectiveOk(DirectiveOf(Classify(line)))
  {
    ClassifiedValue(line);
    LineOkDirective(Classify(line));
  }

  lemma {:induction false} LineOkDirective(line: Line)
    requires line.Entry? ==> EmptyOrValue(line.val)
    ensures DirectiveOk(DirectiveOf(line))
  {
    if line.Entry? && !(line.val == "" && !MayBeEmpty(line.key)) { EntryOk(line.key, line.val); }
  }

  predicate DirectivesOk(ds: seq<Directive>) {
    forall i :: 0 <= i < |ds| ==> DirectiveOk(ds[i])
  }

  lemma {:induction false} TextDirectivesOk(lines: seq<string>)
    requires NewlineFree(lines)
    ensures DirectivesOk(Directives(ClassifyAll(lines)))
  {
    forall i | 0 <= i < |lines| ensures DirectiveOk(DirectiveOf(Classify(lines[i]))) {
      LineDirectiveOk(lines[i]);
    }
  }

  // ----- states -----

  predicate PeerRead(p: Peer) {
    CidrsOk(p.allowedIPs) && EndpointRead(p.endpoint) && KeepaliveRead(p.persistentKeepalive)
  }

  predicate PeersRead(ps: seq<Peer>) {
    forall n :: 0 <= n < |ps| ==> PeerRead(ps[n])
  }

  predicate StateOk(st: State) {
    InterfaceOk(st.iface) && PeersRead(st.peers) && (st.peer.Some? ==> PeerRead(st.peer.value))
  }

  lemma {:induction false} SetInterfaceOk(i: Interface, o: InterfaceOption)
    requires InterfaceOk(i) && InterfaceOptionOk(o)
    ensures InterfaceOk(SetInterface(i, o))
  {
  }

  lemma {:induction false} SetPeerRead(p: Peer, o: PeerOption)
    requires PeerRead(p) && PeerOptionOk(o)
    ensures PeerRead(SetPeer(p, o))
  {
  }

  lemma {:induction false} StepOk(st: State, d: Directive)
    requires StateOk(st) && DirectiveOk(d) && Step(st, d).Ok?
    ensures StateOk(Step(st, d).value)
  {
    match d
    case ForInterface(o) => SetInterfaceOk(st.iface, o);
    case ForPeer(o) => SetPeerRead(st.peer.value, o);
    case _ =>
  }

  lemma {:induction false} RunOk(st: State, ds: seq<Directive>)
    requires StateOk(st) && DirectivesOk(ds) && Run(st, ds).Ok?
    ensures StateOk(Run(st, ds).value)
    decreases |ds|
  {
    if ds != [] {
      StepOk(st, ds[0]);
      RunOk(Step(st, ds[0]).value, ds[1..]);
    }
  }

  predicate NoOddHost(c: Config) {
    forall n :: 0 <= n < |c.peers| ==> !OddHost(c.peers[n].endpoint.host)
  }

  lemma {:induction false} FinishOk(name: string, st: State)
    requires StateOk(st) && Finish(name, st).Ok?
    ensures Printable(Finish(name, st).value)
    ensures EndpointsOk(Finish(name, st).value) <==> NoOddHost(Finish(name, st).value)
  {
    var peers := AddPeer(st.peers, st.peer);
    assert PeersRead(peers);
    var c := Finish(name, st).value;
    assert forall n :: 0 <= n < |peers| ==> PeerOk(peers[n]);
    assert forall n :: 0 <= n < |peers| ==> (EndpointOk(peers[n].endpoint) <==> !OddHost(peers[n].endpoint.host));
  }

  // Whatever the parser accepts can be printed, and its endpoints can be read
  // back unless a host is odd.
  lemma {:induction false} ParsedIsPrintable(text: string, name: string)
    requires Parse(text, name).Ok?
    ensures var c := Parse(text, name).value;
            c.name == name && ValidName(name) && Printable(c) && (EndpointsOk(c) <==> NoOddHost(c))
  {
    var lines := Split(text, '\n');
    SplitParts(text, '\n');
    TextDirectivesOk(lines);
    DirectivesPrintable(Directives(ClassifyAll(lines)), name);
  }

  lemma {:induction false} DirectivesPrintable(ds: seq<Directive>, name: string)
    requires DirectivesOk(ds) && ParseDirectives(ds, name).Ok?
    ensures var c := ParseDirectives(ds, name).value;
            c.name == name && Printable(c) && (EndpointsOk(c) <==> NoOddHost(c))
  {
    RunOk(INITIAL, ds);
    FinishOk(name, Run(INITIAL, ds).value);
  }

  // Saving a loaded config and loading it again gives the same config, with a
  // switched-off keepalive left out, exactly when no endpoint host is odd.
  lemma {:induction false} Reload(text: string, name: string, order: seq<PacketKey>)
    requires Parse(text, name).Ok?
    requires VisitOrder(order, Parse(text, name).value.iface.iPackets)
    ensures var c := Parse(text, name).value;
            Parse(Print(c, order), name) == if NoOddHost(c) then Ok(Normal(c)) else Err(BadValue)
  {
    ParsedIsPrintable(text, name);
    ReadBack(Parse(text, name).value, order);
  }

  lemma {:induction false} LoopbackParses()
    ensures ParseIP("::1").Some?
  {
    ParseLeadingGap([1]);
    assert JoinHex([1]) == ShowHex(1) == "1";
    assert "::" + "1" == "::1";
    assert Expand(Groups([1], 0)).Some?;
    assert "::1"[0] == ':';
  }

  lemma {:induction false} OddHostParses()
    ensures ParseHost("[::1%a]]") == Some("::1%a]")
  {
    var host := "::1%a]";
    var h := ['['] + host + [']'];
    assert h == "[::1%a]]";
    LoopbackParses();
    LastIndexOfAt("::1", '%', "a]");
    assert "::1" + ['%'] + "a]" == host;
    LastIndexOfShift('%', host, '[', ']');
    IndexOfShift(':', host, '[', [']']);
    assert host[0] == ':';
    assert h[1..4] == "::1" && h[1..7] == host;
  }

  // The endpoint "[::1%a]]:80" is accepted, and what is printed for it is not.
  lemma {:induction false} OddEndpointIsLost()
    ensures ParseEndpoint("[::1%a]]" + [':'] + Itoa(80)) == Some(Endpoint("::1%a]", 80))
    ensures OddHost("::1%a]") && ParseEndpoint(ShowEndpoint(Endpoint("::1%a]", 80))) == None
  {
    var host := "::1%a]";
    HostAndPort("[::1%a]]", 80);
    OddHostParses();
    assert host[0] == ':' && host[5] == ']';
    EndpointValue(Endpoint(host, 80));
  }
}
