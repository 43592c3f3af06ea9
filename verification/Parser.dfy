// The wg-quick parser: text to Config.
module Parser {
  import opened Text
  import opened Decimal
  import opened Ip
  import opened KeyText
  import opened Config
  import opened Names

  // NilPrefix is no error the parser returns: the program stops there, because
  // parseIPCidr gave neither a prefix nor an error and the result is used.
  datatype ParseError =
    | BadName | NotInSection | MissingEquals | MissingValue | InvalidKey | BadValue
    | NoPrivateKey | NoPublicKey | NilPrefix

  datatype Result<+T> = Ok(value: T) | Err(error: ParseError)

  // ----- keys -----

  // The keys of both sections. HandshakeTag stands for j1..j3 and itime, which
  // may be empty but belong to no section.
  datatype OptionKey =
    | Text(text: TextKey) | Number(number: NumberKey) | Packet(packet: PacketKey)
    | PrivateKey | HeaderProtectionKey | Mtu | Address | Dns | Table
    | PublicKey | PresharedKey | AllowedIPs | PersistentKeepalive | PeerEndpoint
    | HandshakeTag | Unknown

  function ShortKeyOf(key: string): OptionKey
    requires |key| == 2
  {
    var d := key[1];
    if key[0] == 'h' then
      (if d == '1' then Text(H1) else if d == '2' then Text(H2) else if d == '3' then Text(H3)
       else if d == '4' then Text(H4) else Unknown)
    else if key[0] == 's' then
      (if d == '1' then Number(S1) else if d == '2' then Number(S2) else if d == '3' then Number(S3)
       else if d == '4' then Number(S4) else Unknown)
    else if key[0] == 'i' then
      (if d == '1' then Packet(I1) else if d == '2' then Packet(I2) else if d == '3' then Packet(I3)
       else if d == '4' then Packet(I4) else if d == '5' then Packet(I5) else Unknown)
    else if key[0] == 'j' then
      (if d == 'c' then Number(Jc) else if d == '1' || d == '2' || d == '3' then HandshakeTag else Unknown)
    else Unknown
  }

  // The case of the parser's switch that a lower-case key selects; keys of one
  // length are told apart together.
  function KeyOf(key: string): OptionKey {
    var n := |key|;
    if n == 2 then ShortKeyOf(key)
    else if n == 3 then (if key == "mtu" then Mtu else if key == "dns" then Dns else Unknown)
    else if n == 4 then (if key == "jmin" then Number(Jmin) else if key == "jmax" then Number(Jmax) else Unknown)
    else if n == 5 then
      (if key == "preup" then Text(PreUp) else if key == "table" then Table
       else if key == "itime" then HandshakeTag else Unknown)
    else if n == 6 then (if key == "postup" then Text(PostUp) else Unknown)
    else if n == 7 then (if key == "predown" then Text(PreDown) else if key == "address" then Address else Unknown)
    else if n == 8 then (if key == "postdown" then Text(PostDown) else if key == "endpoint" then PeerEndpoint else Unknown)
    else if n == 9 then (if key == "publickey" then PublicKey else Unknown)
    else if n == 10 then
      (if key == "privatekey" then PrivateKey else if key == "listenport" then Number(ListenPort)
       else if key == "allowedips" then AllowedIPs else Unknown)
    else LongKeyOf(key)
  }

  function LongKeyOf(key: string): OptionKey {
    var n := |key|;
    if n == 12 then
      (if key == "rekeytimeout" then Text(RekeyTimeout) else if key == "presharedkey" then PresharedKey else Unknown)
    else if n == 14 then
      (if key == "rekeyaftertime" then Text(RekeyAfterTime) else if key == "randomtrailers" then Text(RandomTrailers)
       else if key == "disablecookies" then Text(DisableCookies)
       else if key == "pinendpointvia" then Text(PinEndpointVia) else Unknown)
    else if n == 15 then (if key == "rejectaftertime" then Text(RejectAfterTime) else Unknown)
    else if n == 16 then (if key == "keepalivetimeout" then Text(KeepaliveTimeout) else Unknown)
    else if n == 19 then
      (if key == "headerprotectionkey" then HeaderProtectionKey
       else if key == "persistentkeepalive" then PersistentKeepalive else Unknown)
    else if n == 20 then (if key == "maxhandshakeattempts" then Text(MaxHandshakeAttempts) else Unknown)
    else if n == 22 then (if key == "contentpaddingaddition" then Text(ContentPaddingAddition) else Unknown)
    else Unknown
  }

  // Keys whose value may be empty.
  predicate MayBeEmpty(k: OptionKey) {
    || k.Packet? || k.HandshakeTag? || k.HeaderProtectionKey?
    || (k.Text? && k.text in {ContentPaddingAddition, RekeyAfterTime, RekeyTimeout, RejectAfterTime,
                              KeepaliveTimeout, MaxHandshakeAttempts, RandomTrailers, DisableCookies})
  }

  // ----- lines -----

  datatype Line = Blank | InterfaceHeader | PeerHeader | NoEquals | Entry(key: OptionKey, val: string)

  // A line without its comment and the white space around it.
  function Strip(line: string): (r: string)
    ensures Trimmed(r)
  {
    var pound := IndexOf(line, '#');
    Trim(if pound >= 0 then line[..pound] else line)
  }

  function ClassifyStripped(line: string): Line {
    if line == "" then Blank
    else if Lower(line) == "[interface]" then InterfaceHeader
    else if Lower(line) == "[peer]" then PeerHeader
    else
      var equals := IndexOf(line, '=');
      if equals < 0 then NoEquals
      else Entry(KeyOf(Trim(Lower(line)[..equals])), Trim(line[equals + 1..]))
  }

  function Classify(line: string): Line {
    ClassifyStripped(Strip(line))
  }

  function ClassifyAll(lines: seq<string>): (r: seq<Line>)
    ensures |r| == |lines|
  {
    seq(|lines|, i requires 0 <= i < |lines| => Classify(lines[i]))
  }

  // ----- values -----

  // parseIPCidr
  function ParseIPCidr(s: string): (r: Result<IPCidr>) {
    var i := IndexOf(s, '/');
    if i < 0 then CidrOf(ParseIP(s), "") else CidrOf(ParseIP(s[..i]), s[i + 1..])
  }

  function CidrOf(addr: Option<IP>, cidrStr: string): (r: Result<IPCidr>) {
    match addr
    case None => Err(BadValue)
    case Some(addr) =>
      var ip := match To4(addr) case Some(four) => four case None => addr;
      if cidrStr == "" then Ok(IPCidr(ip, Bits(ip)))
      else
        match Atoi(cidrStr)
        case None => Err(BadValue)
        case Some(cidr) => if 0 <= cidr <= Bits(ip) then Ok(IPCidr(ip, cidr)) else Err(NilPrefix)
  }

  function ParseIPCidrs(items: seq<string>): (r: Result<seq<IPCidr>>) {
    if items == [] then Ok([])
    else
      match ParseIPCidr(items[0])
      case Err(e) => Err(e)
      case Ok(a) =>
        match ParseIPCidrs(items[1..])
        case Err(e) => Err(e)
        case Ok(rest) => Ok([a] + rest)
  }

  function ParseCidrList(val: string): (r: Result<seq<IPCidr>>) {
    match ListItems(val)
    case None => Err(BadValue)
    case Some(items) => ParseIPCidrs(items)
  }

  // Entries of a DNS list are servers when they are addresses, else search domains.
  function DnsServers(items: seq<string>): (r: seq<IP>) {
    if items == [] then []
    else
      match ParseIP(items[0])
      case Some(ip) => [ip] + DnsServers(items[1..])
      case None => DnsServers(items[1..])
  }

  function DnsDomains(items: seq<string>): (r: seq<string>) {
    if items == [] then []
    else if ParseIP(items[0]).None? then [items[0]] + DnsDomains(items[1..])
    else DnsDomains(items[1..])
  }

  function ParsePort(s: string): (r: Option<nat>) {
    ParseRange(s, 0, 65535)
  }

  // The host of an endpoint once the port is cut off: plain, or a bracketed
  // IPv6 address with an optional zone.
  function ParseHost(host: string): (r: Option<string>)
    requires host != ""
  {
    var last := |host| - 1;
    var hostColon := IndexOf(host, ':');
    if host[0] == '[' || host[last] == ']' || hostColon > 0 then
      if |host| > 3 && host[0] == '[' && host[last] == ']' && hostColon > 0 then
        var i := LastIndexOf(host, '%');
        var end := if i > 1 then i else last;
        if ParseIP(host[1..end]).None? then None else Some(host[1..last])
      else None
    else Some(host)
  }

  // parseEndpoint
  function ParseEndpoint(s: string): (r: Option<Endpoint>) {
    var i := LastIndexOf(s, ':');
    if i < 1 then None
    else
      match ParsePort(s[i + 1..])
      case None => None
      case Some(port) =>
        match ParseHost(s[..i])
        case None => None
        case Some(host) => Some(Endpoint(host, port))
  }

  // parseTableOff
  function ParseTableOff(s: string): (r: Option<bool>) {
    if s == "off" then Some(true)
    else if s == "auto" || s == "main" || IsUint32(s) then Some(false)
    else None
  }

  // parsePersistentKeepalive
  function ParseKeepalive(s: string): (r: string) {
    if s == "off" || s == "(off)" then "0" else s
  }

  // ----- what a line asks for -----

  datatype InterfaceOption =
    | SetText(textKey: TextKey, text: string)
    | SetNumber(numberKey: NumberKey, number: nat)
    | SetPacket(packetKey: PacketKey, packet: string)
    | SetPrivateKey(key: Key)
    | SetHeaderProtectionKey(key: Key)
    | SetMtu(mtu: nat)
    | AddAddresses(addresses: seq<IPCidr>)
    | AddDns(servers: seq<IP>, domains: seq<string>)
    | SetTableOff(off: bool)

  datatype PeerOption =
    | SetPublicKey(key: Key)
    | SetPresharedKey(key: Key)
    | AddAllowedIPs(allowedIPs: seq<IPCidr>)
    | SetKeepalive(keepalive: string)
    | SetEndpoint(endpoint: Endpoint)

  // A line with its value read: a section, an option of one of the sections, or
  // an error that does not depend on the section.
  datatype Directive =
    | Nothing | OpenInterface | OpenPeer
    | ForInterface(option: InterfaceOption) | BadInterfaceValue | NilInterfaceValue
    | ForPeer(peerOption: PeerOption) | BadPeerValue | NilPeerValue
    | Malformed(error: ParseError)

  function InterfaceNumber(k: NumberKey, n: Option<nat>): Directive {
    if n.None? then BadInterfaceValue else ForInterface(SetNumber(k, n.value))
  }

  function InterfaceKey(private: bool, k: Option<Key>): Directive {
    if k.None? then BadInterfaceValue
    else ForInterface(if private then SetPrivateKey(k.value) else SetHeaderProtectionKey(k.value))
  }

  function InterfaceMtu(m: Option<nat>): Directive {
    if m.None? then BadInterfaceValue else ForInterface(SetMtu(m.value))
  }

  function InterfaceAddresses(a: Result<seq<IPCidr>>): Directive {
    match a
    case Ok(addresses) => ForInterface(AddAddresses(addresses))
    case Err(e) => if e.NilPrefix? then NilInterfaceValue else BadInterfaceValue
  }

  function InterfaceDns(d: Option<seq<string>>): Directive {
    if d.None? then BadInterfaceValue else ForInterface(AddDns(DnsServers(d.value), DnsDomains(d.value)))
  }

  function InterfaceTable(b: Option<bool>): Directive {
    if b.None? then BadInterfaceValue else ForInterface(SetTableOff(b.value))
  }

  function PeerKey(public: bool, k: Option<Key>): Directive {
    if k.None? then BadPeerValue else ForPeer(if public then SetPublicKey(k.value) else SetPresharedKey(k.value))
  }

  function PeerAllowedIPs(a: Result<seq<IPCidr>>): Directive {
    match a
    case Ok(allowedIPs) => ForPeer(AddAllowedIPs(allowedIPs))
    case Err(e) => if e.NilPrefix? then NilPeerValue else BadPeerValue
  }

  function PeerEndpointOf(e: Option<Endpoint>): Directive {
    if e.None? then BadPeerValue else ForPeer(SetEndpoint(e.value))
  }

  // The two lists of prefixes are read apart from everything else.
  function EntryDirective(key: OptionKey, val: string): Directive {
    if key == Address then InterfaceAddresses(ParseCidrList(val))
    else if key == AllowedIPs then PeerAllowedIPs(ParseCidrList(val))
    else PlainDirective(key, val)
  }

  function PlainDirective(key: OptionKey, val: string): Directive
    requires key != Address && key != AllowedIPs
  {
    match key
    case Text(k) => ForInterface(SetText(k, val))
    case Number(k) => InterfaceNumber(k, ParsePort(val))
    case Packet(k) => ForInterface(SetPacket(k, val))
    case PrivateKey => InterfaceKey(true, ParseKey(val))
    case HeaderProtectionKey => InterfaceKey(false, if val == "" then Some(ZERO_KEY) else ParseKey(val))
    case Mtu => InterfaceMtu(ParseRange(val, 576, 65535))
    case Dns => InterfaceDns(ListItems(val))
    case Table => InterfaceTable(ParseTableOff(val))
    case PublicKey => PeerKey(true, ParseKey(val))
    case PresharedKey => PeerKey(false, ParseKey(val))
    case PersistentKeepalive => ForPeer(SetKeepalive(ParseKeepalive(val)))
    case PeerEndpoint => PeerEndpointOf(ParseEndpoint(val))
    case HandshakeTag => Malformed(InvalidKey)
    case Unknown => Malformed(InvalidKey)
  }

  function DirectiveOf(line: Line): Directive {
    match line
    case Blank => Nothing
    case InterfaceHeader => OpenInterface
    case PeerHeader => OpenPeer
    case NoEquals => Malformed(MissingEquals)
    case Entry(key, val) =>
      if val == "" && !MayBeEmpty(key) then Malformed(MissingValue) else EntryDirective(key, val)
  }

  function Directives(lines: seq<Line>): (r: seq<Directive>)
    ensures |r| == |lines|
  {
    seq(|lines|, i requires 0 <= i < |lines| => DirectiveOf(lines[i]))
  }

  // ----- one line after another -----

  datatype Section = InInterface | InPeer | NoSection

  datatype State = State(
    section: Section,
    iface: Interface,
    peers: seq<Peer>,
    peer: Option<Peer>,
    sawPrivateKey: bool)

  const INITIAL := State(NoSection, BLANK_INTERFACE, [], None, false)

  function SetInterface(i: Interface, o: InterfaceOption): (r: Interface) {
    match o
    case SetText(k, v) => i.SetText(k, v)
    case SetNumber(k, n) => i.SetNumber(k, n)
    case SetPacket(k, v) => if v == "" then i else i.(iPackets := i.iPackets[k := v])
    case SetPrivateKey(k) => i.(privateKey := k)
    case SetHeaderProtectionKey(k) => i.(headerProtectionKey := k)
    case SetMtu(m) => i.(mtu := m)
    case AddAddresses(a) => i.(addresses := i.addresses + a)
    case AddDns(servers, domains) => i.(dns := i.dns + servers, dnsSearch := i.dnsSearch + domains)
    case SetTableOff(b) => i.(tableOff := b)
  }

  function SetPeer(p: Peer, o: PeerOption): (r: Peer) {
    match o
    case SetPublicKey(k) => p.(publicKey := k)
    case SetPresharedKey(k) => p.(presharedKey := k)
    case AddAllowedIPs(a) => p.(allowedIPs := p.allowedIPs + a)
    case SetKeepalive(k) => p.(persistentKeepalive := k)
    case SetEndpoint(e) => p.(endpoint := e)
  }

  // maybeAddPeer
  function AddPeer(peers: seq<Peer>, peer: Option<Peer>): seq<Peer> {
    if peer.None? then peers else peers + [peer.value]
  }

  function Step(st: State, d: Directive): (r: Result<State>) {
    match d
    case Nothing => Ok(st)
    // The current peer is added here and stays current, so it is added again at
    // the next header or at the end.
    case OpenInterface => Ok(st.(peers := AddPeer(st.peers, st.peer), section := InInterface))
    case OpenPeer => Ok(st.(peers := AddPeer(st.peers, st.peer), peer := Some(BLANK_PEER), section := InPeer))
    case Malformed(e) => Err(if st.section.NoSection? then NotInSection else e)
    case ForInterface(o) =>
      if st.section.InInterface? then
        Ok(st.(iface := SetInterface(st.iface, o), sawPrivateKey := st.sawPrivateKey || o.SetPrivateKey?))
      else Err(if st.section.NoSection? then NotInSection else InvalidKey)
    case BadInterfaceValue =>
      Err(if st.section.InInterface? then BadValue else if st.section.NoSection? then NotInSection else InvalidKey)
    case NilInterfaceValue =>
      Err(if st.section.InInterface? then NilPrefix else if st.section.NoSection? then NotInSection else InvalidKey)
    case ForPeer(o) =>
      if st.section.InPeer? && st.peer.Some? then Ok(st.(peer := Some(SetPeer(st.peer.value, o))))
      else Err(if st.section.NoSection? then NotInSection else InvalidKey)
    case BadPeerValue =>
      Err(if st.section.InPeer? then BadValue else if st.section.NoSection? then NotInSection else InvalidKey)
    case NilPeerValue =>
      Err(if st.section.InPeer? then NilPrefix else if st.section.NoSection? then NotInSection else InvalidKey)
  }

  function Run(st: State, ds: seq<Directive>): (r: Result<State>)
    decreases |ds|
  {
    if ds == [] then Ok(st)
    else
      match Step(st, ds[0])
      case Err(e) => Err(e)
      case Ok(st') => Run(st', ds[1..])
  }

  predicate AllPublicKeys(peers: seq<Peer>) {
    forall i :: 0 <= i < |peers| ==> peers[i].publicKey != ZERO_KEY
  }

  function Finish(name: string, st: State): (r: Result<Config>) {
    var peers := AddPeer(st.peers, st.peer);
    if !st.sawPrivateKey then Err(NoPrivateKey)
    else if !AllPublicKeys(peers) then Err(NoPublicKey)
    else Ok(Config(name, st.iface, peers))
  }

  function ParseDirectives(ds: seq<Directive>, name: string): (r: Result<Config>) {
    match Run(INITIAL, ds)
    case Err(e) => Err(e)
    case Ok(st) => Finish(name, st)
  }

  // The meaning of a config text.
  function Parse(text: string, name: string): (r: Result<Config>) {
    if !ValidName(name) then Err(BadName)
    else ParseDirectives(Directives(ClassifyAll(Split(text, '\n'))), name)
  }

  lemma {:induction false} RunAppend(st: State, a: seq<Directive>, b: seq<Directive>)
    ensures Run(st, a + b) == match Run(st, a) case Err(e) => Err(e) case Ok(st') => Run(st', b)
    decreases |a|
  {
    if a == [] {
      assert a + b == b;
    } else {
      assert (a + b)[1..] == a[1..] + b;
      match Step(st, a[0])
      case Err(_) =>
      case Ok(st') => RunAppend(st', a[1..], b);
    }
  }

  lemma {:induction false} RunFrom(st: State, ds: seq<Directive>, n: nat)
    requires n < |ds|
    ensures Run(st, ds[n..]) ==
            match Step(st, ds[n]) case Err(e) => Err(e) case Ok(st') => Run(st', ds[n + 1..])
  {
    assert ds[n..][1..] == ds[n + 1..];
  }

  // The parser's loop over the lines and the checks after it.
  method ReadDirectives(ds: seq<Directive>, name: string) returns (r: Result<Config>)
    ensures r == ParseDirectives(ds, name)
  {
    var section, iface, peers := NoSection, BLANK_INTERFACE, [];
    var peer: Option<Peer> := None;
    var sawPrivateKey := false;
    var n := 0;
    assert ds[0..] == ds;
    while n < |ds|
      invariant 0 <= n <= |ds|
      invariant section.InPeer? ==> peer.Some?
      invariant Run(INITIAL, ds) == Run(State(section, iface, peers, peer, sawPrivateKey), ds[n..])
    {
      RunFrom(State(section, iface, peers, peer, sawPrivateKey), ds, n);
      var d := ds[n];
      n := n + 1;
      if d.Nothing? {
        continue;
      }
      if d.OpenInterface? {
        peers := AddPeer(peers, peer);
        section := InInterface;
        continue;
      }
      if d.OpenPeer? {
        peers := AddPeer(peers, peer);
        peer := Some(BLANK_PEER);
        section := InPeer;
        continue;
      }
      if section.NoSection? {
        return Err(NotInSection);
      }
      if d.Malformed? {
        return Err(d.error);
      }
      if section.InInterface? {
        if d.BadInterfaceValue? {
          return Err(BadValue);
        }
        if d.NilInterfaceValue? {
          return Err(NilPrefix);
        }
        if !d.ForInterface? {
          return Err(InvalidKey);
        }
        iface := SetInterface(iface, d.option);
        sawPrivateKey := sawPrivateKey || d.option.SetPrivateKey?;
      } else {
        if d.BadPeerValue? {
          return Err(BadValue);
        }
        if d.NilPeerValue? {
          return Err(NilPrefix);
        }
        if !d.ForPeer? {
          return Err(InvalidKey);
        }
        peer := Some(SetPeer(peer.value, d.peerOption));
      }
    }
    peers := AddPeer(peers, peer);
    if !sawPrivateKey {
      return Err(NoPrivateKey);
    }
    var k := 0;
    while k < |peers|
      invariant 0 <= k <= |peers|
      invariant forall i :: 0 <= i < k ==> peers[i].publicKey != ZERO_KEY
    {
      if peers[k].publicKey == ZERO_KEY {
        return Err(NoPublicKey);
      }
      k := k + 1;
    }
    r := Ok(Config(name, iface, peers));
  }

  // FromWgQuick
  method FromWgQuick(s: string, name: string) returns (r: Result<Config>)
    ensures r == Parse(s, name)
  {
    if !ValidName(name) {
      return Err(BadName);
    }
    r := ReadDirectives(Directives(ClassifyAll(Split(s, '\n'))), name);
  }
}
