// The configuration of one tunnel.
//
// The free-text options, the numeric options and the I1..I5 packets of the
// Interface record are three tables keyed by option; an option absent from its
// table holds the zero value of its Go field (the empty string or 0).
module Config {
  import opened Text
  import opened Ip
  import opened KeyText

  datatype IPCidr = IPCidr(ip: IP, cidr: nat)

  // IPCidr.Bits
  function Bits(ip: IP): nat {
    if To4(ip).Some? then 32 else 128
  }

  datatype Endpoint = Endpoint(host: string, port: nat)

  const NO_ENDPOINT := Endpoint("", 0)

  datatype NumberKey = ListenPort | Jc | Jmin | Jmax | S1 | S2 | S3 | S4

  datatype TextKey =
    | H1 | H2 | H3 | H4
    | ContentPaddingAddition | RekeyAfterTime | RekeyTimeout | RejectAfterTime
    | KeepaliveTimeout | MaxHandshakeAttempts | RandomTrailers | DisableCookies
    | PreUp | PostUp | PreDown | PostDown
    | PinEndpointVia

  datatype PacketKey = I1 | I2 | I3 | I4 | I5

  datatype Interface = Interface(
    privateKey: Key,
    headerProtectionKey: Key,
    numbers: map<NumberKey, nat>,
    texts: map<TextKey, string>,
    iPackets: map<PacketKey, string>,
    addresses: seq<IPCidr>,
    dns: seq<IP>,
    dnsSearch: seq<string>,
    mtu: nat,
    tableOff: bool)
  {
    function Text(k: TextKey): (v: string) {
      if k in texts then texts[k] else ""
    }

    function Number(k: NumberKey): (n: nat) {
      if k in numbers then numbers[k] else 0
    }

    // The zero value of a field is the absence of its entry.
    function SetText(k: TextKey, v: string): (i: Interface) {
      this.(texts := if v == "" then texts - {k} else texts[k := v])
    }

    function SetNumber(k: NumberKey, n: nat): (i: Interface) {
      this.(numbers := if n == 0 then numbers - {k} else numbers[k := n])
    }
  }

  datatype Peer = Peer(
    publicKey: Key,
    presharedKey: Key,
    allowedIPs: seq<IPCidr>,
    endpoint: Endpoint,
    persistentKeepalive: string)

  datatype Config = Config(name: string, iface: Interface, peers: seq<Peer>)

  const DEFAULT_MTU := 1420

  const BLANK_INTERFACE :=
    Interface(ZERO_KEY, ZERO_KEY, map[], map[], map[], [], [], [], DEFAULT_MTU, false)

  const BLANK_PEER := Peer(ZERO_KEY, ZERO_KEY, [], NO_ENDPOINT, "")

  // ----- well-formedness: what the file format can carry -----

  // A value that survives comment stripping, trimming and line splitting.
  predicate ValueText(v: string) {
    v != "" && Trimmed(v) && '#' !in v && '\n' !in v
  }

  predicate CidrOk(a: IPCidr) {
    (|a.ip| == 4 || To4(a.ip).None?) && a.cidr <= Bits(a.ip)
  }

  predicate CidrsOk(s: seq<IPCidr>) {
    forall n :: 0 <= n < |s| ==> CidrOk(s[n])
  }

  predicate SearchOk(s: string) {
    ValueText(s) && ',' !in s && ParseIP(s).None?
  }

  predicate InterfaceOk(i: Interface) {
    && (forall k :: k in i.numbers ==> 0 < i.numbers[k] <= 65535)
    && (forall k :: k in i.texts ==> ValueText(i.texts[k]))
    && (forall k :: k in i.iPackets ==> ValueText(i.iPackets[k]))
    && CidrsOk(i.addresses)
    && (forall n :: 0 <= n < |i.dns| ==> |i.dns[n]| == 16)
    && (forall n :: 0 <= n < |i.dnsSearch| ==> SearchOk(i.dnsSearch[n]))
    && 576 <= i.mtu <= 65535
  }

  // A host that can stand in an endpoint line: with its port behind it, white
  // space only matters at the front, and there only without brackets.
  predicate HostText(host: string) {
    host != "" && '#' !in host && '\n' !in host && (IndexOf(host, ':') > 0 || !IsSpace(host[0]))
  }

  predicate EndpointText(e: Endpoint) {
    e == NO_ENDPOINT || (HostText(e.host) && e.port <= 65535)
  }

  predicate PeerOk(p: Peer) {
    && p.publicKey != ZERO_KEY
    && CidrsOk(p.allowedIPs)
    && EndpointText(p.endpoint)
    && (p.persistentKeepalive == "" || (ValueText(p.persistentKeepalive) && p.persistentKeepalive != "(off)"))
  }

  // A config whose values the file format can carry.
  predicate Printable(c: Config) {
    && InterfaceOk(c.iface)
    && forall n :: 0 <= n < |c.peers| ==> PeerOk(c.peers[n])
  }

  // ----- endpoints -----

  // The part of a bracketed host that has to be an address: all of it, or what
  // stands before the zone.
  function AddressPart(host: string): string {
    var i := LastIndexOf(host, '%');
    if i >= 1 then host[..i] else host
  }

  // Endpoint.String brackets a host with a colon past its first character, so
  // such a host must be an address; any other must not look bracketed.
  predicate HostOk(host: string)
    requires host != ""
  {
    if IndexOf(host, ':') > 0 then ParseIP(AddressPart(host)).Some?
    else host[0] != '[' && host[|host| - 1] != ']'
  }

  predicate EndpointOk(e: Endpoint) {
    e.host == "" || HostOk(e.host)
  }

  predicate EndpointsOk(c: Config) {
    forall n :: 0 <= n < |c.peers| ==> EndpointOk(c.peers[n].endpoint)
  }

  // ----- keepalive -----

  // A keepalive that is switched off is not written at all.
  function NormalPeer(p: Peer): Peer {
    if p.persistentKeepalive == "0" || p.persistentKeepalive == "off" then p.(persistentKeepalive := "") else p
  }

  function NormalPeers(ps: seq<Peer>): (r: seq<Peer>)
    ensures |r| == |ps|
  {
    seq(|ps|, n requires 0 <= n < |ps| => NormalPeer(ps[n]))
  }

  function Normal(c: Config): Config {
    c.(peers := NormalPeers(c.peers))
  }

  // What the file format gives back unchanged.
  predicate WellFormed(c: Config) {
    && Printable(c)
    && EndpointsOk(c)
    && forall n :: 0 <= n < |c.peers| ==> c.peers[n].persistentKeepalive != "0" && c.peers[n].persistentKeepalive != "off"
  }
}
