// Building a chain out of two configurations, and what the pair promises: the
// inner hop takes all traffic, and the manager knows the two as one chain.
module ChainBuild {
  import opened Text
  import opened Ip
  import opened Prefix
  import opened Config
  import Names
  import PairNames
  import Forest

  const HOP1_MTU: nat := 1420
  const HOP2_MTU: nat := 1360

  datatype BuildError = NoConfig | NoAdapter | BadName | BadHiddenName | NoOuterEndpoint | NoInnerEndpoint

  datatype Built = Chain(hop1: Config, hop2: Config) | Failed(error: BuildError)

  // ----- The halves of the default route -----

  const ZERO_4: IP := [0, 0, 0, 0]
  const HALF_4: IP := [128, 0, 0, 0]
  const ZERO_6: IP := [0, 0, 0, 0, 0, 0, 0, 0, 0, 0, 0, 0, 0, 0, 0, 0]
  const HALF_6: IP := [128, 0, 0, 0, 0, 0, 0, 0, 0, 0, 0, 0, 0, 0, 0, 0]

  const SPLIT_4: seq<IPCidr> := [IPCidr(ZERO_4, 1), IPCidr(HALF_4, 1)]
  const SPLIT_6: seq<IPCidr> := [IPCidr(ZERO_6, 1), IPCidr(HALF_6, 1)]

  predicate IsV6(ip: IP) {
    To4(ip).None?
  }

  predicate HasIPv6(addresses: seq<IPCidr>) {
    exists i :: 0 <= i < |addresses| && IsV6(addresses[i].ip)
  }

  function SplitDefaultFor(addresses: seq<IPCidr>): (r: seq<IPCidr>) {
    SPLIT_4 + if HasIPv6(addresses) then SPLIT_6 else []
  }

  method ConfigHasIPv6(c: Config) returns (r: bool)
    ensures r == HasIPv6(c.iface.addresses)
  {
    for i := 0 to |c.iface.addresses|
      invariant forall k :: 0 <= k < i ==> !IsV6(c.iface.addresses[k].ip)
    {
      if To4(c.iface.addresses[i].ip).None? {
        return true;
      }
    }
    return false;
  }

  // net.IP.IsUnspecified
  predicate IsUnspecified(ip: IP) {
    To4(ip) == Some(ZERO_4) || ip == ZERO_6
  }

  predicate IsDefault(a: IPCidr) {
    a.cidr == 0 && IsUnspecified(a.ip)
  }

  predicate CoversEverything(ips: seq<IPCidr>) {
    exists i :: 0 <= i < |ips| && IsDefault(ips[i])
  }

  method FindDefault(ips: seq<IPCidr>) returns (r: bool)
    ensures r == CoversEverything(ips)
  {
    for i := 0 to |ips|
      invariant forall k :: 0 <= k < i ==> !IsDefault(ips[k])
    {
      if ips[i].cidr == 0 && IsUnspecified(ips[i].ip) {
        return true;
      }
    }
    return false;
  }

  // ----- Resolvers and peers -----

  function FilterDns(servers: seq<IP>, allowV6: bool): (r: seq<IP>) {
    if servers == [] then []
    else
      var ip := servers[|servers| - 1];
      FilterDns(servers[..|servers| - 1], allowV6) + if allowV6 || !IsV6(ip) then [ip] else []
  }

  method KeepDns(servers: seq<IP>, allowV6: bool) returns (r: seq<IP>)
    ensures r == FilterDns(servers, allowV6)
  {
    if allowV6 {
      FilterAll(servers);
      return servers;
    }
    r := [];
    for i := 0 to |servers|
      invariant r == FilterDns(servers[..i], false)
    {
      assert servers[..i + 1][..i] == servers[..i];
      if To4(servers[i]).None? {
        continue;
      }
      r := r + [servers[i]];
    }
    assert servers[..|servers|] == servers;
  }

  lemma {:induction false} FilterAll(servers: seq<IP>)
    ensures FilterDns(servers, true) == servers
  {
    if servers != [] {
      FilterAll(servers[..|servers| - 1]);
    }
  }

  function CopyPeer(p: Peer): (r: Peer) {
    var keepalive := Trim(p.persistentKeepalive);
    if keepalive == "" || keepalive == "0" || keepalive == "off" then p.(persistentKeepalive := "25") else p
  }

  function CopyPeers(ps: seq<Peer>): (r: seq<Peer>)
    ensures |r| == |ps|
  {
    seq(|ps|, i requires 0 <= i < |ps| => CopyPeer(ps[i]))
  }

  // The inner hop's peer: a default route becomes the two halves.
  function InnerPeer(p: Peer, addresses: seq<IPCidr>): (r: Peer) {
    var copy := CopyPeer(p);
    if CoversEverything(p.allowedIPs) then copy.(allowedIPs := SplitDefaultFor(addresses)) else copy
  }

  function InnerPeers(ps: seq<Peer>, addresses: seq<IPCidr>): (r: seq<Peer>)
    ensures |r| == |ps|
  {
    seq(|ps|, i requires 0 <= i < |ps| => InnerPeer(ps[i], addresses))
  }

  predicate HasEndpoint(c: Config) {
    exists i :: 0 <= i < |c.peers| && c.peers[i].endpoint.host != ""
  }

  // ----- The two hops -----

  const DEFAULT_DNS: seq<IP> := [V4_PREFIX + [1, 1, 1, 1], V4_PREFIX + [1, 0, 0, 1]]

  function OuterHop(warp: Config, name: string, alias: string): (c: Config) {
    Config(name,
      warp.iface.SetText(PinEndpointVia, alias).(tableOff := true, mtu := HOP1_MTU, dns := [], dnsSearch := []),
      CopyPeers(warp.peers))
  }

  function InnerHop(inner: Config, name: string, hidden: string): (c: Config) {
    var servers := if inner.iface.dns == [] then DEFAULT_DNS else inner.iface.dns;
    Config(name,
      inner.iface.SetText(PinEndpointVia, hidden).(tableOff := false, mtu := HOP2_MTU, dns := FilterDns(servers, HasIPv6(inner.iface.addresses))),
      InnerPeers(inner.peers, inner.iface.addresses))
  }

  function Problem(warp: Option<Config>, inner: Option<Config>, outerAlias: string, pairName: string): (r: Option<BuildError>) {
    if warp.None? || inner.None? then Some(NoConfig)
    else if Trim(outerAlias) == "" then Some(NoAdapter)
    else if !Names.ValidName(Trim(pairName)) then Some(BadName)
    else if !Names.ValidName(PairNames.HiddenHopName(Trim(pairName))) then Some(BadHiddenName)
    else if !HasEndpoint(warp.value) then Some(NoOuterEndpoint)
    else if !HasEndpoint(inner.value) then Some(NoInnerEndpoint)
    else None
  }

  function BuildChain(warp: Option<Config>, inner: Option<Config>, outerAlias: string, pairName: string): (r: Built) {
    var problem := Problem(warp, inner, outerAlias, pairName);
    if problem.Some? then Failed(problem.value)
    else
      var hidden := PairNames.HiddenHopName(Trim(pairName));
      Chain(OuterHop(warp.value, hidden, Trim(outerAlias)), InnerHop(inner.value, Trim(pairName), hidden))
  }

  method HopPeers(ps: seq<Peer>, addresses: seq<IPCidr>) returns (r: seq<Peer>)
    ensures r == InnerPeers(ps, addresses)
  {
    r := CopyPeers(ps);
    for i := 0 to |ps|
      invariant |r| == |ps|
      invariant forall k :: 0 <= k < i ==> r[k] == InnerPeer(ps[k], addresses)
      invariant forall k :: i <= k < |ps| ==> r[k] == CopyPeer(ps[k])
    {
      var all := FindDefault(r[i].allowedIPs);
      if all {
        r := r[i := r[i].(allowedIPs := SplitDefaultFor(addresses))];
      }
    }
  }

  // ----- What is covered -----

  // How many of the prefixes contain the address.
  function CoverCount(ips: seq<IPCidr>, a: seq<byte>): (n: nat) {
    if ips == [] then 0
    else (if InPrefix(ips[0].ip, ips[0].cidr, a) then 1 else 0) + CoverCount(ips[1..], a)
  }

  lemma {:induction false} CoverCountAppend(ips: seq<IPCidr>, more: seq<IPCidr>, a: seq<byte>)
    ensures CoverCount(ips + more, a) == CoverCount(ips, a) + CoverCount(more, a)
  {
    if ips == [] {
      assert ips + more == more;
    } else {
      CoverCountAppend(ips[1..], more, a);
      assert (ips + more)[1..] == ips[1..] + more;
    }
  }

  lemma {:induction false} BitIsBinary(b: nat, w: nat, k: nat)
    requires k < w
    ensures BitAt(b, w, k) == 0 || BitAt(b, w, k) == 1
    decreases w
  {
    if k < w - 1 {
      BitIsBinary(b / 2, w - 1, k);
    }
  }

  lemma {:induction false} LeadingBits()
    ensures BitAt(0, 8, 0) == 0 && BitAt(128, 8, 0) == 1
  {
  }

  // Two prefixes of one bit that differ in it hold every address once.
  lemma {:induction false} HalvesOnce(zero: IP, half: IP, a: seq<byte>)
    requires |zero| == |half| && zero[0] == 0 && half[0] == 128
    ensures CoverCount([IPCidr(zero, 1), IPCidr(half, 1)], a) == if |a| == |zero| then 1 else 0
  {
    var ips := [IPCidr(zero, 1), IPCidr(half, 1)];
    var last := ips[1..];
    assert last == [IPCidr(half, 1)] && last[1..] == [];
    assert CoverCount(last[1..], a) == 0;
    assert CoverCount(last, a) == if InPrefix(half, 1, a) then 1 else 0;
    if |a| == |zero| {
      LeadingBits();
      BitIsBinary(a[0], 8, 0);
      assert BitOf(zero, 0) == 0 && BitOf(half, 0) == 1;
      assert InPrefix(zero, 1, a) <==> BitOf(a, 0) == 0;
      assert InPrefix(half, 1, a) <==> BitOf(a, 0) == 1;
    }
  }

  // Every IPv4 address exactly once, and every IPv6 address exactly once when
  // the hop has an IPv6 address of its own.
  lemma {:induction false} SplitCoversOnce(addresses: seq<IPCidr>, a: seq<byte>)
    ensures
      var six := exists k :: 0 <= k < |addresses| && To4(addresses[k].ip).None?;
      && (|a| == 4 ==> CoverCount(SplitDefaultFor(addresses), a) == 1)
      && (|a| == 16 ==> CoverCount(SplitDefaultFor(addresses), a) == if six then 1 else 0)
  {
    HalvesOnce(ZERO_4, HALF_4, a);
    HalvesOnce(ZERO_6, HALF_6, a);
    CoverCountAppend(SPLIT_4, if HasIPv6(addresses) then SPLIT_6 else [], a);
  }

  // ----- The default route as the tunnel looks for it -----

  function SetOf(ips: seq<IPCidr>): (s: set<IPCidr>) {
    set i | 0 <= i < |ips| :: ips[i]
  }

  // All AllowedIPs of all peers.
  function AllowedSet(peers: seq<Peer>): (s: set<IPCidr>) {
    if peers == [] then {} else AllowedSet(peers[..|peers| - 1]) + SetOf(peers[|peers| - 1].allowedIPs)
  }

  predicate HasDefault(v6: bool, s: set<IPCidr>) {
    if v6 then IPCidr(ZERO_6, 0) in s || (IPCidr(ZERO_6, 1) in s && IPCidr(HALF_6, 1) in s)
    else IPCidr(ZERO_4, 0) in s || (IPCidr(ZERO_4, 1) in s && IPCidr(HALF_4, 1) in s)
  }

  // The six flags: which of the prefixes were met.
  datatype Flags = Flags(v60001: bool, v68001: bool, v401: bool, v41281: bool, v600: bool, v400: bool)

  ghost predicate Marks(f: Flags, s: set<IPCidr>) {
    && f.v60001 == (IPCidr(ZERO_6, 1) in s) && f.v68001 == (IPCidr(HALF_6, 1) in s)
    && f.v401 == (IPCidr(ZERO_4, 1) in s) && f.v41281 == (IPCidr(HALF_4, 1) in s)
    && f.v600 == (IPCidr(ZERO_6, 0) in s) && f.v400 == (IPCidr(ZERO_4, 0) in s)
  }

  method MarkOne(f: Flags, a: IPCidr, ghost s: set<IPCidr>) returns (r: Flags)
    requires Marks(f, s)
    ensures Marks(r, s + {a})
  {
    r := f;
    if a.cidr == 1 && |a.ip| == 16 && a.ip == ZERO_6 {
      r := r.(v60001 := true);
    } else if a.cidr == 1 && |a.ip| == 16 && a.ip == HALF_6 {
      r := r.(v68001 := true);
    } else if a.cidr == 1 && |a.ip| == 4 && a.ip == ZERO_4 {
      r := r.(v401 := true);
    } else if a.cidr == 1 && |a.ip| == 4 && a.ip == HALF_4 {
      r := r.(v41281 := true);
    } else if a.cidr == 0 && |a.ip| == 16 && a.ip == ZERO_6 {
      r := r.(v600 := true);
    } else if a.cidr == 0 && |a.ip| == 4 && a.ip == ZERO_4 {
      r := r.(v400 := true);
    }
  }

  method MarkAll(f: Flags, ips: seq<IPCidr>, ghost s: set<IPCidr>) returns (r: Flags)
    requires Marks(f, s)
    ensures Marks(r, s + SetOf(ips))
  {
    r := f;
    ghost var met := s;
    for i := 0 to |ips|
      invariant met == s + SetOf(ips[..i])
      invariant Marks(r, met)
    {
      SetOfSnoc(ips, i);
      r := MarkOne(r, ips[i], met);
      met := met + {ips[i]};
    }
    assert ips[..|ips|] == ips;
  }

  lemma {:induction false} SetOfSnoc(ips: seq<IPCidr>, i: nat)
    requires i < |ips|
    ensures SetOf(ips[..i + 1]) == SetOf(ips[..i]) + {ips[i]}
  {
    var front, more := ips[..i], ips[..i + 1];
    assert more[i] == ips[i] && forall k :: 0 <= k < i ==> more[k] == front[k];
  }

  method HasDefaultRoute(v6: bool, peers: seq<Peer>) returns (r: bool)
    ensures r == HasDefault(v6, AllowedSet(peers))
  {
    var f := Flags(false, false, false, false, false, false);
    for i := 0 to |peers|
      invariant Marks(f, AllowedSet(peers[..i]))
    {
      assert peers[..i + 1][..i] == peers[..i];
      f := MarkAll(f, peers[i].allowedIPs, AllowedSet(peers[..i]));
    }
    assert peers[..|peers|] == peers;
    r := if v6 then f.v600 || (f.v60001 && f.v68001) else f.v400 || (f.v401 && f.v41281);
  }

  lemma {:induction false} AllowedSetHas(peers: seq<Peer>, i: nat)
    requires i < |peers|
    ensures SetOf(peers[i].allowedIPs) <= AllowedSet(peers)
  {
    if i < |peers| - 1 {
      AllowedSetHas(peers[..|peers| - 1], i);
    }
  }

  // ----- One chain -----

  predicate IsChainHop(c: Config) {
    Trim(c.iface.Text(PinEndpointVia)) != ""
  }

  predicate Siblings(a: Config, b: Config) {
    && IsChainHop(a) && IsChainHop(b)
    && (EqualFold(Trim(a.iface.Text(PinEndpointVia)), Trim(b.name)) || EqualFold(Trim(b.iface.Text(PinEndpointVia)), Trim(a.name)))
  }

  method Build(warp: Option<Config>, inner: Option<Config>, outerAlias: string, pairName: string) returns (r: Built)
    ensures r == BuildChain(warp, inner, outerAlias, pairName)
  {
    var problem := Problem(warp, inner, outerAlias, pairName);
    if problem.Some? {
      return Failed(problem.value);
    }
    var hidden := PairNames.HiddenHopName(Trim(pairName));
    var hop1 := OuterHop(warp.value, hidden, Trim(outerAlias));
    var iface := inner.value.iface.SetText(PinEndpointVia, hidden).(tableOff := false, mtu := HOP2_MTU);
    if |iface.dns| == 0 {
      iface := iface.(dns := DEFAULT_DNS);
    }
    var hop2 := Config(Trim(pairName), iface, inner.value.peers);
    var allowV6 := ConfigHasIPv6(hop2);
    var dns := KeepDns(iface.dns, allowV6);
    var peers := HopPeers(inner.value.peers, iface.addresses);
    return Chain(hop1, Config(hop2.name, iface.(dns := dns), peers));
  }

  // What a built chain promises to a peer of the inner hop with a prefix of no
  // bits: 0.0.0.0/0, in either form, or ::/0.
  lemma {:induction false} BuiltChain(warp: Config, inner: Config, outerAlias: string, pairName: string, i: nat, k: nat, a: seq<byte>)
    requires i < |inner.peers| && k < |inner.peers[i].allowedIPs| && inner.peers[i].allowedIPs[k].cidr == 0
    requires inner.peers[i].allowedIPs[k].ip in {[0, 0, 0, 0], Mapped([0, 0, 0, 0]), ZERO_6}
    ensures
      var r := BuildChain(Some(warp), Some(inner), outerAlias, pairName);
      var six := exists k :: 0 <= k < |inner.iface.addresses| && To4(inner.iface.addresses[k].ip).None?;
      r.Chain? ==>
        && |r.hop2.peers| == |inner.peers|
        && (|a| == 4 ==> CoverCount(r.hop2.peers[i].allowedIPs, a) == 1)
        && (|a| == 16 ==> CoverCount(r.hop2.peers[i].allowedIPs, a) == if six then 1 else 0)
        && HasDefault(false, AllowedSet(r.hop2.peers))
        && (six ==> HasDefault(true, AllowedSet(r.hop2.peers)))
  {
    var addresses := inner.iface.addresses;
    var peers := InnerPeers(inner.peers, addresses);
    assert IsDefault(inner.peers[i].allowedIPs[k]);
    SplitCoversOnce(addresses, a);
    AllowedSetHas(peers, i);
    SplitIsDefault(addresses);
  }

  lemma {:induction false} SplitIsDefault(addresses: seq<IPCidr>)
    ensures forall s :: SetOf(SplitDefaultFor(addresses)) <= s ==> HasDefault(false, s) && (HasIPv6(addresses) ==> HasDefault(true, s))
  {
    var split := SplitDefaultFor(addresses);
    assert split[0] == IPCidr(ZERO_4, 1) && split[1] == IPCidr(HALF_4, 1);
    assert split[0] in SetOf(split) && split[1] in SetOf(split);
    if HasIPv6(addresses) {
      assert split[2] == IPCidr(ZERO_6, 1) && split[3] == IPCidr(HALF_6, 1);
      assert split[2] in SetOf(split) && split[3] in SetOf(split);
    }
  }

  // A keepalive that is on stays, one that is off becomes 25 seconds.
  predicate KeepaliveKept(p: Peer, q: Peer) {
    if Trim(p.persistentKeepalive) in {"", "0", "off"} then q.persistentKeepalive == "25"
    else q.persistentKeepalive == p.persistentKeepalive
  }

  // The peer keeps whom it talks to, and where.
  predicate SamePeer(p: Peer, q: Peer) {
    q.publicKey == p.publicKey && q.presharedKey == p.presharedKey && q.endpoint == p.endpoint && KeepaliveKept(p, q)
  }

  // The interface keeps its own keys, addresses and options; only the pin, the
  // table, the MTU and the resolvers are the chain's.
  predicate SameInterface(i: Interface, j: Interface) {
    && j.privateKey == i.privateKey && j.headerProtectionKey == i.headerProtectionKey && j.addresses == i.addresses
    && j.numbers == i.numbers && j.iPackets == i.iPackets
    && forall k :: k != PinEndpointVia ==> j.Text(k) == i.Text(k)
  }

  lemma {:induction false} OuterKeeps(warp: Config, name: string, alias: string)
    ensures
      var hop1 := OuterHop(warp, name, alias);
      && SameInterface(warp.iface, hop1.iface) && hop1.iface.Text(PinEndpointVia) == alias
      && |hop1.peers| == |warp.peers|
      && forall i :: 0 <= i < |warp.peers| ==>
           SamePeer(warp.peers[i], hop1.peers[i]) && hop1.peers[i].allowedIPs == warp.peers[i].allowedIPs
  {
    forall i | 0 <= i < |warp.peers|
      ensures SamePeer(warp.peers[i], CopyPeers(warp.peers)[i]) && CopyPeers(warp.peers)[i].allowedIPs == warp.peers[i].allowedIPs
    {
      CopyKeeps(warp.peers[i]);
    }
  }

  // The outer hop: no routes and no resolvers of its own, pinned to the adapter.
  lemma {:induction false} BuiltOuterHop(warp: Config, inner: Config, outerAlias: string, pairName: string)
    ensures
      var r := BuildChain(Some(warp), Some(inner), outerAlias, pairName);
      r.Chain? ==>
        && r.hop1.iface.tableOff && r.hop1.iface.mtu == 1420
        && r.hop1.iface.dns == [] && r.hop1.iface.dnsSearch == []
        && r.hop1.iface.Text(PinEndpointVia) == Trim(outerAlias)
        && SameInterface(warp.iface, r.hop1.iface)
        && |r.hop1.peers| == |warp.peers|
        && forall i :: 0 <= i < |warp.peers| ==>
             SamePeer(warp.peers[i], r.hop1.peers[i]) && r.hop1.peers[i].allowedIPs == warp.peers[i].allowedIPs
  {
    OuterKeeps(warp, PairNames.HiddenHopName(Trim(pairName)), Trim(outerAlias));
  }

  lemma {:induction false} CopyKeeps(p: Peer)
    ensures SamePeer(p, CopyPeer(p)) && CopyPeer(p).allowedIPs == p.allowedIPs
  {
  }

  predicate NoBits(ips: seq<IPCidr>) {
    exists k :: 0 <= k < |ips| && ips[k].cidr == 0
  }

  lemma {:induction false} InnerKeeps(inner: Config, name: string, hidden: string)
    ensures
      var hop2 := InnerHop(inner, name, hidden);
      && SameInterface(inner.iface, hop2.iface) && hop2.iface.Text(PinEndpointVia) == hidden
      && |hop2.peers| == |inner.peers|
      && forall i :: 0 <= i < |inner.peers| ==>
           && SamePeer(inner.peers[i], hop2.peers[i])
           && (NoBits(inner.peers[i].allowedIPs) || hop2.peers[i].allowedIPs == inner.peers[i].allowedIPs)
  {
    var copies := InnerPeers(inner.peers, inner.iface.addresses);
    forall i | 0 <= i < |inner.peers|
      ensures SamePeer(inner.peers[i], copies[i])
      ensures NoBits(inner.peers[i].allowedIPs) || copies[i].allowedIPs == inner.peers[i].allowedIPs
    {
      CopyKeeps(inner.peers[i]);
    }
  }

  // The inner hop: it installs its routes, and a peer without a prefix of no bits
  // keeps its AllowedIPs.
  lemma {:induction false} BuiltInnerHop(warp: Config, inner: Config, outerAlias: string, pairName: string)
    ensures
      var r := BuildChain(Some(warp), Some(inner), outerAlias, pairName);
      r.Chain? ==>
        && r.hop2.name == Trim(pairName) && r.hop2.iface.Text(PinEndpointVia) == r.hop1.name
        && !r.hop2.iface.tableOff && r.hop2.iface.mtu == 1360
        && r.hop2.iface.dnsSearch == inner.iface.dnsSearch
        && SameInterface(inner.iface, r.hop2.iface)
        && |r.hop2.peers| == |inner.peers|
        && forall i :: 0 <= i < |inner.peers| ==>
             && SamePeer(inner.peers[i], r.hop2.peers[i])
             && (NoBits(inner.peers[i].allowedIPs) || r.hop2.peers[i].allowedIPs == inner.peers[i].allowedIPs)
  {
    InnerKeeps(inner, Trim(pairName), PairNames.HiddenHopName(Trim(pairName)));
  }

  // The resolvers of the inner hop are its own, or the two of Cloudflare when it
  // has none: all of them on a hop with IPv6, else those with an IPv4 address.
  lemma {:induction false} BuiltResolvers(warp: Config, inner: Config, outerAlias: string, pairName: string)
    ensures
      var r := BuildChain(Some(warp), Some(inner), outerAlias, pairName);
      var wanted := if inner.iface.dns != [] then inner.iface.dns else [Mapped([1, 1, 1, 1]), Mapped([1, 0, 0, 1])];
      var six := exists k :: 0 <= k < |inner.iface.addresses| && To4(inner.iface.addresses[k].ip).None?;
      r.Chain? ==>
        && (six ==> r.hop2.iface.dns == wanted)
        && (!six ==>
              multiset(r.hop2.iface.dns) <= multiset(wanted)
              && forall ip :: ip in r.hop2.iface.dns <==> ip in wanted && To4(ip).Some?)
  {
    var wanted := if inner.iface.dns == [] then DEFAULT_DNS else inner.iface.dns;
    if HasIPv6(inner.iface.addresses) {
      FilterAll(wanted);
    } else {
      FilterKeepsV4(wanted);
    }
  }

  lemma {:induction false} FilterKeepsV4(servers: seq<IP>)
    ensures multiset(FilterDns(servers, false)) <= multiset(servers)
    ensures forall ip :: ip in FilterDns(servers, false) <==> ip in servers && To4(ip).Some?
  {
    if servers != [] {
      var front, last := servers[..|servers| - 1], servers[|servers| - 1];
      FilterKeepsV4(front);
      assert servers == front + [last];
    }
  }

  // A chain is built exactly from two configs with an endpoint each, an adapter
  // and a name that is valid for both hops; otherwise the first thing missing is
  // reported, in this order.
  lemma {:induction false} BuildsWhen(warp: Option<Config>, inner: Option<Config>, outerAlias: string, pairName: string)
    ensures
      var r := BuildChain(warp, inner, outerAlias, pairName);
      if warp.None? || inner.None? then r == Failed(NoConfig)
      else if AllSpace(outerAlias) then r == Failed(NoAdapter)
      else if !Names.ValidName(Trim(pairName)) then r == Failed(BadName)
      else if !Names.ValidName(PairNames.HiddenHopName(Trim(pairName))) then r == Failed(BadHiddenName)
      else if forall i :: 0 <= i < |warp.value.peers| ==> warp.value.peers[i].endpoint.host == "" then r == Failed(NoOuterEndpoint)
      else if forall i :: 0 <= i < |inner.value.peers| ==> inner.value.peers[i].endpoint.host == "" then r == Failed(NoInnerEndpoint)
      else r.Chain?
  {
    TrimLeftEmpty(outerAlias);
    TrimRightEmpty(TrimLeft(outerAlias));
  }

  lemma {:induction false} TrimRightEmpty(s: string)
    requires s == "" || !IsSpace(s[0])
    ensures TrimRight(s) == "" <==> s == ""
  {
    if s != "" && IsSpace(s[|s| - 1]) {
      TrimRightEmpty(s[..|s| - 1]);
    }
  }

  lemma {:induction false} HiddenNameTrimmed(pair: string)
    ensures Trim(PairNames.HiddenHopName(pair)) == PairNames.HiddenHopName(pair) != ""
    ensures |PairNames.HiddenHopName(pair)| != |Trim(pair)|
  {
    var hidden := PairNames.HiddenHopName(pair);
    if EqualFold(Trim(pair), PairNames.LEGACY_INNER) {
      assert |Trim(pair)| == |Lower(Trim(pair))| == |Lower(PairNames.LEGACY_INNER)| == 12;
      TrimId(hidden);
    } else {
      PairNames.TrimWithTail(Trim(pair), PairNames.HIDDEN_SUFFIX);
    }
  }

  // The two hops are one chain: siblings that may run together, the inner one
  // riding on the outer, which is hidden.
  lemma {:induction false} BuiltAreSiblings(warp: Config, inner: Config, outerAlias: string, pairName: string, f: Forest.Forest)
    ensures
      var r := BuildChain(Some(warp), Some(inner), outerAlias, pairName);
      r.Chain? ==>
        && Siblings(r.hop1, r.hop2) && Siblings(r.hop2, r.hop1)
        && PairNames.IsHiddenHopName(r.hop1.name)
        && (r.hop2.name in f.via && f.via[r.hop2.name] == r.hop2.iface.Text(PinEndpointVia) ==> Forest.RidesOn(f, r.hop2.name, r.hop1.name))
  {
    var r := BuildChain(Some(warp), Some(inner), outerAlias, pairName);
    if r.Chain? {
      var pair := Trim(pairName);
      var hidden := PairNames.HiddenHopName(pair);
      TrimId(pair);
      TrimId(Trim(outerAlias));
      HiddenNameTrimmed(pair);
      PairNames.HiddenHopIsHidden(pair);
      assert r.hop1.name == hidden && r.hop2.name == pair;
      assert r.hop2.iface.Text(PinEndpointVia) == hidden && r.hop1.iface.Text(PinEndpointVia) == Trim(outerAlias);
      assert |Lower(hidden)| == |hidden| && |Lower(pair)| == |pair|;
    }
  }
}
