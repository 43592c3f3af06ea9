// The policy the kill switch is meant to enforce, and the proof that the
// weighted filters enforce exactly it, in whatever order they were added.
module FirewallPolicy {
  import opened Text
  import opened Ip
  import opened Bitwise
  import opened Prefix
  import opened Firewall

  // ----- The policy, in terms of addresses and not of filters -----

  predicate ToEndpoint(apps: seq<AppId>, ip: IP, port: nat, p: Packet) {
    && IsV4(p) && p.protocol == UDP && p.app in apps
    && To4(ip) == Some(p.remote) && p.remotePort == port
  }

  predicate IsDns(p: Packet) {
    (p.remotePort == 53 || p.remotePort == 853) && (p.protocol == UDP || p.protocol == TCP)
  }

  predicate ToServer(servers: seq<IP>, p: Packet) {
    exists ip :: ip in servers && To4(ip) == Some(p.remote)
  }

  predicate IsDhcp(p: Packet) {
    IsV4(p) && p.protocol == UDP && p.localPort == 68 && p.remotePort == 67
  }

  // net.IPNet.Contains, byte by byte.
  predicate Contains(lan: Net, ip: IP) {
    && LanCounts(lan) && |ip| == 4
    && forall i :: 0 <= i < 4 ==> And(ip[i], lan.mask[i]) == And(To4(lan.ip).value[i], lan.mask[i])
  }

  predicate InLans(lans: seq<Net>, p: Packet) {
    IsV4(p) && exists lan :: lan in lans && Contains(lan, p.remote)
  }

  predicate ToChain(cfg: FirewallConfig, apps: seq<AppId>, p: Packet) {
    || ToEndpoint(apps, cfg.hop1Endpoint, cfg.hop1Port, p)
    || (ToEndpoint(apps, cfg.hop2Endpoint, cfg.hop2Port, p) && p.luid == cfg.hop1)
  }

  predicate DnsThroughChain(cfg: FirewallConfig, p: Packet) {
    IsV4(p) && p.luid == cfg.hop2 && ToServer(cfg.dnsServers, p)
  }

  predicate Allowed(cfg: FirewallConfig, apps: seq<AppId>, p: Packet) {
    || ToChain(cfg, apps, p)
    || if IsDns(p) then DnsThroughChain(cfg, p)
       else p.luid == cfg.hop2 || p.loopback || IsDhcp(p) || InLans(cfg.allowedLans, p)
  }

  // ----- Addresses as numbers -----

  function Word(a: nat, b: nat, c: nat, d: nat): (n: nat) {
    256 * (256 * (256 * a + b) + c) + d
  }

  lemma {:induction false} BigEndianFour(a: seq<byte>)
    requires |a| == 4
    ensures BigEndian(a) == Word(a[0], a[1], a[2], a[3])
  {
    var a3, a2, a1 := a[..3], a[..2], a[..1];
    assert a3[..2] == a2 && a2[..1] == a1 && a1[..0] == [];
    assert BigEndian(a1) == a[0];
    assert BigEndian(a2) == 256 * BigEndian(a1) + a[1];
    assert BigEndian(a3) == 256 * BigEndian(a2) + a[2];
  }

  lemma {:induction false} BigEndianInjective(a: seq<byte>, b: seq<byte>)
    requires |a| == |b| == 4
    ensures BigEndian(a) == BigEndian(b) <==> a == b
  {
    BigEndianFour(a);
    BigEndianFour(b);
    if BigEndian(a) == BigEndian(b) {
      assert a[0] == b[0] && a[1] == b[1] && a[2] == b[2] && a[3] == b[3];
    }
  }

  function Masked(a: seq<byte>, m: seq<byte>): (r: seq<byte>)
    requires |a| == |m|
    ensures |r| == |a|
  {
    seq(|a|, i requires 0 <= i < |a| => And8(a[i], m[i]))
  }

  lemma {:induction false} AndWord(a: nat, b: byte, c: byte, d: byte, x: nat, y: byte, z: byte, w: byte)
    ensures And(Word(a, b, c, d), Word(x, y, z, w)) == Word(And(a, x), And(b, y), And(c, z), And(d, w))
  {
    var ab: nat := 256 * a + b;
    var xy: nat := 256 * x + y;
    var abc: nat := 256 * ab + c;
    var xyz: nat := 256 * xy + z;
    AndByte(abc, xyz, d, w);
    AndByte(ab, xy, c, z);
    AndByte(a, x, b, y);
    assert And(abc, xyz) == 256 * And(ab, xy) + And(c, z);
  }

  lemma {:induction false} MaskedNumber(a: seq<byte>, m: seq<byte>)
    requires |a| == |m| == 4
    ensures And(BigEndian(a), BigEndian(m)) == BigEndian(Masked(a, m))
  {
    BigEndianFour(a);
    BigEndianFour(m);
    BigEndianFour(Masked(a, m));
    AndWord(a[0], a[1], a[2], a[3], m[0], m[1], m[2], m[3]);
  }

  // Masking whole addresses as numbers agrees with masking them by the byte.
  lemma {:induction false} MaskedAgree(a: seq<byte>, b: seq<byte>, m: seq<byte>)
    requires |a| == |b| == |m| == 4
    ensures And(BigEndian(a), BigEndian(m)) == And(BigEndian(b), BigEndian(m))
       <==> forall i :: 0 <= i < 4 ==> And(a[i], m[i]) == And(b[i], m[i])
  {
    MaskedNumber(a, m);
    MaskedNumber(b, m);
    BigEndianInjective(Masked(a, m), Masked(b, m));
    if forall i :: 0 <= i < 4 ==> And(a[i], m[i]) == And(b[i], m[i]) {
      assert Masked(a, m) == Masked(b, m);
    } else {
      var i :| 0 <= i < 4 && And(a[i], m[i]) != And(b[i], m[i]);
      assert Masked(a, m)[i] != Masked(b, m)[i];
    }
  }

  // ----- What each group of filters matches -----

  predicate Agree(cs: seq<Condition>, p: Packet) {
    forall c :: c in cs ==> FieldAgrees(cs, FieldOf(c), p)
  }

  ghost predicate Hits(fs: seq<Filter>, p: Packet) {
    exists f :: f in fs && Matches(f, p)
  }

  ghost predicate Uniform(fs: seq<Filter>, weight: nat, a: Action) {
    forall f :: f in fs ==> f.weight == weight && f.action == a
  }

  lemma {:induction false} HitsAppend(fs: seq<Filter>, gs: seq<Filter>, p: Packet)
    ensures Hits(fs + gs, p) <==> Hits(fs, p) || Hits(gs, p)
  {
    forall f | f in fs || f in gs
      ensures f in fs + gs
    {}
  }

  lemma {:induction false} HitsOnLayers(weight: nat, cs: seq<Condition>, a: Action, layers: seq<Layer>, p: Packet)
    ensures Hits(OnLayers(weight, cs, a, layers), p) <==> p.layer in layers && Agree(cs, p)
    ensures Uniform(OnLayers(weight, cs, a, layers), weight, a)
  {
    var fs := OnLayers(weight, cs, a, layers);
    if p.layer in layers && Agree(cs, p) {
      var i :| 0 <= i < |layers| && layers[i] == p.layer;
      assert fs[i] in fs && Matches(fs[i], p);
    }
  }

  predicate Distinct(cs: seq<Condition>) {
    forall i, j :: 0 <= i < j < |cs| ==> FieldOf(cs[i]) != FieldOf(cs[j])
  }

  // Conditions over different fields have to hold all of them.
  lemma {:induction false} AllHold(cs: seq<Condition>, p: Packet)
    requires Distinct(cs)
    ensures Agree(cs, p) <==> forall i :: 0 <= i < |cs| ==> Holds(cs[i], p)
  {
    forall i | 0 <= i < |cs|
      ensures FieldAgrees(cs, FieldOf(cs[i]), p) <==> Holds(cs[i], p)
    {
      assert cs[i] in cs;
    }
  }

  lemma {:induction false} OneHolds(c: Condition, p: Packet)
    ensures Agree([c], p) <==> Holds(c, p)
  {
    AllHold([c], p);
    assert [c][0] == c;
  }

  lemma {:induction false} EndpointAgree(app: AppId, ip4: IP, port: nat, luid: nat, p: Packet)
    requires |ip4| == 4 && PacketOk(p) && IsV4(p)
    ensures Agree(EndpointConditions(app, ip4, port, luid), p)
       <==> p.protocol == UDP && p.app == app && ip4 == p.remote && p.remotePort == port && (luid == 0 || p.luid == luid)
  {
    var cs := EndpointConditions(app, ip4, port, luid);
    BigEndianInjective(p.remote, ip4);
    AllHold(cs, p);
    assert cs[0] == AppIs(app) && cs[1] == ProtocolIs(UDP) && cs[2] == AddressIs(BigEndian(ip4)) && cs[3] == RemotePortIs(port);
    assert luid != 0 ==> cs[4] == InterfaceIs(luid);
  }

  lemma {:induction false} HitsEndpoint(weight: nat, apps: seq<AppId>, ip4: IP, port: nat, luid: nat, p: Packet)
    requires |ip4| == 4 && PacketOk(p)
    ensures Hits(EndpointFilters(weight, apps, ip4, port, luid), p)
       <==> ToEndpoint(apps, ip4, port, p) && (luid == 0 || p.luid == luid)
    ensures Uniform(EndpointFilters(weight, apps, ip4, port, luid), weight, Permit)
  {
    if apps != [] {
      var front, app := apps[..|apps| - 1], apps[|apps| - 1];
      HitsEndpoint(weight, front, ip4, port, luid, p);
      var cs := EndpointConditions(app, ip4, port, luid);
      HitsOnLayers(weight, cs, Permit, LAYERS_V4, p);
      HitsAppend(EndpointFilters(weight, front, ip4, port, luid), OnLayers(weight, cs, Permit, LAYERS_V4), p);
      assert p.app in apps <==> p.app in front || p.app == app;
      if IsV4(p) {
        EndpointAgree(app, ip4, port, luid, p);
      }
    }
  }

  lemma {:induction false} DnsAgree(p: Packet)
    ensures Agree(DNS_CONDITIONS, p) <==> IsDns(p)
  {
    var cs := DNS_CONDITIONS;
    assert cs[0] in cs && cs[1] in cs && cs[2] in cs && cs[3] in cs;
    assert FieldAgrees(cs, RemotePortField, p) <==> Holds(cs[0], p) || Holds(cs[1], p);
    assert FieldAgrees(cs, ProtocolField, p) <==> Holds(cs[2], p) || Holds(cs[3], p);
    assert FieldOf(cs[0]) == RemotePortField && FieldOf(cs[2]) == ProtocolField;
  }

  lemma {:induction false} ServersAgree(servers: seq<IP>, p: Packet)
    requires PacketOk(p) && IsV4(p)
    ensures forall c :: c in ServerConditions(servers) ==> FieldOf(c) == AddressField
    ensures FieldAgrees(ServerConditions(servers), AddressField, p) <==> ToServer(servers, p)
  {
    if servers != [] {
      var front, last := servers[..|servers| - 1], servers[|servers| - 1];
      ServersAgree(front, p);
      assert servers == front + [last];
      assert ToServer(servers, p) <==> ToServer(front, p) || To4(last) == Some(p.remote);
      if To4(last).Some? {
        BigEndianInjective(p.remote, To4(last).value);
        var c := AddressIs(BigEndian(To4(last).value));
        assert ServerConditions(servers) == ServerConditions(front) + [c];
        assert c in ServerConditions(servers);
        assert forall d :: d in ServerConditions(front) ==> d in ServerConditions(servers);
      }
    }
  }

  // Conditions over separate fields agree exactly when each part does.
  lemma {:induction false} AgreeApart(cs: seq<Condition>, ds: seq<Condition>, p: Packet)
    requires forall c, d :: c in cs && d in ds ==> FieldOf(c) != FieldOf(d)
    ensures Agree(cs + ds, p) <==> Agree(cs, p) && Agree(ds, p)
  {
    assert forall c :: c in cs + ds <==> c in cs || c in ds;
    forall c | c in cs
      ensures FieldAgrees(cs + ds, FieldOf(c), p) <==> FieldAgrees(cs, FieldOf(c), p)
    {}
    forall d | d in ds
      ensures FieldAgrees(cs + ds, FieldOf(d), p) <==> FieldAgrees(ds, FieldOf(d), p)
    {}
  }

  lemma {:induction false} InterfaceAgree(luid: nat, p: Packet)
    ensures Agree([InterfaceIs(luid)], p) <==> p.luid == luid
  {
    OneHolds(InterfaceIs(luid), p);
  }

  lemma {:induction false} DnsFields(c: Condition)
    requires c in DNS_CONDITIONS
    ensures FieldOf(c) == RemotePortField || FieldOf(c) == ProtocolField
  {
  }

  // The interface, a DNS port and protocol, and one of the addresses.
  lemma {:induction false} DnsListAgrees(luid: nat, ss: seq<Condition>, p: Packet)
    requires ss != [] && forall c :: c in ss ==> FieldOf(c) == AddressField
    ensures Agree([InterfaceIs(luid)] + DNS_CONDITIONS + ss, p) <==> p.luid == luid && IsDns(p) && FieldAgrees(ss, AddressField, p)
  {
    var one, ports := [InterfaceIs(luid)], DNS_CONDITIONS;
    InterfaceAgree(luid, p);
    DnsAgree(p);
    forall c | c in ports
      ensures FieldOf(c) == RemotePortField || FieldOf(c) == ProtocolField
    {
      DnsFields(c);
    }
    AgreeApart(one, ports, p);
    AgreeApart(one + ports, ss, p);
    assert ss[0] in ss;
  }

  lemma {:induction false} HitsDns(weight: nat, servers: seq<IP>, luid: nat, p: Packet)
    requires PacketOk(p)
    requires ServerConditions(servers) != []
    ensures Hits(DnsFilters(weight, servers, luid), p) <==> IsV4(p) && IsDns(p) && p.luid == luid && ToServer(servers, p)
    ensures Uniform(DnsFilters(weight, servers, luid), weight, Permit)
  {
    var ss := ServerConditions(servers);
    HitsOnLayers(weight, [InterfaceIs(luid)] + DNS_CONDITIONS + ss, Permit, LAYERS_V4, p);
    EveryLayer(p.layer);
    if IsV4(p) {
      ServersAgree(servers, p);
      DnsListAgrees(luid, ss, p);
    }
  }

  lemma {:induction false} HitsLan(weight: nat, lan: Net, p: Packet)
    requires PacketOk(p) && LanCounts(lan)
    ensures
      var fs := OnLayers(weight, [AddressIn(BigEndian(To4(lan.ip).value), BigEndian(lan.mask))], Permit, LAYERS_V4);
      (Hits(fs, p) <==> IsV4(p) && Contains(lan, p.remote)) && Uniform(fs, weight, Permit)
  {
    var c := AddressIn(BigEndian(To4(lan.ip).value), BigEndian(lan.mask));
    HitsOnLayers(weight, [c], Permit, LAYERS_V4, p);
    OneHolds(c, p);
    if IsV4(p) {
      MaskedAgree(p.remote, To4(lan.ip).value, lan.mask);
    }
  }

  lemma {:induction false} MaskFiltersSnoc(weight: nat, ms: seq<(nat, nat)>, m: (nat, nat))
    ensures MaskFilters(weight, ms + [m]) == MaskFilters(weight, ms) + OnLayers(weight, [AddressIn(m.0, m.1)], Permit, LAYERS_V4)
  {
    assert (ms + [m])[..|ms|] == ms;
  }

  lemma {:induction false} InLansSnoc(lans: seq<Net>, lan: Net, p: Packet)
    ensures InLans(lans + [lan], p) <==> InLans(lans, p) || (IsV4(p) && Contains(lan, p.remote))
  {
    assert forall l :: l in lans + [lan] <==> l in lans || l == lan;
  }

  lemma {:induction false} HitsLans(weight: nat, lans: seq<Net>, p: Packet)
    requires PacketOk(p)
    ensures Hits(MaskFilters(weight, LanMasks(lans)), p) <==> InLans(lans, p)
    ensures Uniform(MaskFilters(weight, LanMasks(lans)), weight, Permit)
  {
    if lans != [] {
      var front, lan := lans[..|lans| - 1], lans[|lans| - 1];
      HitsLans(weight, front, p);
      assert lans == front + [lan];
      InLansSnoc(front, lan, p);
      var ms := LanMasks(front);
      if LanCounts(lan) {
        var m := (BigEndian(To4(lan.ip).value), BigEndian(lan.mask));
        assert LanMasks(lans) == ms + [m];
        MaskFiltersSnoc(weight, ms, m);
        HitsLan(weight, lan, p);
        HitsAppend(MaskFilters(weight, ms), OnLayers(weight, [AddressIn(m.0, m.1)], Permit, LAYERS_V4), p);
      } else {
        assert LanMasks(lans) == ms;
      }
    }
  }

  lemma {:induction false} HitsDhcp(weight: nat, p: Packet)
    ensures Hits(DhcpFilters(weight), p) <==> IsDhcp(p)
    ensures Uniform(DhcpFilters(weight), weight, Permit)
  {
    var cs := [ProtocolIs(UDP), LocalPortIs(68), RemotePortIs(67)];
    HitsOnLayers(weight, cs, Permit, LAYERS_V4, p);
    AllHold(cs, p);
    assert cs[0] == ProtocolIs(UDP) && cs[1] == LocalPortIs(68) && cs[2] == RemotePortIs(67);
    EveryLayer(p.layer);
  }

  // ----- The heaviest filter decides -----

  lemma {:induction false} HeaviestIsHeaviest(fs: seq<Filter>, p: Packet)
    ensures Heaviest(fs, p).None? ==> !Hits(fs, p)
    ensures Heaviest(fs, p).Some? ==>
      var f := Heaviest(fs, p).value;
      f in fs && Matches(f, p) && forall g :: g in fs && Matches(g, p) ==> g.weight <= f.weight
  {
    if fs != [] {
      HeaviestIsHeaviest(fs[..|fs| - 1], p);
      assert fs == fs[..|fs| - 1] + [fs[|fs| - 1]];
    }
  }

  ghost predicate SameFilters(fs: seq<Filter>, gs: seq<Filter>) {
    forall f :: f in fs <==> f in gs
  }

  ghost predicate Between(fs: seq<Filter>, low: nat, high: nat, a: Action) {
    forall f :: f in fs ==> low <= f.weight <= high && f.action == a
  }

  ghost predicate Under(fs: seq<Filter>, weight: nat) {
    forall f :: f in fs ==> f.weight < weight
  }

  // When nothing above a group matches and the group does, the group decides.
  lemma {:induction false} GroupDecides(fs: seq<Filter>, above: seq<Filter>, group: seq<Filter>, below: seq<Filter>, low: nat, high: nat, a: Action, p: Packet)
    requires SameFilters(fs, above + group + below)
    requires !Hits(above, p) && Hits(group, p) && Between(group, low, high, a) && Under(below, low)
    ensures Verdict(fs, p) == a
  {
    HeaviestIsHeaviest(fs, p);
    var g :| g in group && Matches(g, p);
    assert g in above + group + below;
    assert g in fs;
    var f := Heaviest(fs, p).value;
    assert f in above + group + below;
  }

  lemma {:induction false} EveryLayer(l: Layer)
    ensures l in LAYERS_BOTH
    ensures l in LAYERS_V4 <==> l.OutboundV4? || l.InboundV4?
  {
    var both := LAYERS_BOTH;
    assert both[0] == OutboundV4 && both[1] == InboundV4 && both[2] == OutboundV6 && both[3] == InboundV6;
    var v4 := LAYERS_V4;
    assert v4[0] == OutboundV4 && v4[1] == InboundV4;
  }

  lemma {:induction false} BlockAllHits(weight: nat, p: Packet)
    ensures Hits(BlockAllFilters(weight), p) && Uniform(BlockAllFilters(weight), weight, Block)
  {
    HitsOnLayers(weight, [], Block, LAYERS_BOTH, p);
    EveryLayer(p.layer);
  }

  // What the permits below the DNS rules let through.
  predicate Plain(cfg: FirewallConfig, p: Packet) {
    p.luid == cfg.hop2 || p.loopback || IsDhcp(p) || InLans(cfg.allowedLans, p)
  }

  function Permits(cfg: FirewallConfig): (fs: seq<Filter>) {
    TunFilters(12, cfg.hop2) + LoopbackFilters(11) + DhcpFilters(10) + MaskFilters(10, LanMasks(cfg.allowedLans))
  }

  lemma {:induction false} HitsTunAndLoopback(luid: nat, p: Packet)
    ensures Hits(TunFilters(12, luid) + LoopbackFilters(11), p) <==> p.luid == luid || p.loopback
    ensures Between(TunFilters(12, luid) + LoopbackFilters(11), 10, 12, Permit)
  {
    HitsOnLayers(12, [InterfaceIs(luid)], Permit, LAYERS_BOTH, p);
    InterfaceAgree(luid, p);
    HitsOnLayers(11, [IsLoopback], Permit, LAYERS_BOTH, p);
    OneHolds(IsLoopback, p);
    EveryLayer(p.layer);
    HitsAppend(TunFilters(12, luid), LoopbackFilters(11), p);
  }

  lemma {:induction false} HitsPermits(cfg: FirewallConfig, p: Packet)
    requires PacketOk(p)
    ensures Hits(Permits(cfg), p) <==> Plain(cfg, p)
    ensures Between(Permits(cfg), 10, 12, Permit)
  {
    var inside, dhcp, lans := TunFilters(12, cfg.hop2) + LoopbackFilters(11), DhcpFilters(10), MaskFilters(10, LanMasks(cfg.allowedLans));
    HitsTunAndLoopback(cfg.hop2, p);
    HitsDhcp(10, p);
    HitsLans(10, cfg.allowedLans, p);
    HitsAppend(inside, dhcp, p);
    HitsAppend(inside + dhcp, lans, p);
  }

  lemma {:induction false} HitsChain(cfg: FirewallConfig, apps: seq<AppId>, p: Packet)
    requires ConfigOk(cfg) && PacketOk(p)
    ensures Hits(PermitChain(cfg, apps), p) <==> ToChain(cfg, apps, p)
    ensures Between(PermitChain(cfg, apps), 15, 15, Permit)
  {
    var ip1, ip2 := To4(cfg.hop1Endpoint).value, To4(cfg.hop2Endpoint).value;
    HitsEndpoint(15, apps, ip1, cfg.hop1Port, 0, p);
    HitsEndpoint(15, apps, ip2, cfg.hop2Port, cfg.hop1, p);
    HitsAppend(EndpointFilters(15, apps, ip1, cfg.hop1Port, 0), EndpointFilters(15, apps, ip2, cfg.hop2Port, cfg.hop1), p);
  }

  lemma {:induction false} HitsPermitDns(cfg: FirewallConfig, p: Packet)
    requires DnsOk(cfg) && PacketOk(p)
    ensures Hits(PermitDns(cfg), p) <==> IsDns(p) && DnsThroughChain(cfg, p)
    ensures Between(PermitDns(cfg), 14, 14, Permit)
  {
    if cfg.dnsServers != [] {
      ServerConditionsEmpty(cfg.dnsServers);
      HitsDns(14, cfg.dnsServers, cfg.hop2, p);
    }
  }

  lemma {:induction false} HitsBlockDns(p: Packet)
    ensures Hits(BlockDns(), p) <==> IsDns(p)
    ensures Between(BlockDns(), 13, 13, Block)
  {
    HitsOnLayers(13, DNS_CONDITIONS, Block, LAYERS_BOTH, p);
    DnsAgree(p);
    EveryLayer(p.layer);
  }

  lemma {:induction false} Regroup(cfg: FirewallConfig, apps: seq<AppId>)
    requires ConfigOk(cfg)
    ensures Installed(cfg, apps) == PermitChain(cfg, apps) + PermitDns(cfg) + BlockDns() + Permits(cfg) + BlockAllFilters(0)
  {}

  // The verdict over five groups of falling weight.
  lemma {:induction false} FiveGroups(fs: seq<Filter>, a: seq<Filter>, b: seq<Filter>, c: seq<Filter>, d: seq<Filter>, e: seq<Filter>, p: Packet)
    requires SameFilters(fs, a + b + c + d + e)
    requires Between(a, 15, 15, Permit) && Between(b, 14, 14, Permit) && Between(c, 13, 13, Block)
    requires Between(d, 10, 12, Permit) && Between(e, 0, 0, Block) && Hits(e, p)
    ensures Verdict(fs, p) == Permit <==> Hits(a, p) || Hits(b, p) || (!Hits(c, p) && Hits(d, p))
  {
    HitsAppend(a, b, p);
    HitsAppend(a + b, c, p);
    HitsAppend(a + b + c, d, p);
    if Hits(a, p) {
      assert [] + a + (b + c + d + e) == a + b + c + d + e;
      GroupDecides(fs, [], a, b + c + d + e, 15, 15, Permit, p);
    } else if Hits(b, p) {
      assert a + b + (c + d + e) == a + b + c + d + e;
      GroupDecides(fs, a, b, c + d + e, 14, 14, Permit, p);
    } else if Hits(c, p) {
      assert a + b + c + (d + e) == a + b + c + d + e;
      GroupDecides(fs, a + b, c, d + e, 13, 13, Block, p);
    } else if Hits(d, p) {
      GroupDecides(fs, a + b + c, d, e, 10, 12, Permit, p);
    } else {
      assert a + b + c + d + e + [] == a + b + c + d + e;
      GroupDecides(fs, a + b + c + d, e, [], 0, 0, Block, p);
    }
  }

  // The kill switch lets through exactly what the policy allows, whatever the
  // order in which the engine holds the filters.
  lemma {:induction false} FiltersEnforcePolicy(cfg: FirewallConfig, apps: seq<AppId>, fs: seq<Filter>, p: Packet)
    requires ConfigOk(cfg) && DnsOk(cfg) && PacketOk(p)
    requires multiset(fs) == multiset(Installed(cfg, apps))
    ensures Verdict(fs, p) == Permit <==> Allowed(cfg, apps, p)
  {
    forall f
      ensures f in fs <==> f in Installed(cfg, apps)
    {
      assert f in fs <==> f in multiset(fs);
    }
    Regroup(cfg, apps);
    HitsChain(cfg, apps, p);
    HitsPermitDns(cfg, p);
    HitsBlockDns(p);
    HitsPermits(cfg, p);
    BlockAllHits(0, p);
    FiveGroups(fs, PermitChain(cfg, apps), PermitDns(cfg), BlockDns(), Permits(cfg), BlockAllFilters(0), p);
  }

  // What the session that Enable opens lets through: its policy, for the
  // identifiers the allowed executables had.
  lemma {:induction false} EnabledEnforcesPolicy(fw: ChainFirewall, cfg: FirewallConfig, apps: seq<AppId>, p: Packet)
    requires fw.Enforces(cfg, apps) && PacketOk(p)
    ensures Verdict(fw.session.value, p) == Permit <==> Allowed(cfg, apps, p)
  {
    FiltersEnforcePolicy(cfg, apps, fw.session.value, p);
  }

  // IPv6 leaves only through hop 2 or the loopback, and never to a DNS port.
  lemma {:induction false} SixStaysInside(cfg: FirewallConfig, apps: seq<AppId>, fs: seq<Filter>, p: Packet)
    requires ConfigOk(cfg) && DnsOk(cfg) && PacketOk(p) && !IsV4(p)
    requires multiset(fs) == multiset(Installed(cfg, apps))
    ensures Verdict(fs, p) == Permit <==> !IsDns(p) && (p.luid == cfg.hop2 || p.loopback)
  {
    FiltersEnforcePolicy(cfg, apps, fs, p);
    SixAllowed(cfg, apps, p);
  }

  lemma {:induction false} SixAllowed(cfg: FirewallConfig, apps: seq<AppId>, p: Packet)
    requires !IsV4(p)
    ensures Allowed(cfg, apps, p) <==> !IsDns(p) && (p.luid == cfg.hop2 || p.loopback)
  {
  }
}
