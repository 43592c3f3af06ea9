// The chain kill switch: a set of weighted filters in one sublayer of the
// filter engine, installed in one transaction.
module Firewall {
  import opened Text
  import opened Ip
  import opened Bitwise

  datatype Layer = OutboundV4 | InboundV4 | OutboundV6 | InboundV6

  const LAYERS_V4 := [OutboundV4, InboundV4]
  const LAYERS_BOTH := [OutboundV4, InboundV4, OutboundV6, InboundV6]

  const TCP: nat := 6
  const UDP: nat := 17

  // The executable behind a file name, as the engine identifies it.
  type AppId = nat

  // What the engine sees of one packet. `interface` is the LUID of the local
  // interface and `remote` the address of the other end.
  datatype Packet = Packet(
    layer: Layer,
    app: AppId,
    protocol: nat,
    remote: IP,
    remotePort: nat,
    localPort: nat,
    luid: nat,
    loopback: bool)

  predicate IsV4(p: Packet) {
    p.layer.OutboundV4? || p.layer.InboundV4?
  }

  // The address size goes with the layer.
  predicate PacketOk(p: Packet) {
    |p.remote| == (if IsV4(p) then 4 else 16)
  }

  // ----- Filters and what they match -----

  datatype Field = AppField | ProtocolField | AddressField | RemotePortField | LocalPortField | InterfaceField | FlagField

  datatype Condition =
    | AppIs(app: AppId)
    | ProtocolIs(protocol: nat)
    | AddressIs(address: nat)
    | AddressIn(address: nat, mask: nat)
    | RemotePortIs(port: nat)
    | LocalPortIs(port: nat)
    | InterfaceIs(luid: nat)
    | IsLoopback

  function FieldOf(c: Condition): (f: Field) {
    match c
    case AppIs(_) => AppField
    case ProtocolIs(_) => ProtocolField
    case AddressIs(_) => AddressField
    case AddressIn(_, _) => AddressField
    case RemotePortIs(_) => RemotePortField
    case LocalPortIs(_) => LocalPortField
    case InterfaceIs(_) => InterfaceField
    case IsLoopback => FlagField
  }

  // binary.BigEndian.Uint32
  function BigEndian(ip: seq<byte>): (n: nat) {
    if ip == [] then 0 else 256 * BigEndian(ip[..|ip| - 1]) + ip[|ip| - 1]
  }

  predicate Holds(c: Condition, p: Packet) {
    match c
    case AppIs(app) => p.app == app
    case ProtocolIs(n) => p.protocol == n
    case AddressIs(n) => IsV4(p) && BigEndian(p.remote) == n
    case AddressIn(n, m) => IsV4(p) && And(BigEndian(p.remote), m) == And(n, m)
    case RemotePortIs(n) => p.remotePort == n
    case LocalPortIs(n) => p.localPort == n
    case InterfaceIs(n) => p.luid == n
    case IsLoopback => p.loopback
  }

  datatype Action = Permit | Block

  datatype Filter = Filter(layer: Layer, weight: nat, conditions: seq<Condition>, action: Action)

  // Conditions on one field are alternatives; every field named must agree.
  predicate FieldAgrees(cs: seq<Condition>, f: Field, p: Packet) {
    exists c :: c in cs && FieldOf(c) == f && Holds(c, p)
  }

  predicate Matches(f: Filter, p: Packet) {
    f.layer == p.layer && forall c :: c in f.conditions ==> FieldAgrees(f.conditions, FieldOf(c), p)
  }

  // The heaviest filter that matches; of equally heavy ones the first added.
  function Heaviest(fs: seq<Filter>, p: Packet): (r: Option<Filter>) {
    if fs == [] then None
    else
      var before := Heaviest(fs[..|fs| - 1], p);
      var f := fs[|fs| - 1];
      if Matches(f, p) && (before.None? || before.value.weight < f.weight) then Some(f) else before
  }

  // A packet no filter matches is not stopped.
  function Verdict(fs: seq<Filter>, p: Packet): (a: Action) {
    var r := Heaviest(fs, p);
    if r.Some? then r.value.action else Permit
  }

  // ----- The filters of a configuration -----

  // net.IPNet
  datatype Net = Net(ip: IP, mask: seq<byte>)

  datatype FirewallConfig = FirewallConfig(
    hop1: nat,
    hop2: nat,
    hop1Endpoint: IP,
    hop1Port: nat,
    hop2Endpoint: IP,
    hop2Port: nat,
    dnsServers: seq<IP>,
    allowedApps: seq<string>,
    allowedLans: seq<Net>)

  const DNS_CONDITIONS := [RemotePortIs(53), RemotePortIs(853), ProtocolIs(UDP), ProtocolIs(TCP)]

  function OnLayers(weight: nat, cs: seq<Condition>, a: Action, layers: seq<Layer>): (fs: seq<Filter>) {
    seq(|layers|, i requires 0 <= i < |layers| => Filter(layers[i], weight, cs, a))
  }

  function EndpointConditions(app: AppId, ip4: IP, port: nat, luid: nat): (cs: seq<Condition>) {
    [AppIs(app), ProtocolIs(UDP), AddressIs(BigEndian(ip4)), RemotePortIs(port)]
    + if luid != 0 then [InterfaceIs(luid)] else []
  }

  function EndpointFilters(weight: nat, apps: seq<AppId>, ip4: IP, port: nat, luid: nat): (fs: seq<Filter>) {
    if apps == [] then []
    else
      EndpointFilters(weight, apps[..|apps| - 1], ip4, port, luid)
      + OnLayers(weight, EndpointConditions(apps[|apps| - 1], ip4, port, luid), Permit, LAYERS_V4)
  }

  function ServerConditions(servers: seq<IP>): (cs: seq<Condition>) {
    if servers == [] then []
    else
      var ip4 := To4(servers[|servers| - 1]);
      ServerConditions(servers[..|servers| - 1]) + if ip4.Some? then [AddressIs(BigEndian(ip4.value))] else []
  }

  function DnsFilters(weight: nat, servers: seq<IP>, luid: nat): (fs: seq<Filter>) {
    OnLayers(weight, [InterfaceIs(luid)] + DNS_CONDITIONS + ServerConditions(servers), Permit, LAYERS_V4)
  }

  predicate LanCounts(lan: Net) {
    To4(lan.ip).Some? && |lan.mask| == 4
  }

  // The address and the mask of every LAN that counts.
  function LanMasks(lans: seq<Net>): (ms: seq<(nat, nat)>) {
    if lans == [] then []
    else
      var lan := lans[|lans| - 1];
      LanMasks(lans[..|lans| - 1])
      + if LanCounts(lan) then [(BigEndian(To4(lan.ip).value), BigEndian(lan.mask))] else []
  }

  function MaskFilters(weight: nat, masks: seq<(nat, nat)>): (fs: seq<Filter>) {
    if masks == [] then []
    else
      var m := masks[|masks| - 1];
      MaskFilters(weight, masks[..|masks| - 1]) + OnLayers(weight, [AddressIn(m.0, m.1)], Permit, LAYERS_V4)
  }

  // permitTunInterface, permitLoopback, permitDHCPIPv4 and blockAll.
  function TunFilters(weight: nat, luid: nat): (fs: seq<Filter>) {
    OnLayers(weight, [InterfaceIs(luid)], Permit, LAYERS_BOTH)
  }

  function LoopbackFilters(weight: nat): (fs: seq<Filter>) {
    OnLayers(weight, [IsLoopback], Permit, LAYERS_BOTH)
  }

  function DhcpFilters(weight: nat): (fs: seq<Filter>) {
    OnLayers(weight, [ProtocolIs(UDP), LocalPortIs(68), RemotePortIs(67)], Permit, LAYERS_V4)
  }

  function BlockAllFilters(weight: nat): (fs: seq<Filter>) {
    OnLayers(weight, [], Block, LAYERS_BOTH)
  }

  // The checks made before anything is opened.
  predicate ConfigOk(cfg: FirewallConfig) {
    && cfg.hop1 != 0 && cfg.hop2 != 0
    && To4(cfg.hop1Endpoint).Some? && To4(cfg.hop2Endpoint).Some?
    && cfg.allowedApps != []
  }

  // permitChainDNS wants one IPv4 server when any server is given.
  predicate DnsOk(cfg: FirewallConfig) {
    cfg.dnsServers == [] || exists ip :: ip in cfg.dnsServers && To4(ip).Some?
  }

  function PermitChain(cfg: FirewallConfig, apps: seq<AppId>): (fs: seq<Filter>)
    requires ConfigOk(cfg)
  {
    EndpointFilters(15, apps, To4(cfg.hop1Endpoint).value, cfg.hop1Port, 0)
    + EndpointFilters(15, apps, To4(cfg.hop2Endpoint).value, cfg.hop2Port, cfg.hop1)
  }

  function PermitDns(cfg: FirewallConfig): (fs: seq<Filter>) {
    if cfg.dnsServers == [] then [] else DnsFilters(14, cfg.dnsServers, cfg.hop2)
  }

  function BlockDns(): (fs: seq<Filter>) {
    OnLayers(13, DNS_CONDITIONS, Block, LAYERS_BOTH)
  }

  function DnsPart(cfg: FirewallConfig): (fs: seq<Filter>) {
    PermitDns(cfg) + BlockDns()
  }

  function LansAndBlock(cfg: FirewallConfig): (fs: seq<Filter>) {
    MaskFilters(10, LanMasks(cfg.allowedLans)) + BlockAllFilters(0)
  }

  function Local(cfg: FirewallConfig): (fs: seq<Filter>) {
    DhcpFilters(10) + LansAndBlock(cfg)
  }

  function BelowDns(cfg: FirewallConfig): (fs: seq<Filter>) {
    TunFilters(12, cfg.hop2) + LoopbackFilters(11) + Local(cfg)
  }

  function Installed(cfg: FirewallConfig, apps: seq<AppId>): (fs: seq<Filter>)
    requires ConfigOk(cfg)
  {
    PermitChain(cfg, apps) + DnsPart(cfg) + BelowDns(cfg)
  }

  // ----- Installing them -----

  predicate AllAccepted(accepts: nat -> bool, from: nat, count: nat) {
    forall k :: from <= k < from + count ==> accepts(k)
  }

  lemma {:induction false} AcceptedInParts(accepts: nat -> bool, a: nat, b: nat, c: nat)
    ensures AllAccepted(accepts, 0, a + b + c) <==> AllAccepted(accepts, 0, a) && AllAccepted(accepts, a, b) && AllAccepted(accepts, a + b, c)
  {
  }

  // An open session of the engine. It may refuse any filter: `accepts` says
  // whether the k-th one is taken.
  class Engine {
    const accepts: nat -> bool
    var filters: seq<Filter>

    constructor (accepts: nat -> bool)
      ensures this.accepts == accepts && filters == []
    {
      this.accepts := accepts;
      filters := [];
    }

    // What an installer does: all of `fs` in order, or it reports the refusal.
    twostate predicate Adds(fs: seq<Filter>, ok: bool)
      reads this
    {
      && ok == AllAccepted(accepts, |old(filters)|, |fs|)
      && (ok ==> filters == old(filters) + fs)
    }

    method FilterAdd(f: Filter) returns (ok: bool)
      modifies this
      ensures Adds([f], ok)
    {
      ok := accepts(|filters|);
      if ok {
        filters := filters + [f];
      } else {
        assert !accepts(|old(filters)|);
      }
    }

    method AddOnLayers(weight: nat, cs: seq<Condition>, a: Action, layers: seq<Layer>) returns (ok: bool)
      modifies this
      ensures Adds(OnLayers(weight, cs, a, layers), ok)
    {
      ghost var fs := OnLayers(weight, cs, a, layers);
      for i := 0 to |layers|
        invariant Adds(fs[..i], true)
      {
        var added := FilterAdd(Filter(layers[i], weight, cs, a));
        if !added {
          return false;
        }
        assert fs[..i + 1] == fs[..i] + [fs[i]];
      }
      assert fs[..|layers|] == fs;
      return true;
    }

    method PermitEndpoint(weight: nat, apps: seq<AppId>, ip: IP, port: nat, luid: nat) returns (ok: bool)
      modifies this
      ensures To4(ip).None? ==> !ok && filters == old(filters)
      ensures To4(ip).Some? ==> Adds(EndpointFilters(weight, apps, To4(ip).value, port, luid), ok)
    {
      var ip4 := To4(ip);
      if ip4.None? {
        return false;
      }
      ghost var all := EndpointFilters(weight, apps, ip4.value, port, luid);
      for i := 0 to |apps|
        invariant Adds(EndpointFilters(weight, apps[..i], ip4.value, port, luid), true)
      {
        var conditions := [AppIs(apps[i]), ProtocolIs(UDP), AddressIs(BigEndian(ip4.value)), RemotePortIs(port)];
        if luid != 0 {
          conditions := conditions + [InterfaceIs(luid)];
        }
        assert conditions == EndpointConditions(apps[i], ip4.value, port, luid);
        var added := AddOnLayers(weight, conditions, Permit, LAYERS_V4);
        assert apps[..i + 1][..i] == apps[..i];
        if !added {
          EndpointFiltersPrefix(weight, apps, ip4.value, port, luid, i + 1);
          return false;
        }
      }
      assert apps[..|apps|] == apps;
      return true;
    }

    method PermitChainDns(weight: nat, servers: seq<IP>, luid: nat) returns (ok: bool)
      modifies this
      ensures ServerConditions(servers) == [] ==> !ok && filters == old(filters)
      ensures ServerConditions(servers) != [] ==> Adds(DnsFilters(weight, servers, luid), ok)
    {
      var conditions := [InterfaceIs(luid)] + DNS_CONDITIONS;
      var serverCount := 0;
      for i := 0 to |servers|
        invariant filters == old(filters)
        invariant conditions == [InterfaceIs(luid)] + DNS_CONDITIONS + ServerConditions(servers[..i])
        invariant serverCount == |ServerConditions(servers[..i])|
      {
        assert servers[..i + 1][..i] == servers[..i];
        var ip4 := To4(servers[i]);
        if ip4.None? {
          continue;
        }
        conditions := conditions + [AddressIs(BigEndian(ip4.value))];
        serverCount := serverCount + 1;
      }
      assert servers[..|servers|] == servers;
      if serverCount == 0 {
        return false;
      }
      ok := AddOnLayers(weight, conditions, Permit, LAYERS_V4);
    }

    method PermitLans(weight: nat, lans: seq<Net>) returns (ok: bool)
      modifies this
      ensures Adds(MaskFilters(weight, LanMasks(lans)), ok)
    {
      var masks: seq<(nat, nat)> := [];
      for i := 0 to |lans|
        invariant filters == old(filters)
        invariant masks == LanMasks(lans[..i])
      {
        assert lans[..i + 1][..i] == lans[..i];
        if !LanCounts(lans[i]) {
          continue;
        }
        masks := masks + [(BigEndian(To4(lans[i].ip).value), BigEndian(lans[i].mask))];
      }
      assert lans[..|lans|] == lans;
      if |masks| == 0 {
        return true;
      }
      for i := 0 to |masks|
        invariant Adds(MaskFilters(weight, masks[..i]), true)
      {
        assert masks[..i + 1][..i] == masks[..i];
        var added := AddOnLayers(weight, [AddressIn(masks[i].0, masks[i].1)], Permit, LAYERS_V4);
        if !added {
          MaskFiltersPrefix(weight, masks, i + 1);
          return false;
        }
      }
      assert masks[..|masks|] == masks;
      return true;
    }

    // The body of the transaction, in its order.
    method InstallAll(cfg: FirewallConfig, apps: seq<AppId>) returns (ok: bool)
      requires ConfigOk(cfg) && filters == []
      modifies this
      ensures ok == (DnsOk(cfg) && AllAccepted(accepts, 0, |Installed(cfg, apps)|))
      ensures ok ==> filters == Installed(cfg, apps)
    {
      AcceptedInParts(accepts, |PermitChain(cfg, apps)|, |DnsPart(cfg)|, |BelowDns(cfg)|);
      ok := InstallChain(cfg, apps);
      if !ok {
        return;
      }
      ok := InstallDns(cfg);
      if !ok {
        return;
      }
      ok := InstallBelowDns(cfg);
    }

    method InstallChain(cfg: FirewallConfig, apps: seq<AppId>) returns (ok: bool)
      requires ConfigOk(cfg)
      modifies this
      ensures Adds(PermitChain(cfg, apps), ok)
    {
      ok := PermitEndpoint(15, apps, cfg.hop1Endpoint, cfg.hop1Port, 0);
      if ok {
        ok := PermitEndpoint(15, apps, cfg.hop2Endpoint, cfg.hop2Port, cfg.hop1);
      }
    }

    method InstallDns(cfg: FirewallConfig) returns (ok: bool)
      modifies this
      ensures !DnsOk(cfg) ==> !ok
      ensures DnsOk(cfg) ==> Adds(DnsPart(cfg), ok)
    {
      if |cfg.dnsServers| > 0 {
        ServerConditionsEmpty(cfg.dnsServers);
        ok := PermitChainDns(14, cfg.dnsServers, cfg.hop2);
        if !ok {
          return;
        }
      }
      ok := AddOnLayers(13, DNS_CONDITIONS, Block, LAYERS_BOTH);
    }

    method InstallBelowDns(cfg: FirewallConfig) returns (ok: bool)
      modifies this
      ensures Adds(BelowDns(cfg), ok)
    {
      ok := AddOnLayers(12, [InterfaceIs(cfg.hop2)], Permit, LAYERS_BOTH);
      if !ok {
        return;
      }
      ok := AddOnLayers(11, [IsLoopback], Permit, LAYERS_BOTH);
      if !ok {
        return;
      }
      ok := InstallLocal(cfg);
    }

    method InstallLocal(cfg: FirewallConfig) returns (ok: bool)
      modifies this
      ensures Adds(Local(cfg), ok)
    {
      ok := AddOnLayers(10, [ProtocolIs(UDP), LocalPortIs(68), RemotePortIs(67)], Permit, LAYERS_V4);
      if !ok {
        return;
      }
      ok := InstallLast(cfg);
    }

    method InstallLast(cfg: FirewallConfig) returns (ok: bool)
      modifies this
      ensures Adds(LansAndBlock(cfg), ok)
    {
      if |cfg.allowedLans| > 0 {
        ok := PermitLans(10, cfg.allowedLans);
        if !ok {
          return;
        }
      }
      ok := AddOnLayers(0, [], Block, LAYERS_BOTH);
    }
  }

  lemma {:induction false} EndpointFiltersPrefix(weight: nat, apps: seq<AppId>, ip4: IP, port: nat, luid: nat, n: nat)
    requires n <= |apps|
    ensures |EndpointFilters(weight, apps[..n], ip4, port, luid)| <= |EndpointFilters(weight, apps, ip4, port, luid)|
  {
    if n < |apps| {
      EndpointFiltersPrefix(weight, apps[..|apps| - 1], ip4, port, luid, n);
      assert apps[..|apps| - 1][..n] == apps[..n];
    } else {
      assert apps[..n] == apps;
    }
  }

  lemma {:induction false} MaskFiltersPrefix(weight: nat, masks: seq<(nat, nat)>, n: nat)
    requires n <= |masks|
    ensures |MaskFilters(weight, masks[..n])| <= |MaskFilters(weight, masks)|
  {
    if n < |masks| {
      MaskFiltersPrefix(weight, masks[..|masks| - 1], n);
      assert masks[..|masks| - 1][..n] == masks[..n];
    } else {
      assert masks[..n] == masks;
    }
  }

  lemma {:induction false} ServerConditionsEmpty(servers: seq<IP>)
    ensures ServerConditions(servers) == [] <==> forall ip :: ip in servers ==> To4(ip).None?
  {
    if servers != [] {
      ServerConditionsEmpty(servers[..|servers| - 1]);
      assert servers == servers[..|servers| - 1] + [servers[|servers| - 1]];
    }
  }

  // ----- The session -----

  datatype FirewallError = AlreadyEnabled | NoConfig | NoLuid | NotIPv4 | NoApps | EngineFailed

  // What the operating system answers during one call of Enable.
  datatype World = World(opens: bool, registers: bool, identify: string -> Option<AppId>, accepts: nat -> bool)

  predicate AllKnown(identify: string -> Option<AppId>, paths: seq<string>) {
    forall path :: path in paths ==> identify(path).Some?
  }

  function AppIds(identify: string -> Option<AppId>, paths: seq<string>): (ids: seq<AppId>)
    requires AllKnown(identify, paths)
  {
    seq(|paths|, i requires 0 <= i < |paths| => identify(paths[i]).value)
  }

  method AppIdsFromFileNames(identify: string -> Option<AppId>, paths: seq<string>) returns (r: Option<seq<AppId>>)
    ensures r.Some? == AllKnown(identify, paths)
    ensures r.Some? ==> r.value == AppIds(identify, paths)
  {
    var ids := [];
    for i := 0 to |paths|
      invariant |ids| == i
      invariant forall k :: 0 <= k < i ==> identify(paths[k]) == Some(ids[k])
    {
      var id := identify(paths[i]);
      if id.None? {
        return None;
      }
      ids := ids + [id.value];
    }
    return Some(ids);
  }

  // Whether the system lets every step of the installation through.
  predicate Lets(w: World, cfg: FirewallConfig)
    requires ConfigOk(cfg)
  {
    && w.opens && w.registers && AllKnown(w.identify, cfg.allowedApps)
    && AllAccepted(w.accepts, 0, |Installed(cfg, AppIds(w.identify, cfg.allowedApps))|)
  }

  // Enabling succeeds, with no session open.
  predicate CanEnable(cfg: FirewallConfig, w: World) {
    ConfigOk(cfg) && DnsOk(cfg) && Lets(w, cfg)
  }

  // ----- What it takes -----

  lemma {:induction false} EndpointFilterCount(weight: nat, apps: seq<AppId>, ip4: IP, port: nat, luid: nat)
    ensures |EndpointFilters(weight, apps, ip4, port, luid)| == 2 * |apps|
  {
    if apps != [] {
      EndpointFilterCount(weight, apps[..|apps| - 1], ip4, port, luid);
    }
  }

  lemma {:induction false} MaskFilterCount(weight: nat, masks: seq<(nat, nat)>)
    ensures |MaskFilters(weight, masks)| == 2 * |masks|
  {
    if masks != [] {
      MaskFilterCount(weight, masks[..|masks| - 1]);
    }
  }

  // How many of the networks are IPv4 with a mask of four bytes.
  function LanCount(lans: seq<Net>): (n: nat) {
    if lans == [] then 0
    else
      var lan := lans[|lans| - 1];
      LanCount(lans[..|lans| - 1]) + if To4(lan.ip).Some? && |lan.mask| == 4 then 1 else 0
  }

  lemma {:induction false} LanMaskCount(lans: seq<Net>)
    ensures |LanMasks(lans)| == LanCount(lans)
  {
    if lans != [] {
      LanMaskCount(lans[..|lans| - 1]);
    }
  }

  // Four filters for each executable, two for each network, two for the
  // resolvers if there are any, and eighteen more.
  lemma {:induction false} FilterCount(cfg: FirewallConfig, apps: seq<AppId>)
    requires ConfigOk(cfg)
    ensures |Installed(cfg, apps)| == 4 * |apps| + 2 * LanCount(cfg.allowedLans) + (if cfg.dnsServers == [] then 0 else 2) + 18
  {
    EndpointFilterCount(15, apps, To4(cfg.hop1Endpoint).value, cfg.hop1Port, 0);
    EndpointFilterCount(15, apps, To4(cfg.hop2Endpoint).value, cfg.hop2Port, cfg.hop1);
    LanMaskCount(cfg.allowedLans);
    MaskFilterCount(10, LanMasks(cfg.allowedLans));
  }

  // Enabling needs both adapters, IPv4 endpoints, known executables, an IPv4
  // resolver if any is given, and an engine that takes every one of the filters.
  lemma {:induction false} EnablesWhen(cfg: FirewallConfig, w: World)
    ensures CanEnable(cfg, w) <==>
      && cfg.hop1 != 0 && cfg.hop2 != 0 && To4(cfg.hop1Endpoint).Some? && To4(cfg.hop2Endpoint).Some?
      && cfg.allowedApps != [] && (forall path :: path in cfg.allowedApps ==> w.identify(path).Some?)
      && (cfg.dnsServers == [] || exists ip :: ip in cfg.dnsServers && To4(ip).Some?)
      && w.opens && w.registers
      && var count := 4 * |cfg.allowedApps| + 2 * LanCount(cfg.allowedLans) + (if cfg.dnsServers == [] then 0 else 2) + 18;
         forall k :: 0 <= k < count ==> w.accepts(k)
  {
    if ConfigOk(cfg) && AllKnown(w.identify, cfg.allowedApps) {
      FilterCount(cfg, AppIds(w.identify, cfg.allowedApps));
    }
  }

  // The first thing wrong with a request that fails.
  function Complaint(session: Option<seq<Filter>>, config: Option<FirewallConfig>): (e: FirewallError) {
    if session.Some? then AlreadyEnabled
    else if config.None? then NoConfig
    else if config.value.hop1 == 0 || config.value.hop2 == 0 then NoLuid
    else if To4(config.value.hop1Endpoint).None? || To4(config.value.hop2Endpoint).None? then NotIPv4
    else if config.value.allowedApps == [] then NoApps
    else EngineFailed
  }

  // The process-wide session: the filters live exactly as long as it is open.
  class ChainFirewall {
    var session: Option<seq<Filter>>

    constructor ()
      ensures session == None
    {
      session := None;
    }

    // The filters installed are those of this configuration, for executables
    // with these identifiers.
    ghost predicate Enforces(cfg: FirewallConfig, apps: seq<AppId>)
      reads this
    {
      ConfigOk(cfg) && DnsOk(cfg) && session == Some(Installed(cfg, apps))
    }

    method Enable(config: Option<FirewallConfig>, w: World) returns (error: Option<FirewallError>)
      modifies this
      ensures error.None? <==> old(session).None? && config.Some? && ConfigOk(config.value) && DnsOk(config.value) && Lets(w, config.value)
      ensures error.None? ==> Enforces(config.value, AppIds(w.identify, config.value.allowedApps))
      ensures error.Some? ==> session == old(session)
      ensures error.Some? ==> error == Some(Complaint(old(session), config))
    {
      if session.Some? {
        return Some(AlreadyEnabled);
      }
      if config.None? {
        return Some(NoConfig);
      }
      var cfg := config.value;
      if cfg.hop1 == 0 || cfg.hop2 == 0 {
        return Some(NoLuid);
      }
      if To4(cfg.hop1Endpoint).None? || To4(cfg.hop2Endpoint).None? {
        return Some(NotIPv4);
      }
      if |cfg.allowedApps| == 0 {
        return Some(NoApps);
      }
      if !w.opens || !w.registers {
        return Some(EngineFailed);
      }
      var apps := AppIdsFromFileNames(w.identify, cfg.allowedApps);
      if apps.None? {
        return Some(EngineFailed);
      }
      var engine := new Engine(w.accepts);
      var ok := engine.InstallAll(cfg, apps.value);
      if !ok {
        // The transaction is rolled back and the engine closed.
        return Some(EngineFailed);
      }
      session := Some(engine.filters);
      return None;
    }

    method Disable()
      modifies this
      ensures session == None
    {
      if session.Some? {
        session := None;
      }
    }
  }
}
