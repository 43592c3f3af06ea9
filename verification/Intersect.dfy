// Whether two configurations claim a common address or route. The comparison
// masks the addresses of both in place while it goes through them.
module Intersect {
  import opened Ip
  import opened Bitwise
  import opened Prefix
  import opened Config

  // IPCidr.MaskSelf, on the bytes of an address as loading leaves them.
  method MaskSelf(ip: array<byte>, cidr: nat)
    requires (ip.Length == 4 || ip.Length == 16) && CidrOk(IPCidr(ip[..], cidr))
    modifies ip
    ensures ip[..] == MaskIP(old(ip[..]), cidr)
  {
    var bits := Bits(ip[..]);
    assert bits == 8 * ip.Length;
    ghost var was := ip[..];
    for i := 0 to bits / 8
      invariant forall k :: 0 <= k < i ==> ip[k] == MaskIP(was, cidr)[k]
      invariant forall k :: i <= k < ip.Length ==> ip[k] == was[k]
    {
      ip[i] := And8(ip[i], MaskByte(cidr - 8 * i));
    }
  }

  // ----- Masked values -----

  function Masked(a: IPCidr): (r: IPCidr) {
    IPCidr(MaskIP(a.ip, a.cidr), a.cidr)
  }

  function MaskAll(vs: seq<IPCidr>): (r: seq<IPCidr>)
    ensures |r| == |vs|
  {
    seq(|vs|, i requires 0 <= i < |vs| => Masked(vs[i]))
  }

  lemma {:induction false} FullMaskByte(ones: int)
    requires MaskByte(ones) == 255
    ensures ones >= 8
  {
  }

  // A mask that leaves byte 11 at 255 leaves everything before it.
  lemma {:induction false} MaskedToMapped(ip: seq<byte>, cidr: nat)
    requires |ip| == 16 && MaskIP(ip, cidr)[11] == 255
    ensures forall i :: 0 <= i < 12 ==> MaskIP(ip, cidr)[i] == ip[i]
  {
    AndBound(ip[11], MaskByte(cidr - 8 * 11));
    FullMaskByte(cidr - 8 * 11);
    assert Pow2(8) == 256;
    forall i | 0 <= i < 12
      ensures MaskIP(ip, cidr)[i] == ip[i]
    {
      AndAllOnes(ip[i], 8);
    }
  }

  // Masking does not turn an IPv6 address into a mapped IPv4 one.
  lemma {:induction false} MaskKeepsFamily(a: IPCidr)
    requires CidrOk(a)
    ensures Bits(Masked(a).ip) == Bits(a.ip) == 8 * |a.ip| && CidrOk(Masked(a))
  {
    var m: IP := MaskIP(a.ip, a.cidr);
    if |a.ip| == 16 && m[..12] == V4_PREFIX {
      assert m[11] == m[..12][11] == 255;
      MaskedToMapped(a.ip, a.cidr);
    }
  }

  lemma {:induction false} MaskAllOk(vs: seq<IPCidr>)
    requires CidrsOk(vs)
    ensures CidrsOk(MaskAll(vs))
  {
    forall i | 0 <= i < |vs|
      ensures CidrOk(MaskAll(vs)[i])
    {
      MaskKeepsFamily(vs[i]);
    }
  }

  lemma {:induction false} MaskAllTwice(vs: seq<IPCidr>)
    ensures MaskAll(MaskAll(vs)) == MaskAll(vs)
  {
    forall i | 0 <= i < |vs|
      ensures Masked(Masked(vs[i])) == Masked(vs[i])
    {
      MaskTwice(vs[i].ip, vs[i].cidr);
    }
  }

  // The first i entries are masked, the rest not yet.
  function Partly(vs: seq<IPCidr>, i: nat): (r: seq<IPCidr>)
    requires i <= |vs|
    ensures |r| == |vs|
  {
    seq(|vs|, k requires 0 <= k < |vs| => if k < i then Masked(vs[k]) else vs[k])
  }

  lemma {:induction false} PartlyEnds(vs: seq<IPCidr>)
    ensures Partly(vs, 0) == vs && Partly(vs, |vs|) == MaskAll(vs)
  {
  }

  lemma {:induction false} PartlyStep(vs: seq<IPCidr>, i: nat)
    requires i < |vs|
    ensures Partly(vs, i)[i] == vs[i]
    ensures Partly(vs, i)[i := Masked(vs[i])] == Partly(vs, i + 1)
  {
  }

  // ----- The routes of a configuration -----

  datatype Route = Route(ip: seq<byte>, cidr: nat)

  function Host(a: IPCidr): (r: Route) {
    Route(a.ip, 8 * |a.ip|)
  }

  function Network(a: IPCidr): (r: Route) {
    Route(MaskIP(a.ip, a.cidr), a.cidr)
  }

  // The routes of the addresses of an interface: each as a host, and its network.
  function AddressRoutes(vs: seq<IPCidr>): (rs: seq<Route>) {
    if vs == [] then []
    else
      var a := vs[|vs| - 1];
      AddressRoutes(vs[..|vs| - 1]) + [Host(a)] + [Network(a)]
  }

  function Networks(vs: seq<IPCidr>): (rs: seq<Route>) {
    if vs == [] then [] else Networks(vs[..|vs| - 1]) + [Network(vs[|vs| - 1])]
  }

  // The addresses of the interface, and the AllowedIPs of all peers in turn.
  datatype Addressing = Addressing(addresses: seq<IPCidr>, allowed: seq<IPCidr>)

  // As loading leaves them: an IPv4 address has four bytes.
  predicate AddressingOk(c: Addressing) {
    CidrsOk(c.addresses) && CidrsOk(c.allowed)
  }

  // Every address of the interface, its network, and every allowed network: the
  // keys of the map that the comparison fills.
  function Routes(c: Addressing): (rs: seq<Route>) {
    AddressRoutes(c.addresses) + Networks(c.allowed)
  }

  predicate Known(s: seq<Route>, r: Route) {
    s != [] && (s[|s| - 1] == r || Known(s[..|s| - 1], r))
  }

  lemma {:induction false} KnownIsIn(s: seq<Route>, r: Route)
    ensures Known(s, r) <==> r in s
  {
    if s != [] {
      KnownIsIn(s[..|s| - 1], r);
      assert s == s[..|s| - 1] + [s[|s| - 1]];
    }
  }

  // Looks up the routes of t among those of s.
  predicate Share(s: seq<Route>, t: seq<Route>) {
    t != [] && (Known(s, t[|t| - 1]) || Share(s, t[..|t| - 1]))
  }

  // There is a route in both.
  lemma {:induction false} ShareIsCommon(s: seq<Route>, t: seq<Route>)
    ensures Share(s, t) <==> exists r :: r in s && r in t
  {
    if t != [] {
      var front := t[..|t| - 1];
      ShareIsCommon(s, front);
      KnownIsIn(s, t[|t| - 1]);
      assert t == front + [t[|t| - 1]];
    }
  }

  // What IntersectsWith is meant to answer.
  predicate Intersects(c: Addressing, d: Addressing) {
    Share(Routes(c), Routes(d))
  }

  // The configuration a comparison leaves behind.
  function MaskedConfig(c: Addressing): (d: Addressing) {
    Addressing(MaskAll(c.addresses), MaskAll(c.allowed))
  }

  lemma {:induction false} RoutesSnoc(vs: seq<IPCidr>, i: nat)
    requires i < |vs|
    ensures AddressRoutes(vs[..i + 1]) == AddressRoutes(vs[..i]) + [Host(vs[i])] + [Network(vs[i])]
    ensures Networks(vs[..i + 1]) == Networks(vs[..i]) + [Network(vs[i])]
  {
    assert vs[..i + 1][..i] == vs[..i];
  }

  // The routes put behind those already collected.
  function Collected(routes: seq<Route>, vs: seq<IPCidr>): (rs: seq<Route>) {
    if vs == [] then routes
    else
      var a := vs[|vs| - 1];
      Collected(routes, vs[..|vs| - 1]) + [Host(a)] + [Network(a)]
  }

  function CollectedNetworks(routes: seq<Route>, vs: seq<IPCidr>): (rs: seq<Route>) {
    if vs == [] then routes else CollectedNetworks(routes, vs[..|vs| - 1]) + [Network(vs[|vs| - 1])]
  }

  lemma {:induction false} CollectedStep(routes: seq<Route>, vs: seq<IPCidr>, i: nat)
    requires i < |vs|
    ensures Collected(routes, vs[..i + 1]) == Collected(routes, vs[..i]) + [Host(vs[i])] + [Network(vs[i])]
    ensures CollectedNetworks(routes, vs[..i + 1]) == CollectedNetworks(routes, vs[..i]) + [Network(vs[i])]
  {
    assert vs[..i + 1][..i] == vs[..i];
  }

  lemma {:induction false} CollectedAll(routes: seq<Route>, vs: seq<IPCidr>)
    ensures Collected(routes, vs) == routes + AddressRoutes(vs)
    ensures CollectedNetworks(routes, vs) == routes + Networks(vs)
  {
    if vs != [] {
      CollectedAll(routes, vs[..|vs| - 1]);
    }
  }

  lemma {:induction false} CollectedBoth(c: Addressing)
    ensures CollectedNetworks(Collected([], c.addresses), c.allowed) == Routes(c)
  {
    CollectedAll([], c.addresses);
    CollectedAll(Collected([], c.addresses), c.allowed);
  }

  lemma {:induction false} ShareAppend(s: seq<Route>, t: seq<Route>, u: seq<Route>)
    ensures Share(s, t + u) <==> Share(s, t) || Share(s, u)
  {
    if u == [] {
      assert t + u == t;
    } else {
      ShareAppend(s, t, u[..|u| - 1]);
      assert (t + u)[..|t + u| - 1] == t + u[..|u| - 1];
    }
  }

  lemma {:induction false} ShareSnoc(s: seq<Route>, t: seq<Route>, r: Route)
    ensures Share(s, t + [r]) <==> Share(s, t) || Known(s, r)
  {
    assert (t + [r])[..|t|] == t;
  }

  // Whether one of the addresses has a route among those of s.
  predicate AddressMet(s: seq<Route>, vs: seq<IPCidr>) {
    vs != [] && (AddressMet(s, vs[..|vs| - 1]) || Known(s, Host(vs[|vs| - 1])) || Known(s, Network(vs[|vs| - 1])))
  }

  predicate NetworkMet(s: seq<Route>, vs: seq<IPCidr>) {
    vs != [] && (NetworkMet(s, vs[..|vs| - 1]) || Known(s, Network(vs[|vs| - 1])))
  }

  lemma {:induction false} MetStep(s: seq<Route>, vs: seq<IPCidr>, i: nat)
    requires i < |vs|
    ensures AddressMet(s, vs[..i + 1]) <==> AddressMet(s, vs[..i]) || Known(s, Host(vs[i])) || Known(s, Network(vs[i]))
    ensures NetworkMet(s, vs[..i + 1]) <==> NetworkMet(s, vs[..i]) || Known(s, Network(vs[i]))
  {
    assert vs[..i + 1][..i] == vs[..i];
  }

  lemma {:induction false} MetStays(s: seq<Route>, vs: seq<IPCidr>, i: nat)
    requires i <= |vs|
    ensures AddressMet(s, vs[..i]) ==> AddressMet(s, vs)
    ensures NetworkMet(s, vs[..i]) ==> NetworkMet(s, vs)
    ensures i == |vs| ==> vs[..i] == vs
    decreases |vs| - i
  {
    if i < |vs| {
      MetStep(s, vs, i);
      MetStays(s, vs, i + 1);
    } else {
      assert vs[..i] == vs;
    }
  }

  lemma {:induction false} MetIsShare(s: seq<Route>, vs: seq<IPCidr>)
    ensures AddressMet(s, vs) <==> Share(s, AddressRoutes(vs))
    ensures NetworkMet(s, vs) <==> Share(s, Networks(vs))
  {
    if vs != [] {
      var front, a := vs[..|vs| - 1], vs[|vs| - 1];
      MetIsShare(s, front);
      ShareSnoc(s, AddressRoutes(front), Host(a));
      ShareSnoc(s, AddressRoutes(front) + [Host(a)], Network(a));
      ShareSnoc(s, Networks(front), Network(a));
    }
  }

  // ----- Addresses in memory -----

  // An address with its prefix length; the bytes are shared with the config.
  datatype CidrRef = CidrRef(ip: array<byte>, cidr: nat)

  ghost function Arrays(rs: seq<CidrRef>): (s: set<array<byte>>) {
    set i | 0 <= i < |rs| :: rs[i].ip
  }

  // No two entries share their bytes.
  ghost predicate Separate(rs: seq<CidrRef>) {
    && (forall i :: 0 <= i < |rs| ==> rs[i].ip.Length == 4 || rs[i].ip.Length == 16)
    && (forall i, j :: 0 <= i < j < |rs| ==> rs[i].ip != rs[j].ip)
  }

  ghost function ValuesOf(rs: seq<CidrRef>): (vs: seq<IPCidr>)
    requires Separate(rs)
    reads Arrays(rs)
    ensures |vs| == |rs|
  {
    seq(|rs|, i requires 0 <= i < |rs| reads Arrays(rs) requires Separate(rs) => IPCidr(rs[i].ip[..], rs[i].cidr))
  }

  // The route of entry i as a host, before the entry is masked.
  method HostAt(rs: seq<CidrRef>, i: nat, ghost vs: seq<IPCidr>) returns (r: Route)
    requires Separate(rs) && i < |rs| == |vs| && ValuesOf(rs) == Partly(vs, i)
    ensures r == Host(vs[i])
  {
    assert IPCidr(rs[i].ip[..], rs[i].cidr) == ValuesOf(rs)[i] == vs[i];
    r := Route(rs[i].ip[..], 8 * rs[i].ip.Length);
  }

  // Masks entry i in place and gives the route of its network.
  method MaskAt(rs: seq<CidrRef>, i: nat, ghost vs: seq<IPCidr>) returns (r: Route)
    requires Separate(rs) && i < |rs| == |vs| && CidrsOk(vs)
    requires ValuesOf(rs) == Partly(vs, i)
    modifies rs[i].ip
    ensures ValuesOf(rs) == Partly(vs, i + 1)
    ensures r == Network(vs[i])
  {
    assert IPCidr(rs[i].ip[..], rs[i].cidr) == ValuesOf(rs)[i] == vs[i];
    ghost var before := ValuesOf(rs);
    MaskSelf(rs[i].ip, rs[i].cidr);
    assert ValuesOf(rs) == before[i := Masked(vs[i])];
    PartlyStep(vs, i);
    r := Route(rs[i].ip[..], rs[i].cidr);
  }

  method CollectAddresses(rs: seq<CidrRef>, routes: seq<Route>) returns (all: seq<Route>)
    requires Separate(rs) && CidrsOk(ValuesOf(rs))
    modifies Arrays(rs)
    ensures all == Collected(routes, old(ValuesOf(rs)))
    ensures ValuesOf(rs) == MaskAll(old(ValuesOf(rs)))
  {
    ghost var vs := ValuesOf(rs);
    PartlyEnds(vs);
    all := routes;
    for i := 0 to |rs|
      invariant ValuesOf(rs) == Partly(vs, i)
      invariant all == Collected(routes, vs[..i])
    {
      CollectedStep(routes, vs, i);
      var host := HostAt(rs, i, vs);
      all := all + [host];
      var network := MaskAt(rs, i, vs);
      all := all + [network];
    }
    assert vs[..|vs|] == vs;
  }

  method CollectAllowed(rs: seq<CidrRef>, routes: seq<Route>) returns (all: seq<Route>)
    requires Separate(rs) && CidrsOk(ValuesOf(rs))
    modifies Arrays(rs)
    ensures all == CollectedNetworks(routes, old(ValuesOf(rs)))
    ensures ValuesOf(rs) == MaskAll(old(ValuesOf(rs)))
  {
    ghost var vs := ValuesOf(rs);
    PartlyEnds(vs);
    all := routes;
    for i := 0 to |rs|
      invariant ValuesOf(rs) == Partly(vs, i)
      invariant all == CollectedNetworks(routes, vs[..i])
    {
      CollectedStep(routes, vs, i);
      var network := MaskAt(rs, i, vs);
      all := all + [network];
    }
    assert vs[..|vs|] == vs;
  }

  method LookUp(routes: seq<Route>, r: Route) returns (known: bool)
    ensures known == Known(routes, r)
  {
    KnownIsIn(routes, r);
    known := r in routes;
  }

  method MeetsAddresses(rs: seq<CidrRef>, routes: seq<Route>) returns (found: bool)
    requires Separate(rs) && CidrsOk(ValuesOf(rs))
    modifies Arrays(rs)
    ensures found == AddressMet(routes, old(ValuesOf(rs)))
  {
    ghost var vs := ValuesOf(rs);
    PartlyEnds(vs);
    for i := 0 to |rs|
      invariant ValuesOf(rs) == Partly(vs, i)
      invariant !AddressMet(routes, vs[..i])
    {
      MetStep(routes, vs, i);
      MetStays(routes, vs, i + 1);
      var host := HostAt(rs, i, vs);
      found := LookUp(routes, host);
      if found {
        return;
      }
      var network := MaskAt(rs, i, vs);
      found := LookUp(routes, network);
      if found {
        return;
      }
    }
    assert vs[..|vs|] == vs;
    return false;
  }

  method MeetsAllowed(rs: seq<CidrRef>, routes: seq<Route>) returns (found: bool)
    requires Separate(rs) && CidrsOk(ValuesOf(rs))
    modifies Arrays(rs)
    ensures found == NetworkMet(routes, old(ValuesOf(rs)))
  {
    ghost var vs := ValuesOf(rs);
    PartlyEnds(vs);
    for i := 0 to |rs|
      invariant ValuesOf(rs) == Partly(vs, i)
      invariant !NetworkMet(routes, vs[..i])
    {
      MetStep(routes, vs, i);
      MetStays(routes, vs, i + 1);
      var network := MaskAt(rs, i, vs);
      found := LookUp(routes, network);
      if found {
        return;
      }
    }
    assert vs[..|vs|] == vs;
    return false;
  }

  // ----- Two configurations -----

  datatype ConfigRef = ConfigRef(addresses: seq<CidrRef>, allowed: seq<CidrRef>)

  ghost function Footprint(c: ConfigRef): (s: set<array<byte>>) {
    Arrays(c.addresses) + Arrays(c.allowed)
  }

  ghost predicate Apart(c: ConfigRef) {
    Separate(c.addresses) && Separate(c.allowed) && Arrays(c.addresses) !! Arrays(c.allowed)
  }

  ghost function Content(c: ConfigRef): (v: Addressing)
    requires Apart(c)
    reads Footprint(c)
  {
    Addressing(ValuesOf(c.addresses), ValuesOf(c.allowed))
  }

  method CollectRoutes(conf: ConfigRef) returns (all: seq<Route>)
    requires Apart(conf) && AddressingOk(Content(conf))
    modifies Footprint(conf)
    ensures all == old(Routes(Content(conf)))
    ensures Content(conf) == MaskedConfig(old(Content(conf)))
  {
    CollectedBoth(Content(conf));
    all := CollectAddresses(conf.addresses, []);
    all := CollectAllowed(conf.allowed, all);
  }

  method MeetsRoutes(other: ConfigRef, all: seq<Route>) returns (found: bool)
    requires Apart(other) && AddressingOk(Content(other))
    modifies Footprint(other)
    ensures found == Share(all, old(Routes(Content(other))))
  {
    ghost var c := Content(other);
    MetAll(all, c.addresses, c.allowed);
    found := MeetsAddresses(other.addresses, all);
    if found {
      return;
    }
    found := MeetsAllowed(other.allowed, all);
  }

  // Two configurations intersect exactly when a route of the one, as its bytes
  // are now, is one of the other. The receiver is left masked.
  method IntersectsWith(conf: ConfigRef, other: ConfigRef) returns (r: bool)
    requires Apart(conf) && AddressingOk(Content(conf))
    requires Apart(other) && AddressingOk(Content(other))
    requires Footprint(conf) !! Footprint(other)
    modifies Footprint(conf), Footprint(other)
    ensures r == old(Intersects(Content(conf), Content(other)))
    ensures Content(conf) == MaskedConfig(old(Content(conf)))
  {
    ghost var theirs := Content(other);
    var all := CollectRoutes(conf);
    assert Content(other) == theirs;
    ghost var mine := Content(conf);
    r := MeetsRoutes(other, all);
    assert Content(conf) == mine;
  }

  lemma {:induction false} MetAll(s: seq<Route>, addresses: seq<IPCidr>, allowed: seq<IPCidr>)
    ensures Share(s, Routes(Addressing(addresses, allowed))) <==> AddressMet(s, addresses) || NetworkMet(s, allowed)
  {
    MetIsShare(s, addresses);
    MetIsShare(s, allowed);
    ShareAppend(s, AddressRoutes(addresses), Networks(allowed));
  }

  // ----- One configuration against several, as starting a tunnel does -----

  method LoadList(vs: seq<IPCidr>) returns (rs: seq<CidrRef>)
    ensures fresh(Arrays(rs)) && Separate(rs) && ValuesOf(rs) == vs
  {
    rs := [];
    for i := 0 to |vs|
      invariant |rs| == i && fresh(Arrays(rs)) && Separate(rs)
      invariant forall k :: 0 <= k < i ==> rs[k].ip[..] == vs[k].ip && rs[k].cidr == vs[k].cidr
    {
      var ip := vs[i].ip;
      var bytes := new byte[|ip|](k requires 0 <= k < |ip| => ip[k]);
      assert bytes[..] == ip;
      assert forall k :: 0 <= k < i ==> rs[k].ip in Arrays(rs);
      rs := rs + [CidrRef(bytes, vs[i].cidr)];
    }
  }

  // Loading gives every entry bytes of its own.
  method Load(c: Addressing) returns (r: ConfigRef)
    ensures fresh(Footprint(r)) && Apart(r) && Content(r) == c
  {
    var addresses := LoadList(c.addresses);
    var allowed := LoadList(c.allowed);
    r := ConfigRef(addresses, allowed);
  }

  // The first comparison is with the configuration as loaded, every further one
  // with what the first left.
  function Compared(c: Addressing, i: nat): (d: Addressing) {
    if i == 0 then c else MaskedConfig(c)
  }

  // Loads another configuration and compares.
  method CompareWith(conf: ConfigRef, d: Addressing) returns (hit: bool)
    requires Apart(conf) && AddressingOk(Content(conf)) && AddressingOk(d)
    modifies Footprint(conf)
    ensures hit == Intersects(old(Content(conf)), d)
    ensures Content(conf) == MaskedConfig(old(Content(conf)))
  {
    ghost var c := Content(conf);
    var other := Load(d);
    assert Content(conf) == c;
    hit := IntersectsWith(conf, other);
  }

  // Each state is what a comparison leaves of the one before.
  ghost predicate Follows(states: nat -> Addressing, i: nat) {
    AddressingOk(states(i)) && MaskedConfig(states(i)) == states(i + 1)
  }

  ghost predicate AnswersAt(states: nat -> Addressing, others: seq<Addressing>, answers: seq<bool>, i: nat)
    requires i < |others| == |answers|
  {
    AddressingOk(others[i]) && answers[i] == Intersects(states(i), others[i])
  }

  // What `states` and `answers` have to do with the comparisons.
  ghost predicate Expected(states: nat -> Addressing, others: seq<Addressing>, answers: seq<bool>) {
    && |answers| == |others|
    && (forall i: nat :: Follows(states, i))
    && (forall i: nat :: i < |others| ==> AnswersAt(states, others, answers, i))
  }

  method CompareNext(conf: ConfigRef, others: seq<Addressing>, ghost states: nat -> Addressing, ghost answers: seq<bool>, i: nat) returns (hit: bool)
    requires Expected(states, others, answers) && i < |others|
    requires Apart(conf) && Content(conf) == states(i)
    modifies Footprint(conf)
    ensures hit == answers[i] && Content(conf) == states(i + 1)
  {
    assert Follows(states, i) && AnswersAt(states, others, answers, i);
    hit := CompareWith(conf, others[i]);
  }

  method CompareThrough(conf: ConfigRef, others: seq<Addressing>, ghost states: nat -> Addressing, ghost answers: seq<bool>) returns (hits: seq<bool>)
    requires Expected(states, others, answers)
    requires Apart(conf) && Content(conf) == states(0)
    modifies Footprint(conf)
    ensures |hits| == |others| && forall k :: 0 <= k < |others| ==> hits[k] == answers[k]
  {
    hits := [];
    for i := 0 to |others|
      invariant Content(conf) == states(i)
      invariant |hits| == i && forall k :: 0 <= k < i ==> hits[k] == answers[k]
    {
      var hit := CompareNext(conf, others, states, answers, i);
      hits := hits + [hit];
    }
  }

  // What the comparisons with the others answer, in this order.
  function Answers(c: Addressing, others: seq<Addressing>): (hits: seq<bool>)
    ensures |hits| == |others|
  {
    seq(|others|, i requires 0 <= i < |others| => Intersects(Compared(c, i), others[i]))
  }

  method CompareWithAll(conf: ConfigRef, others: seq<Addressing>) returns (hits: seq<bool>)
    requires Apart(conf) && AddressingOk(Content(conf))
    requires forall i :: 0 <= i < |others| ==> AddressingOk(others[i])
    modifies Footprint(conf)
    ensures hits == Answers(old(Content(conf)), others)
  {
    ghost var c := Content(conf);
    ghost var states := (i: nat) => Compared(c, i);
    forall i: nat
      ensures Follows(states, i)
    {
      ComparedOk(c, i);
    }
    hits := CompareThrough(conf, others, states, Answers(c, others));
  }

  lemma {:induction false} ComparedOk(c: Addressing, i: nat)
    requires AddressingOk(c)
    ensures AddressingOk(Compared(c, i)) && MaskedConfig(Compared(c, i)) == Compared(c, i + 1)
  {
    MaskAllOk(c.addresses);
    MaskAllOk(c.allowed);
    MaskAllTwice(c.addresses);
    MaskAllTwice(c.allowed);
  }

  method CompareFresh(c: Addressing, d: Addressing) returns (r: bool)
    requires AddressingOk(c) && AddressingOk(d)
    ensures r == Intersects(c, d)
  {
    var conf := Load(c);
    r := CompareWith(conf, d);
  }

  // Asking the other way round, of freshly loaded configurations, gives the
  // same answer.
  method CompareBothWays(c: Addressing, d: Addressing) returns (cd: bool, dc: bool)
    requires AddressingOk(c) && AddressingOk(d)
    ensures cd == dc
  {
    cd := CompareFresh(c, d);
    dc := CompareFresh(d, c);
    IntersectionIsSymmetric(c, d);
  }

  lemma {:induction false} IntersectionIsSymmetric(c: Addressing, d: Addressing)
    ensures Intersects(c, d) <==> Intersects(d, c)
  {
    ShareIsCommon(Routes(c), Routes(d));
    ShareIsCommon(Routes(d), Routes(c));
  }

  // ----- When the second comparison is right -----

  lemma {:induction false} RoutesAre(c: Addressing, r: Route)
    ensures r in Routes(c) <==>
      || (exists i :: 0 <= i < |c.addresses| && r == Host(c.addresses[i]))
      || (exists i :: 0 <= i < |c.addresses| && r == Network(c.addresses[i]))
      || (exists i :: 0 <= i < |c.allowed| && r == Network(c.allowed[i]))
  {
    AddressRoutesAre(c.addresses, r);
    NetworksAre(c.allowed, r);
  }

  lemma {:induction false} AddressRoutesAre(vs: seq<IPCidr>, r: Route)
    ensures r in AddressRoutes(vs) <==> exists i :: 0 <= i < |vs| && (r == Host(vs[i]) || r == Network(vs[i]))
  {
    if vs != [] {
      var front := vs[..|vs| - 1];
      AddressRoutesAre(front, r);
      assert forall i :: 0 <= i < |front| ==> front[i] == vs[i];
    }
  }

  lemma {:induction false} NetworksAre(vs: seq<IPCidr>, r: Route)
    ensures r in Networks(vs) <==> exists i :: 0 <= i < |vs| && r == Network(vs[i])
  {
    if vs != [] {
      var front := vs[..|vs| - 1];
      NetworksAre(front, r);
      assert forall i :: 0 <= i < |front| ==> front[i] == vs[i];
    }
  }

  // Each interface address is still claimed after the masking, and what the
  // masking claims in its place was claimed before.
  predicate HostsStay(c: Addressing) {
    forall i :: 0 <= i < |c.addresses| ==>
      Host(c.addresses[i]) in Routes(MaskedConfig(c)) && Host(Masked(c.addresses[i])) in Routes(c)
  }

  lemma {:induction false} NetworkStays(a: IPCidr)
    ensures Network(Masked(a)) == Network(a)
  {
    MaskTwice(a.ip, a.cidr);
  }

  lemma {:induction false} KnownRoutes(c: Addressing, i: nat)
    ensures i < |c.addresses| ==> Host(c.addresses[i]) in Routes(c) && Network(c.addresses[i]) in Routes(c)
    ensures i < |c.allowed| ==> Network(c.allowed[i]) in Routes(c)
  {
    if i < |c.addresses| {
      RoutesAre(c, Host(c.addresses[i]));
      RoutesAre(c, Network(c.addresses[i]));
    }
    if i < |c.allowed| {
      RoutesAre(c, Network(c.allowed[i]));
    }
  }

  lemma {:induction false} MaskedHasNoMore(c: Addressing, r: Route)
    requires HostsStay(c) && r in Routes(MaskedConfig(c))
    ensures r in Routes(c)
  {
    var m := MaskedConfig(c);
    RoutesAre(m, r);
    if i :| 0 <= i < |m.addresses| && (r == Host(m.addresses[i]) || r == Network(m.addresses[i])) {
      NetworkStays(c.addresses[i]);
      KnownRoutes(c, i);
    } else {
      var i :| 0 <= i < |m.allowed| && r == Network(m.allowed[i]);
      NetworkStays(c.allowed[i]);
      KnownRoutes(c, i);
    }
  }

  lemma {:induction false} MaskedHasNoLess(c: Addressing, r: Route)
    requires HostsStay(c) && r in Routes(c)
    ensures r in Routes(MaskedConfig(c))
  {
    var m := MaskedConfig(c);
    RoutesAre(c, r);
    if i :| 0 <= i < |c.addresses| && (r == Host(c.addresses[i]) || r == Network(c.addresses[i])) {
      NetworkStays(c.addresses[i]);
      KnownRoutes(m, i);
    } else {
      var i :| 0 <= i < |c.allowed| && r == Network(c.allowed[i]);
      NetworkStays(c.allowed[i]);
      KnownRoutes(m, i);
    }
  }

  // The second comparison with this configuration answers as the first would.
  predicate SecondAgrees(c: Addressing, d: Addressing) {
    Intersects(MaskedConfig(c), d) == Intersects(c, d)
  }

  lemma {:induction false} HostsStaySuffices(c: Addressing, d: Addressing)
    requires HostsStay(c)
    ensures SecondAgrees(c, d)
  {
    var m := MaskedConfig(c);
    ShareIsCommon(Routes(c), Routes(d));
    ShareIsCommon(Routes(m), Routes(d));
    if r :| r in Routes(c) && r in Routes(d) {
      MaskedHasNoLess(c, r);
    }
    if r :| r in Routes(m) && r in Routes(d) {
      MaskedHasNoMore(c, r);
    }
  }

  // A configuration that claims one address and nothing else.
  function OnlyHost(a: IPCidr): (d: Addressing) {
    Addressing([IPCidr(a.ip, 8 * |a.ip|)], [])
  }

  lemma {:induction false} OnlyHostRoutes(a: IPCidr)
    requires CidrOk(a)
    ensures AddressingOk(OnlyHost(a)) && forall r :: r in Routes(OnlyHost(a)) <==> r == Host(a)
  {
    var d := OnlyHost(a);
    MaskKeepsFamily(a);
    MaskFull(a.ip);
    assert Network(d.addresses[0]) == Host(d.addresses[0]) == Host(a);
    forall r
      ensures r in Routes(d) <==> r == Host(a)
    {
      RoutesAre(d, r);
    }
  }

  lemma {:induction false} MaskFull(ip: seq<byte>)
    ensures MaskIP(ip, 8 * |ip|) == ip
  {
    assert Pow2(8) == 256;
    forall i | 0 <= i < |ip|
      ensures MaskIP(ip, 8 * |ip|)[i] == ip[i]
    {
      AndAllOnes(ip[i], 8);
    }
  }

  lemma {:induction false} MeetsOnlyHost(c: Addressing, a: IPCidr)
    requires CidrOk(a)
    ensures Intersects(c, OnlyHost(a)) <==> Host(a) in Routes(c)
  {
    OnlyHostRoutes(a);
    ShareIsCommon(Routes(c), Routes(OnlyHost(a)));
  }

  // The second comparison agrees with the first for every other configuration
  // exactly when the masking moves no host address out of the routes or in.
  lemma {:induction false} SecondComparison(c: Addressing)
    requires AddressingOk(c)
    ensures HostsStay(c) <==> forall d :: AddressingOk(d) ==> SecondAgrees(c, d)
  {
    if HostsStay(c) {
      forall d | AddressingOk(d)
        ensures SecondAgrees(c, d)
      {
        HostsStaySuffices(c, d);
      }
    }
    if forall d :: AddressingOk(d) ==> SecondAgrees(c, d) {
      forall i | 0 <= i < |c.addresses|
        ensures Host(c.addresses[i]) in Routes(MaskedConfig(c)) && Host(Masked(c.addresses[i])) in Routes(c)
      {
        HostMoves(c, i);
      }
    }
  }

  lemma {:induction false} HostMoves(c: Addressing, i: nat)
    requires AddressingOk(c) && i < |c.addresses|
    ensures
      var a, b := c.addresses[i], Masked(c.addresses[i]);
      && AddressingOk(OnlyHost(a)) && AddressingOk(OnlyHost(b))
      && (SecondAgrees(c, OnlyHost(a)) ==> Host(a) in Routes(MaskedConfig(c)))
      && (SecondAgrees(c, OnlyHost(b)) ==> Host(b) in Routes(c))
  {
    var a, b, m := c.addresses[i], Masked(c.addresses[i]), MaskedConfig(c);
    assert m.addresses[i] == b;
    MaskKeepsFamily(a);
    OnlyHostRoutes(a);
    OnlyHostRoutes(b);
    MeetsOnlyHost(c, a);
    MeetsOnlyHost(m, a);
    MeetsOnlyHost(c, b);
    MeetsOnlyHost(m, b);
    KnownRoutes(c, i);
    KnownRoutes(m, i);
  }

  // Both ways of being wrong: 10.0.0.2/24 meets 10.0.0.2/32 only the first
  // time, and 10.0.0.0/32 only the second.
  lemma {:induction false} SecondComparisonIsWrong()
    ensures
      var c := Addressing([IPCidr([10, 0, 0, 2], 24)], []);
      var host, network := OnlyHost(IPCidr([10, 0, 0, 2], 32)), OnlyHost(IPCidr([10, 0, 0, 0], 32));
      && Intersects(c, host) && !Intersects(MaskedConfig(c), host)
      && !Intersects(c, network) && Intersects(MaskedConfig(c), network)
  {
    var a: IPCidr, z := IPCidr([10, 0, 0, 2], 24), IPCidr([10, 0, 0, 0], 24);
    MaskedExample();
    SecondOfOne(a, z);
    assert OnlyHost(a) == OnlyHost(IPCidr([10, 0, 0, 2], 32)) && OnlyHost(z) == OnlyHost(IPCidr([10, 0, 0, 0], 32));
  }

  lemma {:induction false} MaskedExample()
    ensures Masked(IPCidr([10, 0, 0, 2], 24)) == IPCidr([10, 0, 0, 0], 24)
  {
    var ip: seq<byte> := [10, 0, 0, 2];
    assert Pow2(8) == 256;
    AndAllOnes(10, 8);
    assert MaskByte(24 - 8 * 0) == MaskByte(24 - 8 * 1) == MaskByte(24 - 8 * 2) == 255 && MaskByte(24 - 8 * 3) == 0;
    var m := MaskIP(ip, 24);
    assert m[0] == 10 && m[1] == 0 && m[2] == 0 && m[3] == 0;
    assert m == [10, 0, 0, 0];
  }

  // An interface with one address that is not that of its network.
  lemma {:induction false} SecondOfOne(a: IPCidr, z: IPCidr)
    requires CidrOk(a) && a.cidr < 8 * |a.ip| && z == Masked(a) && z.ip != a.ip
    ensures
      var c := Addressing([a], []);
      && Intersects(c, OnlyHost(a)) && !Intersects(MaskedConfig(c), OnlyHost(a))
      && !Intersects(c, OnlyHost(z)) && Intersects(MaskedConfig(c), OnlyHost(z))
  {
    var c := Addressing([a], []);
    var m := MaskedConfig(c);
    assert m.addresses == [z] && m.allowed == [];
    MaskKeepsFamily(a);
    NetworkStays(a);
    MeetsOnlyHost(c, a);
    MeetsOnlyHost(m, a);
    MeetsOnlyHost(c, z);
    MeetsOnlyHost(m, z);
    RoutesAre(c, Host(a));
    RoutesAre(m, Host(a));
    RoutesAre(c, Host(z));
    RoutesAre(m, Host(z));
  }
}
