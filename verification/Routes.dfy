// The routes of a tunnel interface: built from the AllowedIPs of all peers,
// sorted, and freed of repeats.
module Routes {
  import opened Ip
  import opened Prefix
  import opened Config
  import opened Intersect
  import opened Lex

  datatype RouteData = RouteData(metric: nat, nextHop: seq<byte>, ip: seq<byte>, mask: seq<byte>)

  // net.IPv4zero is held in its sixteen-byte form.
  const IPV4_ZERO: seq<byte> := V4_PREFIX + [0, 0, 0, 0]
  const IPV6_ZERO: seq<byte> := [0, 0, 0, 0, 0, 0, 0, 0, 0, 0, 0, 0, 0, 0, 0, 0]

  // net.CIDRMask
  function CidrMask(cidr: nat, size: nat): (m: seq<byte>) {
    seq(size, i requires 0 <= i < size => MaskByte(cidr - 8 * i))
  }

  // The route to an AllowedIP.
  function RouteTo(a: IPCidr): (r: RouteData) {
    RouteData(0, if Bits(a.ip) == 32 then IPV4_ZERO else IPV6_ZERO, MaskIP(a.ip, a.cidr), CidrMask(a.cidr, |a.ip|))
  }

  // The interface has an address of this family.
  predicate HasFamily(addresses: seq<IPCidr>, bits: nat) {
    exists i :: 0 <= i < |addresses| && Bits(addresses[i].ip) == bits
  }

  predicate Kept(addresses: seq<IPCidr>, a: IPCidr) {
    HasFamily(addresses, Bits(a.ip))
  }

  function RoutesTo(addresses: seq<IPCidr>, allowed: seq<IPCidr>): (rs: seq<RouteData>) {
    if allowed == [] then []
    else
      var a := allowed[|allowed| - 1];
      RoutesTo(addresses, allowed[..|allowed| - 1]) + if Kept(addresses, a) then [RouteTo(a)] else []
  }

  method FamiliesOf(addresses: seq<IPCidr>) returns (have4: bool, have6: bool)
    ensures have4 == HasFamily(addresses, 32)
    ensures have6 == HasFamily(addresses, 128)
  {
    have4, have6 := false, false;
    for i := 0 to |addresses|
      invariant have4 == exists k :: 0 <= k < i && Bits(addresses[k].ip) == 32
      invariant have6 == exists k :: 0 <= k < i && Bits(addresses[k].ip) == 128
    {
      if Bits(addresses[i].ip) == 32 {
        have4 := true;
      } else if Bits(addresses[i].ip) == 128 {
        have6 := true;
      }
    }
  }

  // One turn of the loop over the AllowedIPs: masks the entry in place and makes
  // its route, if there is one.
  method RouteAt(allowed: seq<CidrRef>, i: nat, have4: bool, have6: bool, ghost addresses: seq<IPCidr>, ghost vs: seq<IPCidr>) returns (made: seq<RouteData>)
    requires Separate(allowed) && i < |allowed| == |vs| && CidrsOk(vs) && ValuesOf(allowed) == Partly(vs, i)
    requires have4 == HasFamily(addresses, 32) && have6 == HasFamily(addresses, 128)
    modifies allowed[i].ip
    ensures ValuesOf(allowed) == Partly(vs, i + 1)
    ensures made == if Kept(addresses, vs[i]) then [RouteTo(vs[i])] else []
  {
    MaskKeepsFamily(vs[i]);
    var a := MaskAt(allowed, i, vs);
    var bits := Bits(a.ip);
    if (bits == 32 && !have4) || (bits == 128 && !have6) {
      return [];
    }
    var nextHop := if bits == 32 then IPV4_ZERO else IPV6_ZERO;
    return [RouteData(0, nextHop, a.ip, CidrMask(a.cidr, bits / 8))];
  }

  // Goes through the AllowedIPs of all peers in turn.
  method BuildRoutes(addresses: seq<IPCidr>, allowed: seq<CidrRef>) returns (routes: seq<RouteData>)
    requires Separate(allowed) && CidrsOk(ValuesOf(allowed))
    modifies Arrays(allowed)
    ensures routes == RoutesTo(addresses, old(ValuesOf(allowed)))
    ensures ValuesOf(allowed) == MaskAll(old(ValuesOf(allowed)))
  {
    ghost var vs := ValuesOf(allowed);
    PartlyEnds(vs);
    var have4, have6 := FamiliesOf(addresses);
    routes := [];
    for i := 0 to |allowed|
      invariant ValuesOf(allowed) == Partly(vs, i)
      invariant routes == RoutesTo(addresses, vs[..i])
    {
      assert vs[..i + 1][..i] == vs[..i];
      var made := RouteAt(allowed, i, have4, have6, addresses, vs);
      routes := routes + made;
    }
    assert vs[..|vs|] == vs;
  }

  // ----- Sorting -----

  // The comparator.
  predicate RouteLess(a: RouteData, b: RouteData) {
    if a.metric != b.metric then a.metric < b.metric
    else if a.nextHop != b.nextHop then LexLess(a.nextHop, b.nextHop)
    else if a.ip != b.ip then LexLess(a.ip, b.ip)
    else LexLess(a.mask, b.mask)
  }

  // It orders routes totally: what it does not tell apart is equal.
  lemma {:induction false} RouteTrichotomy(a: RouteData, b: RouteData)
    ensures !RouteLess(a, a)
    ensures RouteLess(a, b) ==> !RouteLess(b, a) && a != b
    ensures RouteLess(a, b) || a == b || RouteLess(b, a)
  {
    LexTrichotomy(a.nextHop, b.nextHop);
    LexTrichotomy(a.ip, b.ip);
    LexTrichotomy(a.mask, b.mask);
    LexTrichotomy(a.mask, a.mask);
  }

  lemma {:induction false} RouteTransitive(a: RouteData, b: RouteData, c: RouteData)
    requires RouteLess(a, b) && RouteLess(b, c)
    ensures RouteLess(a, c)
  {
    RouteTrichotomy(a, b);
    if a.metric == b.metric == c.metric {
      LexTrichotomy(a.nextHop, b.nextHop);
      if a.nextHop != b.nextHop && b.nextHop != c.nextHop {
        LexTransitive(a.nextHop, b.nextHop, c.nextHop);
        LexTrichotomy(a.nextHop, c.nextHop);
      } else if a.nextHop == b.nextHop == c.nextHop {
        LexTrichotomy(a.ip, b.ip);
        if a.ip != b.ip && b.ip != c.ip {
          LexTransitive(a.ip, b.ip, c.ip);
          LexTrichotomy(a.ip, c.ip);
        } else if a.ip == b.ip == c.ip {
          LexTransitive(a.mask, b.mask, c.mask);
        }
      }
    }
  }

  // What sort.Slice leaves: no element before a smaller neighbour.
  predicate Sorted(rs: seq<RouteData>) {
    forall i :: 0 < i < |rs| ==> !RouteLess(rs[i], rs[i - 1])
  }

  // ----- Removing repeats -----

  function Dedup(rs: seq<RouteData>): (r: seq<RouteData>) {
    if |rs| <= 1 then rs
    else
      var front := rs[..|rs| - 1];
      if rs[|rs| - 1] == rs[|rs| - 2] then Dedup(front) else Dedup(front) + [rs[|rs| - 1]]
  }

  method Deduplicate(routes: seq<RouteData>) returns (r: seq<RouteData>)
    ensures r == Dedup(routes)
  {
    r := [];
    for i := 0 to |routes|
      invariant r == Dedup(routes[..i])
    {
      assert routes[..i + 1][..i] == routes[..i];
      if i > 0 && routes[i].metric == routes[i - 1].metric && routes[i].nextHop == routes[i - 1].nextHop &&
         routes[i].ip == routes[i - 1].ip && routes[i].mask == routes[i - 1].mask {
        continue;
      }
      r := r + [routes[i]];
    }
    assert routes[..|routes|] == routes;
  }

  lemma {:induction false} DedupKeeps(rs: seq<RouteData>)
    ensures forall r :: r in Dedup(rs) <==> r in rs
    ensures rs != [] ==> Dedup(rs) != [] && Dedup(rs)[|Dedup(rs)| - 1] == rs[|rs| - 1]
  {
    if |rs| > 1 {
      var front := rs[..|rs| - 1];
      DedupKeeps(front);
      assert rs == front + [rs[|rs| - 1]];
      assert rs[|rs| - 2] in front;
    }
  }

  predicate Ascending(rs: seq<RouteData>) {
    forall i, j :: 0 <= i < j < |rs| ==> RouteLess(rs[i], rs[j])
  }

  lemma {:induction false} AscendingSnoc(rs: seq<RouteData>, r: RouteData)
    requires Ascending(rs) && (rs != [] ==> RouteLess(rs[|rs| - 1], r))
    ensures Ascending(rs + [r])
  {
    var all := rs + [r];
    forall i, j | 0 <= i < j < |all|
      ensures RouteLess(all[i], all[j])
    {
      if j == |rs| && i < |rs| - 1 {
        RouteTransitive(rs[i], rs[|rs| - 1], r);
      }
    }
  }

  // On a sorted list equal routes are neighbours, so none is left twice.
  lemma {:induction false} DedupAscends(rs: seq<RouteData>)
    requires Sorted(rs)
    ensures Ascending(Dedup(rs))
  {
    if |rs| > 1 {
      var front, last := rs[..|rs| - 1], rs[|rs| - 1];
      DedupAscends(front);
      DedupKeeps(front);
      if last != rs[|rs| - 2] {
        RouteTrichotomy(rs[|rs| - 2], last);
        AscendingSnoc(Dedup(front), last);
      }
    }
  }

  lemma {:induction false} AscendingHasNoRepeats(rs: seq<RouteData>)
    requires Ascending(rs)
    ensures forall i, j :: 0 <= i < j < |rs| ==> rs[i] != rs[j]
  {
    forall i, j | 0 <= i < j < |rs|
      ensures rs[i] != rs[j]
    {
      RouteTrichotomy(rs[i], rs[j]);
    }
  }

  // ----- What the routes cover -----

  // net.IPNet.Contains
  predicate Covers(r: RouteData, a: seq<byte>) {
    && |r.ip| == |r.mask| == |a|
    && forall i :: 0 <= i < |a| ==> And8(a[i], r.mask[i]) == And8(r.ip[i], r.mask[i])
  }

  lemma {:induction false} RouteCovers(v: IPCidr, a: seq<byte>)
    requires v.cidr <= 8 * |v.ip|
    ensures Covers(RouteTo(v), a) <==> InPrefix(v.ip, v.cidr, a)
  {
    if |a| == |v.ip| {
      var m := MaskIP(v.ip, v.cidr);
      MaskTwice(v.ip, v.cidr);
      ContainsIffMaskedAlike(v.ip, v.cidr, a);
      assert forall i :: 0 <= i < |a| ==> And8(m[i], MaskByte(v.cidr - 8 * i)) == MaskIP(m, v.cidr)[i];
      if Covers(RouteTo(v), a) {
        forall i | 0 <= i < |a|
          ensures MaskIP(a, v.cidr)[i] == m[i]
        {
          assert And8(a[i], RouteTo(v).mask[i]) == And8(RouteTo(v).ip[i], RouteTo(v).mask[i]);
        }
        assert MaskIP(a, v.cidr) == m;
      }
    }
  }

  lemma {:induction false} RoutesToAre(addresses: seq<IPCidr>, allowed: seq<IPCidr>)
    ensures forall r :: r in RoutesTo(addresses, allowed) <==> exists v :: v in allowed && Kept(addresses, v) && r == RouteTo(v)
  {
    if allowed != [] {
      var front, last := allowed[..|allowed| - 1], allowed[|allowed| - 1];
      RoutesToAre(addresses, front);
      assert allowed == front + [last];
      forall r
        ensures r in RoutesTo(addresses, allowed) <==> exists v :: v in allowed && Kept(addresses, v) && r == RouteTo(v)
      {
        if v :| v in allowed && Kept(addresses, v) && r == RouteTo(v) {
          assert v in front || v == last;
        }
      }
    }
  }

  // The routes installed, in whatever way the sort broke ties: no repeats, and
  // exactly the masked AllowedIPs of the families the interface has.
  lemma {:induction false} InstalledRoutes(addresses: seq<IPCidr>, allowed: seq<IPCidr>, sorted: seq<RouteData>)
    requires Sorted(sorted) && multiset(sorted) == multiset(RoutesTo(addresses, allowed))
    ensures forall i, j :: 0 <= i < j < |Dedup(sorted)| ==> Dedup(sorted)[i] != Dedup(sorted)[j]
    ensures forall r :: r in Dedup(sorted) <==> exists v :: v in allowed && Kept(addresses, v) && r == RouteTo(v)
  {
    DedupKeeps(sorted);
    DedupAscends(sorted);
    AscendingHasNoRepeats(Dedup(sorted));
    RoutesToAre(addresses, allowed);
    forall r
      ensures r in sorted <==> r in RoutesTo(addresses, allowed)
    {
      assert r in sorted <==> r in multiset(sorted);
    }
  }

  // Each goes straight out of the interface: to the unspecified next hop of its
  // family, with metric 0.
  lemma {:induction false} RoutesAreOnLink(addresses: seq<IPCidr>, allowed: seq<IPCidr>, sorted: seq<RouteData>, r: RouteData)
    requires Sorted(sorted) && multiset(sorted) == multiset(RoutesTo(addresses, allowed))
    requires CidrsOk(allowed) && r in Dedup(sorted)
    ensures r.metric == 0
    ensures |r.ip| == |r.mask| == 4 || |r.ip| == |r.mask| == 16
    ensures |r.ip| == 4 ==> r.nextHop == [0, 0, 0, 0, 0, 0, 0, 0, 0, 0, 255, 255, 0, 0, 0, 0]
    ensures |r.ip| == 16 ==> r.nextHop == [0, 0, 0, 0, 0, 0, 0, 0, 0, 0, 0, 0, 0, 0, 0, 0]
  {
    InstalledRoutes(addresses, allowed, sorted);
    var v :| v in allowed && Kept(addresses, v) && r == RouteTo(v);
    assert CidrOk(v);
  }

  // The interface has an address of the prefix's family.
  predicate Reachable(addresses: seq<IPCidr>, v: IPCidr) {
    exists k :: 0 <= k < |addresses| && (To4(addresses[k].ip).Some? <==> To4(v.ip).Some?)
  }

  lemma {:induction false} KeptIsReachable(addresses: seq<IPCidr>, v: IPCidr)
    ensures Kept(addresses, v) <==> Reachable(addresses, v)
  {
  }

  // An address has a route exactly when an AllowedIP of a family that the
  // interface has an address of contains it.
  lemma {:induction false} CoverageIsKept(addresses: seq<IPCidr>, allowed: seq<IPCidr>, sorted: seq<RouteData>, a: seq<byte>)
    requires Sorted(sorted) && multiset(sorted) == multiset(RoutesTo(addresses, allowed))
    requires forall v :: v in allowed ==> v.cidr <= 8 * |v.ip|
    ensures (exists r :: r in Dedup(sorted) && Covers(r, a)) <==> (exists v :: v in allowed && Reachable(addresses, v) && InPrefix(v.ip, v.cidr, a))
  {
    forall v ensures Kept(addresses, v) <==> Reachable(addresses, v) {
      KeptIsReachable(addresses, v);
    }
    InstalledRoutes(addresses, allowed, sorted);
    forall v | v in allowed
      ensures Covers(RouteTo(v), a) <==> InPrefix(v.ip, v.cidr, a)
    {
      RouteCovers(v, a);
    }
    if v :| v in allowed && Kept(addresses, v) && InPrefix(v.ip, v.cidr, a) {
      assert RouteTo(v) in Dedup(sorted);
    }
  }
}
