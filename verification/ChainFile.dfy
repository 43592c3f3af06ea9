// A built chain on disk: both hops are written to files that read back as built.
module ChainFile {
  import opened Text
  import opened Ip
  import opened Config
  import opened ChainBuild
  import Names
  import PairNames
  import Parser
  import Writer
  import RoundTrip

  // What building wants of a configuration so that its hops can be written:
  // values the file format can carry.
  predicate Writable(c: Config) {
    Printable(c) && EndpointsOk(c)
  }

  lemma {:induction false} NameIsValueText(name: string)
    requires Names.ValidName(name)
    ensures ValueText(name)
  {
    forall i | 0 <= i < |name|
      ensures name[i] != '#' && name[i] != '\n' && !IsSpace(name[i])
    {
      assert Names.NameChar(name[i]);
    }
  }

  lemma {:induction false} SetTextOk(i: Interface, v: string)
    requires InterfaceOk(i) && ValueText(v)
    ensures InterfaceOk(i.SetText(PinEndpointVia, v))
  {
  }

  lemma {:induction false} CopyPeerOk(p: Peer)
    requires PeerOk(p)
    ensures PeerOk(CopyPeer(p)) && CopyPeer(p).endpoint == p.endpoint
    ensures CopyPeer(p).persistentKeepalive != "0" && CopyPeer(p).persistentKeepalive != "off"
  {
    TrimId(p.persistentKeepalive);
    var c := "25";
    assert c[0] == '2' && c[1] == '5';
    assert ValueText(c);
  }

  lemma {:induction false} SplitOk(addresses: seq<IPCidr>)
    ensures CidrsOk(SplitDefaultFor(addresses))
  {
    var z := ZERO_6;
    var h := HALF_6;
    assert z[..12][10] == 0 && h[..12][10] == 0;
    assert V4_PREFIX[10] == 255;
    assert To4(z).None? && To4(h).None?;
  }

  lemma {:induction false} FilterDnsKeeps(servers: seq<IP>, allowV6: bool)
    requires forall n :: 0 <= n < |servers| ==> |servers[n]| == 16
    ensures forall n :: 0 <= n < |FilterDns(servers, allowV6)| ==> |FilterDns(servers, allowV6)[n]| == 16
  {
    if servers != [] {
      FilterDnsKeeps(servers[..|servers| - 1], allowV6);
    }
  }

  lemma {:induction false} OuterWellFormed(warp: Config, name: string, alias: string)
    requires Writable(warp) && ValueText(alias)
    ensures WellFormed(OuterHop(warp, name, alias))
  {
    var hop := OuterHop(warp, name, alias);
    SetTextOk(warp.iface, alias);
    forall n | 0 <= n < |hop.peers|
      ensures PeerOk(hop.peers[n]) && EndpointOk(hop.peers[n].endpoint)
      ensures hop.peers[n].persistentKeepalive != "0" && hop.peers[n].persistentKeepalive != "off"
    {
      CopyPeerOk(warp.peers[n]);
    }
  }

  lemma {:induction false} InnerWellFormed(inner: Config, name: string, hidden: string)
    requires Writable(inner) && ValueText(hidden)
    ensures WellFormed(InnerHop(inner, name, hidden))
  {
    var hop := InnerHop(inner, name, hidden);
    var addresses := inner.iface.addresses;
    SetTextOk(inner.iface, hidden);
    FilterDnsKeeps(if inner.iface.dns == [] then DEFAULT_DNS else inner.iface.dns, HasIPv6(addresses));
    SplitOk(addresses);
    forall n | 0 <= n < |hop.peers|
      ensures PeerOk(hop.peers[n]) && EndpointOk(hop.peers[n].endpoint)
      ensures hop.peers[n].persistentKeepalive != "0" && hop.peers[n].persistentKeepalive != "off"
    {
      CopyPeerOk(inner.peers[n]);
    }
  }

  ghost predicate Reloads(c: Config) {
    Names.ValidName(c.name) && WellFormed(c)
  }

  lemma {:induction false} BuiltAreWellFormed(warp: Config, inner: Config, outerAlias: string, pairName: string)
    requires '#' !in outerAlias && '\n' !in outerAlias
    ensures
      var r := BuildChain(Some(warp), Some(inner), outerAlias, pairName);
      r.Chain? && Writable(warp) && Writable(inner) ==> Reloads(r.hop1) && Reloads(r.hop2)
  {
    var r := BuildChain(Some(warp), Some(inner), outerAlias, pairName);
    if r.Chain? && Writable(warp) && Writable(inner) {
      TrimKeeps(outerAlias, '#');
      TrimKeeps(outerAlias, '\n');
      var hidden := PairNames.HiddenHopName(Trim(pairName));
      NameIsValueText(hidden);
      OuterWellFormed(warp, hidden, Trim(outerAlias));
      InnerWellFormed(inner, Trim(pairName), hidden);
    }
  }

  // Each hop of a built chain, once written, is read back as it was built.
  lemma {:induction false} BuiltChainReadsBack(warp: Config, inner: Config, outerAlias: string, pairName: string, hop: Config, order: seq<PacketKey>)
    requires '#' !in outerAlias && '\n' !in outerAlias && Writer.VisitOrder(order, hop.iface.iPackets)
    ensures
      var r := BuildChain(Some(warp), Some(inner), outerAlias, pairName);
      r.Chain? && Writable(warp) && Writable(inner) && (hop == r.hop1 || hop == r.hop2) ==>
        Parser.Parse(Writer.Print(hop, order), hop.name) == Parser.Ok(hop)
  {
    BuiltAreWellFormed(warp, inner, outerAlias, pairName);
    if Reloads(hop) {
      RoundTrip.PrintThenParse(hop, order);
    }
  }
}
