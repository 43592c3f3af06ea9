// Printing a config and parsing the text again.
module RoundTrip {
  import opened Text
  import opened KeyText
  import opened Config
  import opened Names
  import opened Parser
  import opened Writer
  import opened Values

  // ----- composition, for any relation closed under it -----

  ghost predicate Composes<S(!new), D(!new)>(rel: (S, seq<D>, S) -> bool) {
    forall x, p: seq<D>, y, q, z {:trigger rel(x, p, y), rel(y, q, z), rel(x, p + q, z)} ::
      rel(x, p, y) && rel(y, q, z) ==> rel(x, p + q, z)
  }

  lemma {:induction false} Chain4<S(!new), D(!new)>(rel: (S, seq<D>, S) -> bool, s0: S, a: seq<D>, s1: S, b: seq<D>, s2: S, c: seq<D>, s3: S, d: seq<D>, s4: S)
    requires Composes(rel)
    requires rel(s0, a, s1) && rel(s1, b, s2) && rel(s2, c, s3) && rel(s3, d, s4)
    ensures rel(s0, a + b + c + d, s4)
  {
    assert rel(s0, a + b, s2);
    assert rel(s0, a + b + c, s3);
  }

  // ----- running the options of a printed config -----

  predicate Leads(st: State, ds: seq<Directive>, st1: State) {
    Run(st, ds) == Ok(st1)
  }

  lemma {:induction false} LeadsComposes()
    ensures Composes(Leads)
  {
    forall x, p, y, q, z | Leads(x, p, y) && Leads(y, q, z) ensures Leads(x, p + q, z) {
      RunAppend(x, p, q);
    }
  }

  lemma {:induction false} RunThen(st: State, a: seq<Directive>, st1: State, b: seq<Directive>, r: Result<State>)
    requires Run(st, a) == Ok(st1) && Run(st1, b) == r
    ensures Run(st, a + b) == r
  {
    RunAppend(st, a, b);
  }

  lemma {:induction false} RunOne(st: State, d: Directive)
    ensures Run(st, [d]) == Step(st, d)
  {
    match Step(st, d)
    case Ok(st') => assert [d][1..] == [] && Run(st', []) == Ok(st');
    case Err(_) =>
  }

  lemma {:induction false} RunOnly(st: State, b: bool, d: Directive)
    ensures Run(st, Only(b, d)) == if b then Step(st, d) else Ok(st)
  {
    if b { RunOne(st, d); }
  }

  // The entries of a table whose keys are listed.
  function Pick<K, V>(m: map<K, V>, keys: seq<K>): map<K, V> {
    map k | k in m && k in keys :: m[k]
  }

  lemma {:induction false} PickCons<K, V>(base: map<K, V>, m: map<K, V>, keys: seq<K>)
    requires keys != []
    ensures base + Pick(m, keys) ==
            (if keys[0] in m then base[keys[0] := m[keys[0]]] else base) + Pick(m, keys[1..])
  {
  }

  lemma {:induction false} PickAll<K, V>(m: map<K, V>, keys: seq<K>)
    requires forall k :: k in m ==> k in keys
    ensures map[] + Pick(m, keys) == m
  {
  }

  lemma {:induction false} RunNumbers(st: State, m: map<NumberKey, nat>, keys: seq<NumberKey>)
    requires st.section.InInterface?
    requires forall k :: k in m ==> 0 < m[k]
    ensures Run(st, NumberOptions(m, keys)) == Ok(st.(iface := st.iface.(numbers := st.iface.numbers + Pick(m, keys))))
    decreases |keys|
  {
    if keys == [] {
      assert st.iface.numbers + Pick(m, keys) == st.iface.numbers;
    } else {
      var k := keys[0];
      var d := ForInterface(SetNumber(k, if k in m then m[k] else 0));
      var st1 := if k in m then st.(iface := st.iface.SetNumber(k, m[k])) else st;
      PickCons(st.iface.numbers, m, keys);
      RunOnly(st, k in m, d);
      RunNumbers(st1, m, keys[1..]);
      RunAppend(st, Only(k in m, d), NumberOptions(m, keys[1..]));
    }
  }

  lemma {:induction false} RunTexts(st: State, m: map<TextKey, string>, keys: seq<TextKey>)
    requires st.section.InInterface?
    requires forall k :: k in m ==> m[k] != ""
    ensures Run(st, TextOptions(m, keys)) == Ok(st.(iface := st.iface.(texts := st.iface.texts + Pick(m, keys))))
    decreases |keys|
  {
    if keys == [] {
      assert st.iface.texts + Pick(m, keys) == st.iface.texts;
    } else {
      var k := keys[0];
      var d := ForInterface(SetText(k, if k in m then m[k] else ""));
      var st1 := if k in m then st.(iface := st.iface.SetText(k, m[k])) else st;
      PickCons(st.iface.texts, m, keys);
      RunOnly(st, k in m, d);
      RunTexts(st1, m, keys[1..]);
      RunAppend(st, Only(k in m, d), TextOptions(m, keys[1..]));
    }
  }

  lemma {:induction false} RunPackets(st: State, m: map<PacketKey, string>, keys: seq<PacketKey>)
    requires st.section.InInterface?
    requires forall k :: k in keys ==> k in m
    requires forall k :: k in m ==> m[k] != ""
    ensures Run(st, PacketOptions(m, keys)) == Ok(st.(iface := st.iface.(iPackets := st.iface.iPackets + Pick(m, keys))))
    decreases |keys|
  {
    var base := st.iface.iPackets;
    if keys == [] {
      assert base + Pick(m, keys) == base;
    } else {
      var k := keys[0];
      var d := ForInterface(SetPacket(k, m[k]));
      var st1 := st.(iface := st.iface.(iPackets := base[k := m[k]]));
      PickCons(base, m, keys);
      RunOne(st, d);
      RunPackets(st1, m, keys[1..]);
      RunAppend(st, [d], PacketOptions(m, keys[1..]));
    }
  }

  lemma {:induction false} TextKeyListed(k: TextKey)
    ensures k in HEADER_ORDER || k in TUNING_ORDER || k in HOOK_ORDER || k in PIN_ORDER
  {
    match k
    case H1 => assert HEADER_ORDER[0] == k;
    case H2 => assert HEADER_ORDER[1] == k;
    case H3 => assert HEADER_ORDER[2] == k;
    case H4 => assert HEADER_ORDER[3] == k;
    case ContentPaddingAddition => assert TUNING_ORDER[0] == k;
    case RekeyAfterTime => assert TUNING_ORDER[1] == k;
    case RekeyTimeout => assert TUNING_ORDER[2] == k;
    case RejectAfterTime => assert TUNING_ORDER[3] == k;
    case KeepaliveTimeout => assert TUNING_ORDER[4] == k;
    case MaxHandshakeAttempts => assert TUNING_ORDER[5] == k;
    case RandomTrailers => assert TUNING_ORDER[6] == k;
    case DisableCookies => assert TUNING_ORDER[7] == k;
    case PreUp => assert HOOK_ORDER[0] == k;
    case PostUp => assert HOOK_ORDER[1] == k;
    case PreDown => assert HOOK_ORDER[2] == k;
    case PostDown => assert HOOK_ORDER[3] == k;
    case PinEndpointVia => assert PIN_ORDER[0] == k;
  }

  lemma {:induction false} NumberKeyListed(k: NumberKey)
    ensures k in NUMBER_ORDER
  {
    match k
    case ListenPort => assert NUMBER_ORDER[0] == k;
    case Jc => assert NUMBER_ORDER[1] == k;
    case Jmin => assert NUMBER_ORDER[2] == k;
    case Jmax => assert NUMBER_ORDER[3] == k;
    case S1 => assert NUMBER_ORDER[4] == k;
    case S2 => assert NUMBER_ORDER[5] == k;
    case S3 => assert NUMBER_ORDER[6] == k;
    case S4 => assert NUMBER_ORDER[7] == k;
  }

  lemma {:induction false} PickEveryText(m: map<TextKey, string>, a: seq<TextKey>, b: seq<TextKey>, c: seq<TextKey>, d: seq<TextKey>)
    requires forall k :: k in m ==> k in a || k in b || k in c || k in d
    ensures map[] + Pick(m, a) + Pick(m, b) + Pick(m, c) + Pick(m, d) == m
  {
  }

  // The interface after the first part of its printed section.
  function HeadInterface(i: Interface): Interface {
    BLANK_INTERFACE.(privateKey := i.privateKey, numbers := i.numbers,
                     texts := map[] + Pick(i.texts, HEADER_ORDER), iPackets := i.iPackets)
  }

  function OfInterface(i: Interface, saw: bool): State {
    State(InInterface, i, [], None, saw)
  }

  lemma {:induction false} LeadsTexts(st: State, m: map<TextKey, string>, keys: seq<TextKey>, st1: State)
    requires st.section.InInterface? && forall k :: k in m ==> m[k] != ""
    requires st1 == st.(iface := st.iface.(texts := st.iface.texts + Pick(m, keys)))
    ensures Leads(st, TextOptions(m, keys), st1)
  {
    RunTexts(st, m, keys);
  }

  lemma {:induction false} LeadsOnly(st: State, b: bool, d: Directive, st1: State)
    requires if b then Step(st, d) == Ok(st1) else st1 == st
    ensures Leads(st, Only(b, d), st1)
  {
    RunOnly(st, b, d);
  }

  lemma {:induction false} RunHead(i: Interface, order: seq<PacketKey>)
    requires InterfaceOk(i) && VisitOrder(order, i.iPackets)
    ensures Leads(OfInterface(BLANK_INTERFACE, false), HeadOptions(i, order), OfInterface(HeadInterface(i), true))
  {
    var s1 := OfInterface(BLANK_INTERFACE.(privateKey := i.privateKey), true);
    var s2 := s1.(iface := s1.iface.(numbers := i.numbers));
    var s3 := s2.(iface := s2.iface.(texts := map[] + Pick(i.texts, HEADER_ORDER)));
    var s4 := s3.(iface := s3.iface.(iPackets := i.iPackets));
    RunNumbers(s1, i.numbers, NUMBER_ORDER);
    forall k | k in i.numbers ensures k in NUMBER_ORDER { NumberKeyListed(k); }
    PickAll(i.numbers, NUMBER_ORDER);
    LeadsTexts(s2, i.texts, HEADER_ORDER, s3);
    RunPackets(s3, i.iPackets, order);
    PickAll(i.iPackets, order);
    HeadChain(i.privateKey, s1, NumberOptions(i.numbers, NUMBER_ORDER), s2, TextOptions(i.texts, HEADER_ORDER), s3,
              PacketOptions(i.iPackets, order), s4);
  }

  lemma {:induction false} HeadChain(k: Key, s1: State, b: seq<Directive>, s2: State, c: seq<Directive>, s3: State, d: seq<Directive>, s4: State)
    requires s1 == OfInterface(BLANK_INTERFACE.(privateKey := k), true)
    requires Leads(s1, b, s2) && Leads(s2, c, s3) && Leads(s3, d, s4)
    ensures Leads(OfInterface(BLANK_INTERFACE, false), [ForInterface(SetPrivateKey(k))] + b + c + d, s4)
  {
    var s0 := OfInterface(BLANK_INTERFACE, false);
    RunOne(s0, ForInterface(SetPrivateKey(k)));
    LeadsComposes();
    Chain4(Leads, s0, [ForInterface(SetPrivateKey(k))], s1, b, s2, c, s3, d, s4);
  }

  // Options of the interface that hold their default are not printed.
  lemma {:induction false} RunMiddle(s0: State, i: Interface, s4: State)
    requires s0.section.InInterface? && InterfaceOk(i)
    requires s0.iface.headerProtectionKey == ZERO_KEY && s0.iface.addresses == [] && s0.iface.dns == [] && s0.iface.dnsSearch == []
    requires s4 == s0.(iface := s0.iface.(headerProtectionKey := i.headerProtectionKey,
                                          texts := s0.iface.texts + Pick(i.texts, TUNING_ORDER),
                                          addresses := i.addresses, dns := i.dns, dnsSearch := i.dnsSearch))
    ensures Leads(s0, MiddleOptions(i), s4)
  {
    var s1 := s0.(iface := s0.iface.(headerProtectionKey := i.headerProtectionKey));
    var s2 := s1.(iface := s1.iface.(texts := s1.iface.texts + Pick(i.texts, TUNING_ORDER)));
    LeadsTexts(s1, i.texts, TUNING_ORDER, s2);
    MiddleChain(s0, i, s1, TextOptions(i.texts, TUNING_ORDER), s2, s4);
  }

  lemma {:induction false} MiddleChain(s0: State, i: Interface, s1: State, b: seq<Directive>, s2: State, s4: State)
    requires s0.section.InInterface? && s0.iface.headerProtectionKey == ZERO_KEY
    requires s1 == s0.(iface := s0.iface.(headerProtectionKey := i.headerProtectionKey))
    requires Leads(s1, b, s2)
    requires s2.section.InInterface? && s2.iface.addresses == [] && s2.iface.dns == [] && s2.iface.dnsSearch == []
    requires s4 == s2.(iface := s2.iface.(addresses := i.addresses, dns := i.dns, dnsSearch := i.dnsSearch))
    ensures Leads(s0, Only(i.headerProtectionKey != ZERO_KEY, ForInterface(SetHeaderProtectionKey(i.headerProtectionKey)))
                      + b
                      + Only(i.addresses != [], ForInterface(AddAddresses(i.addresses)))
                      + Only(i.dns != [] || i.dnsSearch != [], ForInterface(AddDns(i.dns, i.dnsSearch))), s4)
  {
    var a, da := i.headerProtectionKey != ZERO_KEY, ForInterface(SetHeaderProtectionKey(i.headerProtectionKey));
    LeadsOnly(s0, a, da, s1);
    var c, dc := i.addresses != [], ForInterface(AddAddresses(i.addresses));
    var s3 := s2.(iface := s2.iface.(addresses := i.addresses));
    assert [] + i.addresses == i.addresses;
    LeadsOnly(s2, c, dc, s3);
    var d, dd := i.dns != [] || i.dnsSearch != [], ForInterface(AddDns(i.dns, i.dnsSearch));
    assert [] + i.dns == i.dns && [] + i.dnsSearch == i.dnsSearch;
    LeadsOnly(s3, d, dd, s4);
    LeadsComposes();
    Chain4(Leads, s0, Only(a, da), s1, b, s2, Only(c, dc), s3, Only(d, dd), s4);
  }

  lemma {:induction false} RunLast(s0: State, i: Interface, s4: State)
    requires s0.section.InInterface? && InterfaceOk(i) && !s0.iface.tableOff
    requires s4 == s0.(iface := s0.iface.(mtu := i.mtu, tableOff := i.tableOff,
                                          texts := s0.iface.texts + Pick(i.texts, HOOK_ORDER) + Pick(i.texts, PIN_ORDER)))
    ensures Leads(s0, LastOptions(i), s4)
  {
    var s1 := s0.(iface := s0.iface.(mtu := i.mtu));
    var s2 := s1.(iface := s1.iface.(texts := s1.iface.texts + Pick(i.texts, HOOK_ORDER)));
    var s3 := s2.(iface := s2.iface.(tableOff := i.tableOff));
    LeadsTexts(s1, i.texts, HOOK_ORDER, s2);
    LeadsTexts(s3, i.texts, PIN_ORDER, s4);
    LastChain(s0, i, s1, TextOptions(i.texts, HOOK_ORDER), s2, s3, TextOptions(i.texts, PIN_ORDER), s4);
  }

  lemma {:induction false} LastChain(s0: State, i: Interface, s1: State, b: seq<Directive>, s2: State, s3: State, d: seq<Directive>, s4: State)
    requires s0.section.InInterface? && s2.section.InInterface? && i.mtu > 0 && !s2.iface.tableOff
    requires s1 == s0.(iface := s0.iface.(mtu := i.mtu)) && s3 == s2.(iface := s2.iface.(tableOff := i.tableOff))
    requires Leads(s1, b, s2) && Leads(s3, d, s4)
    ensures Leads(s0, Only(i.mtu > 0, ForInterface(SetMtu(i.mtu))) + b
                      + Only(i.tableOff, ForInterface(SetTableOff(true))) + d, s4)
  {
    LeadsOnly(s0, i.mtu > 0, ForInterface(SetMtu(i.mtu)), s1);
    LeadsOnly(s2, i.tableOff, ForInterface(SetTableOff(true)), s3);
    LeadsComposes();
    Chain4(Leads, s0, Only(i.mtu > 0, ForInterface(SetMtu(i.mtu))), s1, b, s2,
           Only(i.tableOff, ForInterface(SetTableOff(true))), s3, d, s4);
  }

  lemma {:induction false} RunInterface(i: Interface, order: seq<PacketKey>)
    requires InterfaceOk(i) && VisitOrder(order, i.iPackets)
    ensures Leads(INITIAL, [OpenInterface] + HeadOptions(i, order) + MiddleOptions(i) + LastOptions(i), OfInterface(i, true))
  {
    var s0 := OfInterface(BLANK_INTERFACE, false);
    RunOne(INITIAL, OpenInterface);
    var s1 := OfInterface(HeadInterface(i), true);
    RunHead(i, order);
    var s2 := s1.(iface := s1.iface.(headerProtectionKey := i.headerProtectionKey,
                                     texts := s1.iface.texts + Pick(i.texts, TUNING_ORDER),
                                     addresses := i.addresses, dns := i.dns, dnsSearch := i.dnsSearch));
    RunMiddle(s1, i, s2);
    forall k | k in i.texts ensures k in HEADER_ORDER || k in TUNING_ORDER || k in HOOK_ORDER || k in PIN_ORDER {
      TextKeyListed(k);
    }
    PickEveryText(i.texts, HEADER_ORDER, TUNING_ORDER, HOOK_ORDER, PIN_ORDER);
    RunLast(s2, i, OfInterface(i, true));
    LeadsComposes();
    Chain4(Leads, INITIAL, [OpenInterface], s0, HeadOptions(i, order), s1, MiddleOptions(i), s2, LastOptions(i), OfInterface(i, true));
  }

  // The options of a peer, and what they make of an empty one.
  lemma {:induction false} RunPeerTop(st: State, p: Peer, p3: Peer)
    requires st.section.InPeer? && st.peer == Some(BLANK_PEER)
    requires p3 == BLANK_PEER.(publicKey := p.publicKey, presharedKey := p.presharedKey, allowedIPs := p.allowedIPs)
    ensures Leads(st, PeerTopOptions(p), st.(peer := Some(p3)))
  {
    var a := [ForPeer(SetPublicKey(p.publicKey))];
    var st1 := st.(peer := Some(BLANK_PEER.(publicKey := p.publicKey)));
    RunOne(st, a[0]);
    var b, db := p.presharedKey != ZERO_KEY, ForPeer(SetPresharedKey(p.presharedKey));
    var st2 := st1.(peer := Some(st1.peer.value.(presharedKey := p.presharedKey)));
    RunOnly(st1, b, db);
    var c, dc := p.allowedIPs != [], ForPeer(AddAllowedIPs(p.allowedIPs));
    assert [] + p.allowedIPs == p.allowedIPs;
    RunOnly(st2, c, dc);
    RunThen(st, a, st1, Only(b, db), Ok(st2));
    RunThen(st, a + Only(b, db), st2, Only(c, dc), Ok(st.(peer := Some(p3))));
  }

  lemma {:induction false} RunPeer(st: State, p: Peer)
    requires st.section.InPeer? && st.peer == Some(BLANK_PEER)
    requires p.endpoint.host == "" ==> p.endpoint == NO_ENDPOINT
    ensures Run(st, PeerOptions(p)) ==
            if EndpointOk(p.endpoint) then Ok(st.(peer := Some(NormalPeer(p)))) else Err(BadValue)
  {
    var p3 := BLANK_PEER.(publicKey := p.publicKey, presharedKey := p.presharedKey, allowedIPs := p.allowedIPs);
    var st3 := st.(peer := Some(p3));
    RunPeerTop(st, p, p3);
    var c, dc := p.endpoint.host != "", EndpointOption(p.endpoint);
    var d, dd := KeepaliveShown(p.persistentKeepalive), ForPeer(SetKeepalive(p.persistentKeepalive));
    RunPeerEnd(st3, p3, p);
    RunThen(st, PeerTopOptions(p), st3, Only(c, dc), Run(st3, Only(c, dc)));
    RunAppend(st, PeerTopOptions(p) + Only(c, dc), Only(d, dd));
    RunAppend(st3, Only(c, dc), Only(d, dd));
  }

  // The endpoint and the keepalive of a peer whose other options have been read.
  lemma {:induction false} RunPeerEnd(st: State, p3: Peer, p: Peer)
    requires st.section.InPeer? && st.peer == Some(p3)
    requires p3 == BLANK_PEER.(publicKey := p.publicKey, presharedKey := p.presharedKey, allowedIPs := p.allowedIPs)
    requires p.endpoint.host == "" ==> p.endpoint == NO_ENDPOINT
    ensures
      var ds := Only(p.endpoint.host != "", EndpointOption(p.endpoint)) + Only(KeepaliveShown(p.persistentKeepalive), ForPeer(SetKeepalive(p.persistentKeepalive)));
      Run(st, ds) == if EndpointOk(p.endpoint) then Ok(st.(peer := Some(NormalPeer(p)))) else Err(BadValue)
  {
    var c, dc := p.endpoint.host != "", EndpointOption(p.endpoint);
    var d, dd := KeepaliveShown(p.persistentKeepalive), ForPeer(SetKeepalive(p.persistentKeepalive));
    RunOnly(st, c, dc);
    var st4 := st.(peer := Some(p3.(endpoint := p.endpoint)));
    RunOnly(st4, d, dd);
    RunAppend(st, Only(c, dc), Only(d, dd));
  }

  // Every peer read so far, the current one included.
  function PeersOf(st: State): seq<Peer> {
    AddPeer(st.peers, st.peer)
  }

  predicate AllEndpointsOk(ps: seq<Peer>) {
    forall n :: 0 <= n < |ps| ==> EndpointOk(ps[n].endpoint)
  }

  lemma {:induction false} NormalPeersCons(ps: seq<Peer>)
    requires ps != []
    ensures NormalPeers(ps) == [NormalPeer(ps[0])] + NormalPeers(ps[1..])
    ensures AllEndpointsOk(ps) <==> EndpointOk(ps[0].endpoint) && AllEndpointsOk(ps[1..])
  {
    if EndpointOk(ps[0].endpoint) && AllEndpointsOk(ps[1..]) {
      forall n | 0 <= n < |ps| ensures EndpointOk(ps[n].endpoint) {
        if n > 0 { assert ps[n] == ps[1..][n - 1]; }
      }
    }
  }

  // Run over peer sections adds the normalised peers, or fails at the first
  // endpoint that is not fit to print.
  predicate ReadsPeers(st: State, ps: seq<Peer>, r: Result<State>) {
    if AllEndpointsOk(ps) then
      && r.Ok?
      && r.value.iface == st.iface
      && r.value.sawPrivateKey == st.sawPrivateKey
      && PeersOf(r.value) == PeersOf(st) + NormalPeers(ps)
    else r == Err(BadValue)
  }

  lemma {:induction false} RunPeers(st: State, ps: seq<Peer>)
    requires AllPeersOk(ps)
    ensures ReadsPeers(st, ps, Run(st, PeersOptions(ps)))
    decreases |ps|
  {
    if ps == [] {
      assert PeersOf(st) + NormalPeers(ps) == PeersOf(st);
    } else {
      var head, own, rest := [Nothing, OpenPeer], PeerOptions(ps[0]), PeersOptions(ps[1..]);
      var st1 := st.(peers := PeersOf(st), peer := Some(BLANK_PEER), section := InPeer);
      RunOne(st, Nothing);
      RunOne(st, OpenPeer);
      RunThen(st, [Nothing], st, [OpenPeer], Ok(st1));
      assert head == [Nothing] + [OpenPeer];
      RunPeer(st1, ps[0]);
      RunThen(st, head, st1, own, Run(st1, own));
      RunAppend(st, head + own, rest);
      NormalPeersCons(ps);
      var st2 := st1.(peer := Some(NormalPeer(ps[0])));
      RunPeers(st2, ps[1..]);
      if AllEndpointsOk(ps) {
        ConcatAssoc(PeersOf(st), [NormalPeer(ps[0])], NormalPeers(ps[1..]));
      }
    }
  }

  // ----- the whole text -----

  lemma {:induction false} RunNothing(st: State, ds: seq<Directive>)
    ensures Run(st, ds + [Nothing]) == Run(st, ds)
  {
    RunAppend(st, ds, [Nothing]);
    if Run(st, ds).Ok? { RunOne(Run(st, ds).value, Nothing); }
  }

  // Parsing the printed text of any printable config, whatever order the I1..I5
  // map was visited in: it gives the config back, with a switched-off keepalive
  // left out, exactly when every endpoint host can be told from a bracketed one.
  lemma {:induction false} ReadBack(c: Config, order: seq<PacketKey>)
    requires ValidName(c.name) && Printable(c) && VisitOrder(order, c.iface.iPackets)
    ensures Parse(Print(c, order), c.name) == if EndpointsOk(c) then Ok(Normal(c)) else Err(BadValue)
  {
    TextAsks(c, order);
    RunNothing(INITIAL, PrintedOptions(c, order));
    RunConfig(c, order);
  }

  lemma {:induction false} RunConfig(c: Config, order: seq<PacketKey>)
    requires Printable(c) && VisitOrder(order, c.iface.iPackets)
    ensures ParseDirectives(PrintedOptions(c, order), c.name) == if EndpointsOk(c) then Ok(Normal(c)) else Err(BadValue)
  {
    var st := OfInterface(c.iface, true);
    RunInterface(c.iface, order);
    RunPeers(st, c.peers);
    RunThen(INITIAL, InterfaceOptions(c.iface, order), st, PeersOptions(c.peers), Run(st, PeersOptions(c.peers)));
    PrintableKeys(c);
    FinishPeers(c, Run(st, PeersOptions(c.peers)));
  }

  lemma {:induction false} PrintableKeys(c: Config)
    requires Printable(c)
    ensures AllPublicKeys(NormalPeers(c.peers))
  {
    forall n | 0 <= n < |c.peers|
      ensures NormalPeers(c.peers)[n].publicKey != ZERO_KEY
    {
      assert PeerOk(c.peers[n]);
    }
  }

  lemma {:induction false} FinishPeers(c: Config, r: Result<State>)
    requires AllPublicKeys(NormalPeers(c.peers)) && ReadsPeers(OfInterface(c.iface, true), c.peers, r)
    ensures (match r case Err(e) => Err(e) case Ok(st) => Finish(c.name, st)) ==
            if EndpointsOk(c) then Ok(Normal(c)) else Err(BadValue)
  {
    assert [] + NormalPeers(c.peers) == NormalPeers(c.peers);
  }

  // FromWgQuick undoes ToWgQuick on every well-formed config.
  lemma {:induction false} PrintThenParse(c: Config, order: seq<PacketKey>)
    requires ValidName(c.name) && WellFormed(c) && VisitOrder(order, c.iface.iPackets)
    ensures Parse(Print(c, order), c.name) == Ok(c)
  {
    NormalOfWellFormed(c);
    ReadBack(c, order);
  }

  lemma {:induction false} NormalOfWellFormed(c: Config)
    requires WellFormed(c)
    ensures Normal(c) == c
  {
    assert NormalPeers(c.peers) == c.peers;
  }
}
