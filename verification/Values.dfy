// Printed values read back: every printed line asks the parser for the option
// it was printed from.
module Values {
  import opened Text
  import opened Decimal
  import opened Ip
  import opened KeyText
  import opened Config
  import opened Parser
  import opened Writer
  import opened LineText

  // ----- single values -----

  lemma {:induction false} KeyValue(k: Key)
    ensures ValueText(ShowKey(k)) && ParseKey(ShowKey(k)) == Some(k)
  {
    ParseShowKey(k);
  }

  lemma {:induction false} NumberValue(n: nat)
    ensures ValueText(Itoa(n))
  {
  }

  // A list entry that may stand in a line.
  predicate PlainItem(s: string) {
    ListItem(s) && '#' !in s && '\n' !in s
  }

  predicate PlainItems(items: seq<string>) {
    forall i :: 0 <= i < |items| ==> PlainItem(items[i])
  }

  lemma {:induction false} PlainItemsCons(x: string, items: seq<string>)
    requires PlainItem(x) && PlainItems(items)
    ensures PlainItems([x] + items)
  {
  }

  lemma {:induction false} AddressItem(s: string)
    requires AddressText(s)
    ensures PlainItem(s) && '/' !in s
  {
  }

  lemma {:induction false} CidrItem(s: string, n: string)
    requires AddressText(s) && n != "" && AllDigits(n)
    ensures PlainItem(s + ['/'] + n)
    ensures ParseIPCidr(s + ['/'] + n) == CidrOf(ParseIP(s), n)
  {
    var t := s + ['/'] + n;
    AddressItem(s);
    assert t[0] == s[0] && t[|t| - 1] == n[|n| - 1];
    IndexOfAt(s, '/', n);
    assert t[..|s|] == s && t[|s| + 1..] == n;
  }

  lemma {:induction false} CidrValue(a: IPCidr)
    requires CidrOk(a)
    ensures PlainItem(ShowCidr(a)) && ParseIPCidr(ShowCidr(a)) == Ok(a)
  {
    ShowIsAddressText(a.ip);
    CidrItem(Show(a.ip), Itoa(a.cidr));
    ParseShow(a.ip);
    AtoiOfItoa(a.cidr);
  }

  lemma {:induction false} ParseIPCidrsCons(x: string, a: IPCidr, items: seq<string>)
    requires ParseIPCidr(x) == Ok(a) && ParseIPCidrs(items).Ok?
    ensures ParseIPCidrs([x] + items) == Ok([a] + ParseIPCidrs(items).value)
  {
    assert ([x] + items)[1..] == items;
  }

  lemma {:induction false} CidrTexts(s: seq<IPCidr>)
    requires CidrsOk(s)
    ensures PlainItems(ShowCidrs(s))
    ensures ParseIPCidrs(ShowCidrs(s)) == Ok(s)
  {
    if s != [] {
      CidrValue(s[0]);
      CidrTexts(s[1..]);
      PlainItemsCons(ShowCidr(s[0]), ShowCidrs(s[1..]));
      ParseIPCidrsCons(ShowCidr(s[0]), s[0], ShowCidrs(s[1..]));
      assert [s[0]] + s[1..] == s;
    }
  }

  lemma {:induction false} ListValue(items: seq<string>)
    requires |items| > 0 && PlainItems(items)
    ensures ValueText(JoinComma(items)) && ListItems(JoinComma(items)) == Some(items)
  {
    JoinTrimmed(items);
    JoinChars(items, '#');
    JoinChars(items, '\n');
    ListItemsOfJoin(items);
  }

  lemma {:induction false} CidrsValue(s: seq<IPCidr>)
    requires CidrsOk(s) && s != []
    ensures ValueText(JoinComma(ShowCidrs(s))) && ParseCidrList(JoinComma(ShowCidrs(s))) == Ok(s)
  {
    CidrTexts(s);
    ListValue(ShowCidrs(s));
  }

  lemma {:induction false} DnsCons(x: string, ip: IP, items: seq<string>)
    requires ParseIP(x) == Some(ip)
    ensures DnsServers([x] + items) == [ip] + DnsServers(items) && DnsDomains([x] + items) == DnsDomains(items)
  {
    assert ([x] + items)[1..] == items;
  }

  // The items of a DNS list are read as these servers and domains.
  predicate ReadsAsDns(items: seq<string>, dns: seq<IP>, search: seq<string>) {
    PlainItems(items) && DnsServers(items) == dns && DnsDomains(items) == search
  }

  lemma {:induction false} DnsStep(ip: IP, x: string, items: seq<string>, dns: seq<IP>, search: seq<string>)
    requires AddressText(x) && ParseIP(x) == Some(ip) && ReadsAsDns(items, dns, search)
    ensures ReadsAsDns([x] + items, [ip] + dns, search)
  {
    AddressItem(x);
    PlainItemsCons(x, items);
    DnsCons(x, ip, items);
  }

  lemma {:induction false} ServerStep(ip: IP, shown: seq<string>, dns: seq<IP>, search: seq<string>)
    requires |ip| == 16 && ReadsAsDns(shown + search, dns, search)
    ensures ReadsAsDns([Show(ip)] + shown + search, [ip] + dns, search)
  {
    ShowIsAddressText(ip);
    ParseShow(ip);
    ConsAppend(Show(ip), shown, search);
    DnsStep(ip, Show(ip), shown + search, dns, search);
  }

  lemma {:induction false} DomainsRead(search: seq<string>)
    requires forall n :: 0 <= n < |search| ==> SearchOk(search[n])
    ensures ReadsAsDns([] + search, [], search)
  {
    assert [] + search == search;
    DomainTexts(search);
  }

  // A DNS list names the servers first and the search domains after them.
  lemma {:induction false} DnsTexts(dns: seq<IP>, search: seq<string>)
    requires forall n :: 0 <= n < |dns| ==> |dns[n]| == 16
    requires ReadsAsDns([] + search, [], search)
    ensures ReadsAsDns(ShowIPs(dns) + search, dns, search)
    decreases |dns|
  {
    if dns != [] {
      DnsTexts(dns[1..], search);
      ServerStep(dns[0], ShowIPs(dns[1..]), dns[1..], search);
      assert [dns[0]] + dns[1..] == dns;
    }
  }

  lemma {:induction false} DomainTexts(search: seq<string>)
    requires forall n :: 0 <= n < |search| ==> SearchOk(search[n])
    ensures DnsServers(search) == [] && DnsDomains(search) == search
  {
    if search != [] {
      DomainTexts(search[1..]);
      assert [search[0]] + search[1..] == search;
    }
  }

  // ----- endpoints -----

  // A host without brackets comes back exactly when it does not look bracketed.
  lemma {:induction false} PlainHost(host: string)
    requires host != "" && IndexOf(host, ':') <= 0
    ensures ParseHost(host) == if HostOk(host) then Some(host) else None
  {
  }

  lemma {:induction false} IndexOfShift(c: char, s: string, a: char, b: string)
    requires c != a && c !in b
    ensures IndexOf([a] + s + b, c) == if IndexOf(s, c) < 0 then -1 else IndexOf(s, c) + 1
  {
    var t := [a] + s + b;
    IndexOfNone(t, c);
    IndexOfNone(s, c);
    if c in s {
      IndexOfFirst(s, c);
      var i := IndexOf(s, c);
      assert s == s[..i] + [c] + s[i + 1..];
      IndexOfAt([a] + s[..i], c, s[i + 1..] + b);
      assert t == ([a] + s[..i]) + [c] + (s[i + 1..] + b);
    }
  }

  lemma {:induction false} LastIndexOfShift(c: char, s: string, a: char, b: char)
    requires c != a && c != b
    ensures LastIndexOf([a] + s + [b], c) == if LastIndexOf(s, c) < 0 then -1 else LastIndexOf(s, c) + 1
  {
    var front := [a] + s;
    LastIndexOfCons(c, a, s);
    assert (front + [b])[..|front|] == front;
  }

  lemma {:induction false} LastIndexOfCons(c: char, a: char, s: string)
    requires c != a
    ensures LastIndexOf([a] + s, c) == if LastIndexOf(s, c) < 0 then -1 else LastIndexOf(s, c) + 1
  {
    if s == "" {
      assert [a] + s == [a] && [a][..0] == "";
    } else {
      var n := |s| - 1;
      LastIndexOfCons(c, a, s[..n]);
      assert ([a] + s)[..n + 1] == [a] + s[..n];
    }
  }

  // A bracketed host comes back exactly when its address part is an address.
  lemma {:induction false} BracketedHost(host: string)
    requires IndexOf(host, ':') > 0
    ensures ParseHost("[" + host + "]") == if HostOk(host) then Some(host) else None
  {
    var t := ['['] + host + [']'];
    assert "[" + host + "]" == t;
    IndexOfShift(':', host, '[', [']']);
    LastIndexOfShift('%', host, '[', ']');
    var i := LastIndexOf(host, '%');
    assert t[1..|t| - 1] == host;
    assert i >= 1 ==> t[1..i + 1] == host[..i];
  }

  lemma {:induction false} EndpointValue(e: Endpoint)
    requires HostText(e.host) && e.port <= 65535
    ensures ValueText(ShowEndpoint(e))
    ensures ParseEndpoint(ShowEndpoint(e)) == if EndpointOk(e) then Some(e) else None
  {
    var shown := if IndexOf(e.host, ':') > 0 then "[" + e.host + "]" else e.host;
    assert '#' !in shown && '\n' !in shown && !IsSpace(shown[0]);
    HostAndPort(shown, e.port);
    if IndexOf(e.host, ':') > 0 { BracketedHost(e.host); } else { PlainHost(e.host); }
  }

  lemma {:induction false} HostAndPort(shown: string, port: nat)
    requires shown != "" && '#' !in shown && '\n' !in shown && !IsSpace(shown[0]) && port <= 65535
    ensures var s := shown + [':'] + Itoa(port);
            && ValueText(s)
            && ParseEndpoint(s) == match ParseHost(shown) case None => None case Some(host) => Some(Endpoint(host, port))
  {
    var s := shown + [':'] + Itoa(port);
    LastIndexOfAt(shown, ':', Itoa(port));
    assert s[..|shown|] == shown && s[|shown| + 1..] == Itoa(port);
    ParseRangeOfItoa(port, 0, 65535);
    assert s[0] == shown[0] && s[|s| - 1] == Itoa(port)[|Itoa(port)| - 1];
  }

  // ----- the options behind the printed lines -----

  function Only(b: bool, d: Directive): seq<Directive> {
    if b then [d] else []
  }

  function NumberOptions(m: map<NumberKey, nat>, keys: seq<NumberKey>): seq<Directive> {
    if keys == [] then []
    else Only(keys[0] in m, ForInterface(SetNumber(keys[0], if keys[0] in m then m[keys[0]] else 0)))
         + NumberOptions(m, keys[1..])
  }

  function TextOptions(m: map<TextKey, string>, keys: seq<TextKey>): seq<Directive> {
    if keys == [] then []
    else Only(keys[0] in m, ForInterface(SetText(keys[0], if keys[0] in m then m[keys[0]] else "")))
         + TextOptions(m, keys[1..])
  }

  function PacketOptions(m: map<PacketKey, string>, keys: seq<PacketKey>): seq<Directive>
    requires forall k :: k in keys ==> k in m
  {
    if keys == [] then []
    else [ForInterface(SetPacket(keys[0], m[keys[0]]))] + PacketOptions(m, keys[1..])
  }

  function HeadOptions(i: Interface, order: seq<PacketKey>): seq<Directive>
    requires VisitOrder(order, i.iPackets)
  {
    [ForInterface(SetPrivateKey(i.privateKey))]
    + NumberOptions(i.numbers, NUMBER_ORDER)
    + TextOptions(i.texts, HEADER_ORDER)
    + PacketOptions(i.iPackets, order)
  }

  function MiddleOptions(i: Interface): seq<Directive> {
    Only(i.headerProtectionKey != ZERO_KEY, ForInterface(SetHeaderProtectionKey(i.headerProtectionKey)))
    + TextOptions(i.texts, TUNING_ORDER)
    + Only(i.addresses != [], ForInterface(AddAddresses(i.addresses)))
    + Only(i.dns != [] || i.dnsSearch != [], ForInterface(AddDns(i.dns, i.dnsSearch)))
  }

  function LastOptions(i: Interface): seq<Directive> {
    Only(i.mtu > 0, ForInterface(SetMtu(i.mtu)))
    + TextOptions(i.texts, HOOK_ORDER)
    + Only(i.tableOff, ForInterface(SetTableOff(true)))
    + TextOptions(i.texts, PIN_ORDER)
  }

  function InterfaceOptions(i: Interface, order: seq<PacketKey>): seq<Directive>
    requires VisitOrder(order, i.iPackets)
  {
    [OpenInterface] + HeadOptions(i, order) + MiddleOptions(i) + LastOptions(i)
  }

  function EndpointOption(e: Endpoint): Directive {
    if EndpointOk(e) then ForPeer(SetEndpoint(e)) else BadPeerValue
  }

  function PeerTopOptions(p: Peer): seq<Directive> {
    [ForPeer(SetPublicKey(p.publicKey))]
    + Only(p.presharedKey != ZERO_KEY, ForPeer(SetPresharedKey(p.presharedKey)))
    + Only(p.allowedIPs != [], ForPeer(AddAllowedIPs(p.allowedIPs)))
  }

  function PeerOptions(p: Peer): seq<Directive> {
    PeerTopOptions(p)
    + Only(p.endpoint.host != "", EndpointOption(p.endpoint))
    + Only(KeepaliveShown(p.persistentKeepalive), ForPeer(SetKeepalive(p.persistentKeepalive)))
  }

  function PeersOptions(ps: seq<Peer>): seq<Directive> {
    if ps == [] then [] else [Nothing, OpenPeer] + PeerOptions(ps[0]) + PeersOptions(ps[1..])
  }

  function PrintedOptions(c: Config, order: seq<PacketKey>): seq<Directive>
    requires VisitOrder(order, c.iface.iPackets)
  {
    InterfaceOptions(c.iface, order) + PeersOptions(c.peers)
  }

  // Lines fit to print that ask for the given options.
  predicate Asks(lines: seq<Line>, ds: seq<Directive>) {
    && |lines| == |ds|
    && LinesOk(lines)
    && forall i :: 0 <= i < |lines| ==> DirectiveOf(lines[i]) == ds[i]
  }

  lemma {:induction false} AsksAppend(a: seq<Line>, da: seq<Directive>, b: seq<Line>, db: seq<Directive>)
    requires Asks(a, da) && Asks(b, db)
    ensures Asks(a + b, da + db)
  {
  }

  lemma {:induction false} AsksOnly(b: bool, key: OptionKey, val: string, d: Directive)
    requires b ==> HasName(key) && ValueText(val) && EntryDirective(key, val) == d
    ensures Asks(When(b, key, val), Only(b, d))
  {
  }

  lemma {:induction false} AsksNumbers(m: map<NumberKey, nat>, keys: seq<NumberKey>)
    requires forall k :: k in m ==> 0 < m[k] <= 65535
    ensures Asks(NumberLines(m, keys), NumberOptions(m, keys))
  {
    if keys != [] {
      var k := keys[0];
      AsksNumbers(m, keys[1..]);
      if k in m {
        NumberValue(m[k]);
        ParseRangeOfItoa(m[k], 0, 65535);
        AsksAppend([Entry(Number(k), Itoa(m[k]))], [ForInterface(SetNumber(k, m[k]))],
                   NumberLines(m, keys[1..]), NumberOptions(m, keys[1..]));
      }
    }
  }

  lemma {:induction false} AsksTexts(m: map<TextKey, string>, keys: seq<TextKey>)
    requires forall k :: k in m ==> ValueText(m[k])
    ensures Asks(TextLines(m, keys), TextOptions(m, keys))
  {
    if keys != [] {
      var k := keys[0];
      AsksTexts(m, keys[1..]);
      if k in m {
        AsksAppend([Entry(Parser.Text(k), m[k])], [ForInterface(SetText(k, m[k]))],
                   TextLines(m, keys[1..]), TextOptions(m, keys[1..]));
      }
    }
  }

  lemma {:induction false} AsksPackets(m: map<PacketKey, string>, keys: seq<PacketKey>)
    requires forall k :: k in keys ==> k in m
    requires forall k :: k in m ==> ValueText(m[k])
    ensures Asks(PacketLines(m, keys), PacketOptions(m, keys))
  {
    if keys != [] {
      var k := keys[0];
      AsksPackets(m, keys[1..]);
      AsksAppend([Entry(Packet(k), m[k])], [ForInterface(SetPacket(k, m[k]))],
                 PacketLines(m, keys[1..]), PacketOptions(m, keys[1..]));
    }
  }

  lemma {:induction false} AsksHead(i: Interface, order: seq<PacketKey>)
    requires InterfaceOk(i) && VisitOrder(order, i.iPackets)
    ensures Asks(HeadLines(i, order), HeadOptions(i, order))
  {
    var a, da := When(true, PrivateKey, ShowKey(i.privateKey)), Only(true, ForInterface(SetPrivateKey(i.privateKey)));
    var b, db := NumberLines(i.numbers, NUMBER_ORDER), NumberOptions(i.numbers, NUMBER_ORDER);
    var c, dc := TextLines(i.texts, HEADER_ORDER), TextOptions(i.texts, HEADER_ORDER);
    var d, dd := PacketLines(i.iPackets, order), PacketOptions(i.iPackets, order);
    KeyValue(i.privateKey);
    AsksOnly(true, PrivateKey, ShowKey(i.privateKey), ForInterface(SetPrivateKey(i.privateKey)));
    AsksNumbers(i.numbers, NUMBER_ORDER);
    AsksTexts(i.texts, HEADER_ORDER);
    AsksPackets(i.iPackets, order);
    AsksFour(a, da, b, db, c, dc, d, dd);
  }

  lemma {:induction false} AsksFour(a: seq<Line>, da: seq<Directive>, b: seq<Line>, db: seq<Directive>,
                 c: seq<Line>, dc: seq<Directive>, d: seq<Line>, dd: seq<Directive>)
    requires Asks(a, da) && Asks(b, db) && Asks(c, dc) && Asks(d, dd)
    ensures Asks(a + b + c + d, da + db + dc + dd)
  {
    AsksAppend(a, da, b, db);
    AsksAppend(a + b, da + db, c, dc);
    AsksAppend(a + b + c, da + db + dc, d, dd);
  }

  lemma {:induction false} AsksMiddle(i: Interface)
    requires InterfaceOk(i)
    ensures Asks(MiddleLines(i), MiddleOptions(i))
  {
    AsksHeaderKey(i.headerProtectionKey);
    AsksTexts(i.texts, TUNING_ORDER);
    AsksAddresses(i.addresses);
    AsksDns(i.dns, i.dnsSearch);
    AsksFour(When(i.headerProtectionKey != ZERO_KEY, HeaderProtectionKey, ShowKey(i.headerProtectionKey)),
             Only(i.headerProtectionKey != ZERO_KEY, ForInterface(SetHeaderProtectionKey(i.headerProtectionKey))),
             TextLines(i.texts, TUNING_ORDER), TextOptions(i.texts, TUNING_ORDER),
             When(i.addresses != [], Address, JoinComma(ShowCidrs(i.addresses))),
             Only(i.addresses != [], ForInterface(AddAddresses(i.addresses))),
             When(i.dns != [] || i.dnsSearch != [], Dns, JoinComma(ShowIPs(i.dns) + i.dnsSearch)),
             Only(i.dns != [] || i.dnsSearch != [], ForInterface(AddDns(i.dns, i.dnsSearch))));
  }

  lemma {:induction false} AsksLast(i: Interface)
    requires InterfaceOk(i)
    ensures Asks(LastLines(i), LastOptions(i))
  {
    AsksMtu(i.mtu);
    AsksTexts(i.texts, HOOK_ORDER);
    AsksTable(i.tableOff);
    AsksTexts(i.texts, PIN_ORDER);
    AsksFour(When(i.mtu > 0, Mtu, Itoa(i.mtu)), Only(i.mtu > 0, ForInterface(SetMtu(i.mtu))),
             TextLines(i.texts, HOOK_ORDER), TextOptions(i.texts, HOOK_ORDER),
             When(i.tableOff, Table, "off"), Only(i.tableOff, ForInterface(SetTableOff(true))),
             TextLines(i.texts, PIN_ORDER), TextOptions(i.texts, PIN_ORDER));
  }

  lemma {:induction false} AsksHeaderKey(k: Key)
    ensures Asks(When(k != ZERO_KEY, HeaderProtectionKey, ShowKey(k)),
                 Only(k != ZERO_KEY, ForInterface(SetHeaderProtectionKey(k))))
  {
    KeyValue(k);
    AsksOnly(k != ZERO_KEY, HeaderProtectionKey, ShowKey(k), ForInterface(SetHeaderProtectionKey(k)));
  }

  lemma {:induction false} AsksCidrs(a: seq<IPCidr>, val: string)
    requires a != [] ==> ValueText(val) && ParseCidrList(val) == Ok(a)
    ensures Asks(When(a != [], Address, val), Only(a != [], ForInterface(AddAddresses(a))))
  {
    AddressDirective(val);
    AsksOnly(a != [], Address, val, ForInterface(AddAddresses(a)));
  }

  lemma {:induction false} AddressDirective(val: string)
    ensures EntryDirective(Address, val) == InterfaceAddresses(ParseCidrList(val))
  {
  }

  lemma {:induction false} AllowedDirective(val: string)
    ensures EntryDirective(AllowedIPs, val) == PeerAllowedIPs(ParseCidrList(val))
  {
  }

  lemma {:induction false} AsksPeerCidrs(a: seq<IPCidr>, val: string)
    requires a != [] ==> ValueText(val) && ParseCidrList(val) == Ok(a)
    ensures Asks(When(a != [], AllowedIPs, val), Only(a != [], ForPeer(AddAllowedIPs(a))))
  {
    AllowedDirective(val);
    AsksOnly(a != [], AllowedIPs, val, ForPeer(AddAllowedIPs(a)));
  }

  lemma {:induction false} AsksServers(b: bool, val: string, items: seq<string>)
    requires b ==> ValueText(val) && ListItems(val) == Some(items)
    ensures Asks(When(b, Dns, val), Only(b, ForInterface(AddDns(DnsServers(items), DnsDomains(items)))))
  {
    AsksOnly(b, Dns, val, ForInterface(AddDns(DnsServers(items), DnsDomains(items))));
  }

  lemma {:induction false} AsksAddresses(a: seq<IPCidr>)
    requires CidrsOk(a)
    ensures Asks(When(a != [], Address, JoinComma(ShowCidrs(a))), Only(a != [], ForInterface(AddAddresses(a))))
  {
    if a != [] { CidrsValue(a); }
    AsksCidrs(a, JoinComma(ShowCidrs(a)));
  }

  lemma {:induction false} AsksDns(dns: seq<IP>, search: seq<string>)
    requires forall n :: 0 <= n < |dns| ==> |dns[n]| == 16
    requires forall n :: 0 <= n < |search| ==> SearchOk(search[n])
    ensures Asks(When(dns != [] || search != [], Dns, JoinComma(ShowIPs(dns) + search)),
                 Only(dns != [] || search != [], ForInterface(AddDns(dns, search))))
  {
    var items := ShowIPs(dns) + search;
    if dns != [] || search != [] {
      DomainsRead(search);
      DnsTexts(dns, search);
      ListValue(items);
    }
    AsksServers(dns != [] || search != [], JoinComma(items), items);
  }

  lemma {:induction false} AsksMtu(mtu: nat)
    requires 576 <= mtu <= 65535
    ensures Asks(When(mtu > 0, Mtu, Itoa(mtu)), Only(mtu > 0, ForInterface(SetMtu(mtu))))
  {
    NumberValue(mtu);
    ParseRangeOfItoa(mtu, 576, 65535);
    AsksOnly(true, Mtu, Itoa(mtu), ForInterface(SetMtu(mtu)));
  }

  lemma {:induction false} AsksTable(off: bool)
    ensures Asks(When(off, Table, "off"), Only(off, ForInterface(SetTableOff(true))))
  {
    AsksOnly(off, Table, "off", ForInterface(SetTableOff(true)));
  }

  lemma {:induction false} AsksPeerKey(b: bool, public: bool, k: Key)
    ensures Asks(When(b, if public then PublicKey else PresharedKey, ShowKey(k)),
                 Only(b, ForPeer(if public then SetPublicKey(k) else SetPresharedKey(k))))
  {
    KeyValue(k);
    AsksOnly(b, if public then PublicKey else PresharedKey, ShowKey(k),
             ForPeer(if public then SetPublicKey(k) else SetPresharedKey(k)));
  }

  lemma {:induction false} AsksAllowedIPs(a: seq<IPCidr>)
    requires CidrsOk(a)
    ensures Asks(When(a != [], AllowedIPs, JoinComma(ShowCidrs(a))), Only(a != [], ForPeer(AddAllowedIPs(a))))
  {
    if a != [] { CidrsValue(a); }
    AsksPeerCidrs(a, JoinComma(ShowCidrs(a)));
  }

  // A printed endpoint is read back or rejected.
  lemma {:induction false} AsksEndpoint(e: Endpoint)
    requires EndpointText(e)
    ensures Asks(When(e.host != "", PeerEndpoint, ShowEndpoint(e)), Only(e.host != "", EndpointOption(e)))
  {
    if e.host != "" { EndpointValue(e); }
    AsksOnly(e.host != "", PeerEndpoint, ShowEndpoint(e), EndpointOption(e));
  }

  lemma {:induction false} AsksKeepalive(k: string)
    requires k == "" || (ValueText(k) && k != "(off)")
    ensures Asks(When(KeepaliveShown(k), PersistentKeepalive, k), Only(KeepaliveShown(k), ForPeer(SetKeepalive(k))))
  {
    AsksOnly(KeepaliveShown(k), PersistentKeepalive, k, ForPeer(SetKeepalive(k)));
  }

  lemma {:induction false} AsksPeer(p: Peer)
    requires PeerOk(p)
    ensures Asks(PeerLines(p), PeerOptions(p))
  {
    var a, da := When(true, PublicKey, ShowKey(p.publicKey)), Only(true, ForPeer(SetPublicKey(p.publicKey)));
    AsksPeerKey(true, true, p.publicKey);
    var b := When(p.presharedKey != ZERO_KEY, PresharedKey, ShowKey(p.presharedKey));
    var db := Only(p.presharedKey != ZERO_KEY, ForPeer(SetPresharedKey(p.presharedKey)));
    AsksPeerKey(p.presharedKey != ZERO_KEY, false, p.presharedKey);
    var c := When(p.allowedIPs != [], AllowedIPs, JoinComma(ShowCidrs(p.allowedIPs)));
    var dc := Only(p.allowedIPs != [], ForPeer(AddAllowedIPs(p.allowedIPs)));
    AsksAllowedIPs(p.allowedIPs);
    var d := When(p.endpoint.host != "", PeerEndpoint, ShowEndpoint(p.endpoint));
    var dd := Only(p.endpoint.host != "", EndpointOption(p.endpoint));
    AsksEndpoint(p.endpoint);
    var e := When(KeepaliveShown(p.persistentKeepalive), PersistentKeepalive, p.persistentKeepalive);
    var de := Only(KeepaliveShown(p.persistentKeepalive), ForPeer(SetKeepalive(p.persistentKeepalive)));
    AsksKeepalive(p.persistentKeepalive);
    AsksAppend(a, da, b, db);
    AsksAppend(a + b, da + db, c, dc);
    AsksAppend(a + b + c, da + db + dc, d, dd);
    AsksAppend(a + b + c + d, da + db + dc + dd, e, de);
  }

  predicate AllPeersOk(ps: seq<Peer>) {
    forall n :: 0 <= n < |ps| ==> PeerOk(ps[n])
  }

  lemma {:induction false} AsksSection(a: seq<Line>, da: seq<Directive>, b: seq<Line>, db: seq<Directive>)
    requires Asks(a, da) && Asks(b, db)
    ensures Asks([Blank, PeerHeader] + a + b, [Nothing, OpenPeer] + da + db)
  {
    AsksAppend([Blank, PeerHeader], [Nothing, OpenPeer], a, da);
    AsksAppend([Blank, PeerHeader] + a, [Nothing, OpenPeer] + da, b, db);
  }

  lemma {:induction false} AsksPeers(ps: seq<Peer>)
    requires AllPeersOk(ps)
    ensures Asks(PeersLines(ps), PeersOptions(ps))
  {
    if ps != [] {
      AsksPeer(ps[0]);
      AsksPeers(ps[1..]);
      AsksSection(PeerLines(ps[0]), PeerOptions(ps[0]), PeersLines(ps[1..]), PeersOptions(ps[1..]));
    }
  }

  lemma {:induction false} AsksConfig(c: Config, order: seq<PacketKey>)
    requires Printable(c) && VisitOrder(order, c.iface.iPackets)
    ensures Asks(PrintedLines(c, order), PrintedOptions(c, order))
  {
    AsksHead(c.iface, order);
    AsksMiddle(c.iface);
    AsksLast(c.iface);
    AsksPeers(c.peers);
    AsksSections(HeadLines(c.iface, order), HeadOptions(c.iface, order), MiddleLines(c.iface), MiddleOptions(c.iface),
                 LastLines(c.iface), LastOptions(c.iface), PeersLines(c.peers), PeersOptions(c.peers));
  }

  lemma {:induction false} AsksSections(a: seq<Line>, da: seq<Directive>, b: seq<Line>, db: seq<Directive>,
                     c: seq<Line>, dc: seq<Directive>, d: seq<Line>, dd: seq<Directive>)
    requires Asks(a, da) && Asks(b, db) && Asks(c, dc) && Asks(d, dd)
    ensures Asks([InterfaceHeader] + a + b + c + d, [OpenInterface] + da + db + dc + dd)
  {
    AsksFour([InterfaceHeader], [OpenInterface], a, da, b, db, c, dc);
    AsksAppend([InterfaceHeader] + a + b + c, [OpenInterface] + da + db + dc, d, dd);
  }

  // The printed text of a printable config is a text asking for its options.
  lemma {:induction false} TextAsks(c: Config, order: seq<PacketKey>)
    requires Printable(c) && VisitOrder(order, c.iface.iPackets)
    ensures Directives(ClassifyAll(Split(Print(c, order), '\n'))) == PrintedOptions(c, order) + [Nothing]
  {
    AsksConfig(c, order);
    AskedText(PrintedLines(c, order), PrintedOptions(c, order));
  }

  lemma {:induction false} AskedText(lines: seq<Line>, ds: seq<Directive>)
    requires Asks(lines, ds)
    ensures Directives(ClassifyAll(Split(LinesText(RenderAll(lines)), '\n'))) == ds + [Nothing]
  {
    ClassifyRendered(lines);
  }
}
