// What a text means, said of its lines: which line is refused and why, and for
// an accepted text where every field of the config comes from.
module Meaning {
  import opened Text
  import opened Decimal
  import opened Ip
  import opened KeyText
  import opened Config
  import opened Parser
  import opened PrefixLength
  import opened Writer
  import LineText
  import Names
  import OddEndpoint
  import Values

  // ----- Which lines are refused -----

  predicate OfInterface(key: OptionKey) {
    key.Text? || key.Number? || key.Packet? || key in {PrivateKey, HeaderProtectionKey, Mtu, Address, Dns, Table}
  }

  predicate OfPeer(key: OptionKey) {
    key in {PublicKey, PresharedKey, AllowedIPs, PersistentKeepalive, PeerEndpoint}
  }

  predicate IsNumber(val: string, low: int, high: int) {
    Atoi(val).Some? && low <= Atoi(val).value <= high
  }

  // The values an option takes; lists of prefixes aside.
  predicate Takes(key: OptionKey, val: string) {
    match key
    case Number(_) => IsNumber(val, 0, 65535)
    case Mtu => IsNumber(val, 576, 65535)
    case PrivateKey => ParseKey(val).Some?
    case PublicKey => ParseKey(val).Some?
    case PresharedKey => ParseKey(val).Some?
    case HeaderProtectionKey => val == "" || ParseKey(val).Some?
    case Table => val == "off" || val == "auto" || val == "main" || IsUint32(val)
    case Dns => ListItems(val).Some?
    case Address => ParseCidrList(val).Ok?
    case AllowedIPs => ParseCidrList(val).Ok?
    case PeerEndpoint => ParseEndpoint(val).Some?
    case _ => true
  }

  // A prefix its family does not have stops the program, any other value is bad.
  function ValueRefusal(key: OptionKey, val: string): (e: Option<ParseError>)
    ensures e in {None, Some(BadValue), Some(NilPrefix)}
  {
    if Takes(key, val) then None
    else if (key == Address || key == AllowedIPs) && ListOverruns(val) then Some(NilPrefix)
    else Some(BadValue)
  }

  // The first reason to refuse a line, in the order in which they are checked.
  function Refusal(section: Section, line: Line): (e: Option<ParseError>) {
    if line.Blank? || line.InterfaceHeader? || line.PeerHeader? then None
    else if section.NoSection? then Some(NotInSection)
    else if line.NoEquals? then Some(MissingEquals)
    else if line.val == "" && !MayBeEmpty(line.key) then Some(MissingValue)
    else if !(if section.InInterface? then OfInterface(line.key) else OfPeer(line.key)) then Some(InvalidKey)
    else ValueRefusal(line.key, line.val)
  }

  // What a value that was read asks for, or that it was not.
  predicate Read(d: Directive, e: Option<ParseError>, ofInterface: bool) {
    match e
    case None => if ofInterface then d.ForInterface? else d.ForPeer?
    case Some(NilPrefix) => if ofInterface then d.NilInterfaceValue? else d.NilPeerValue?
    case Some(_) => if ofInterface then d.BadInterfaceValue? else d.BadPeerValue?
  }

  lemma {:induction false} ValueRefused(key: OptionKey, val: string)
    requires OfInterface(key) || OfPeer(key)
    ensures Read(EntryDirective(key, val), ValueRefusal(key, val), OfInterface(key))
  {
    ListIsNil(val);
  }

  lemma {:induction false} NoOption(key: OptionKey, val: string)
    requires !OfInterface(key) && !OfPeer(key)
    ensures EntryDirective(key, val) == Malformed(InvalidKey)
  {
  }

  lemma {:induction false} StepRead(st: State, d: Directive, e: Option<ParseError>, ofInterface: bool)
    requires st.section.InPeer? ==> st.peer.Some?
    requires Read(d, e, ofInterface) && e in {None, Some(BadValue), Some(NilPrefix)}
    ensures st.section.NoSection? ==> Step(st, d) == Err(NotInSection)
    ensures !st.section.NoSection? && st.section.InInterface? != ofInterface ==> Step(st, d) == Err(InvalidKey)
    ensures !st.section.NoSection? && st.section.InInterface? == ofInterface ==>
      if e.None? then Step(st, d).Ok? else Step(st, d) == Err(e.value)
  {
  }

  lemma {:induction false} StepRefusal(st: State, line: Line)
    requires st.section.InPeer? ==> st.peer.Some?
    ensures
      match Refusal(st.section, line)
      case None => Step(st, DirectiveOf(line)).Ok?
      case Some(e) => Step(st, DirectiveOf(line)) == Err(e)
  {
    if line.Entry? && (line.val != "" || MayBeEmpty(line.key)) {
      var d := EntryDirective(line.key, line.val);
      assert DirectiveOf(line) == d;
      if OfInterface(line.key) || OfPeer(line.key) {
        ValueRefused(line.key, line.val);
        StepRead(st, d, ValueRefusal(line.key, line.val), OfInterface(line.key));
      } else {
        NoOption(line.key, line.val);
      }
    }
  }

  // The lines before the i-th fit and that one is refused.
  predicate Fits(lines: seq<Line>, i: nat)
    requires i < |lines|
  {
    Refusal(SectionOf(lines[..i]), lines[i]).None?
  }

  predicate AllFit(lines: seq<Line>) {
    forall i :: 0 <= i < |lines| ==> Fits(lines, i)
  }

  predicate RefusedAt(lines: seq<Line>, i: nat, e: ParseError) {
    i < |lines| && AllFit(lines[..i]) && Refusal(SectionOf(lines[..i]), lines[i]) == Some(e)
  }

  lemma {:induction false} FitsFront(lines: seq<Line>, n: nat, i: nat)
    requires i < n <= |lines|
    ensures Fits(lines[..n], i) <==> Fits(lines, i)
  {
    assert lines[..n][..i] == lines[..i];
  }

  lemma {:induction false} AllFitSnoc(lines: seq<Line>)
    requires lines != []
    ensures AllFit(lines) <==> AllFit(lines[..|lines| - 1]) && Fits(lines, |lines| - 1)
  {
    var n := |lines| - 1;
    var front := lines[..n];
    forall i | 0 <= i < n
      ensures Fits(front, i) <==> Fits(lines, i)
    {
      FitsFront(lines, n, i);
    }
    if AllFit(front) && Fits(lines, n) {
      forall i | 0 <= i < |lines|
        ensures Fits(lines, i)
      {
        assert i < n ==> Fits(front, i);
      }
    }
    if AllFit(lines) {
      forall i | 0 <= i < n
        ensures Fits(front, i)
      {
        assert Fits(lines, i);
      }
    }
  }

  lemma {:induction false} PeerIsOpen(lines: seq<Line>)
    requires Run(INITIAL, Directives(lines)).Ok?
    ensures
      var st := Run(INITIAL, Directives(lines)).value;
      st.section.InPeer? ==> st.peer.Some?
  {
    if lines == [] {
      assert Directives(lines) == [];
    } else {
      RunSnoc(lines);
      PeerIsOpen(lines[..|lines| - 1]);
      OpenStep(Run(INITIAL, Directives(lines[..|lines| - 1])).value, DirectiveOf(lines[|lines| - 1]));
    }
  }

  lemma {:induction false} OpenStep(st: State, d: Directive)
    requires st.section.InPeer? ==> st.peer.Some?
    ensures Step(st, d).Ok? ==> (Step(st, d).value.section.InPeer? ==> Step(st, d).value.peer.Some?)
  {
  }

  // The run gets through the lines exactly when all fit, and otherwise ends with
  // the refusal of the first that does not.
  lemma {:induction false} RunRefused(lines: seq<Line>)
    ensures Run(INITIAL, Directives(lines)).Ok? <==> AllFit(lines)
    ensures Run(INITIAL, Directives(lines)).Err? ==> exists i: nat :: RefusedAt(lines, i, Run(INITIAL, Directives(lines)).error)
  {
    if lines == [] {
      assert Directives(lines) == [];
    } else {
      var front, n := lines[..|lines| - 1], |lines| - 1;
      RunRefused(front);
      RunSnoc(lines);
      AllFitSnoc(lines);
      if Run(INITIAL, Directives(front)).Ok? {
        PeerIsOpen(front);
        SectionOfRun(front);
        StepRefusal(Run(INITIAL, Directives(front)).value, lines[n]);
        assert Fits(lines, n) || RefusedAt(lines, n, Run(INITIAL, Directives(lines)).error);
      } else {
        var e := Run(INITIAL, Directives(front)).error;
        var i: nat :| RefusedAt(front, i, e);
        assert front[..i] == lines[..i];
        assert RefusedAt(lines, i, e);
      }
    }
  }

  lemma {:induction false} RefusedOnce(lines: seq<Line>, i: nat, e: ParseError, k: nat, g: ParseError)
    requires RefusedAt(lines, i, e) && RefusedAt(lines, k, g)
    ensures i == k && e == g
  {
    if i < k {
      FitsFront(lines, k, i);
    }
    if k < i {
      FitsFront(lines, i, k);
    }
  }

  // ----- Where the fields come from -----

  // The value of the last line that sets the option.
  function LastVal(lines: seq<Line>, key: OptionKey): (val: Option<string>) {
    if lines == [] then None
    else
      var line := lines[|lines| - 1];
      if line.Entry? && line.key == key then Some(line.val) else LastVal(lines[..|lines| - 1], key)
  }

  // The same, lines without a value aside.
  function LastFull(lines: seq<Line>, key: OptionKey): (val: Option<string>) {
    if lines == [] then None
    else
      var line := lines[|lines| - 1];
      if line.Entry? && line.key == key && line.val != "" then Some(line.val) else LastFull(lines[..|lines| - 1], key)
  }

  function TextOr(val: Option<string>): (r: string) {
    if val.Some? then val.value else ""
  }

  function NumberOr(val: Option<string>, other: nat): (n: nat) {
    if val.Some? && Atoi(val.value).Some? && Atoi(val.value).value >= 0 then Atoi(val.value).value else other
  }

  function KeyOr(val: Option<string>): (k: Key) {
    if val.Some? && ParseKey(val.value).Some? then ParseKey(val.value).value else ZERO_KEY
  }

  // The prefixes of all lines of this option, one after another.
  function PrefixesIn(lines: seq<Line>, key: OptionKey): (r: seq<IPCidr>) {
    if lines == [] then []
    else
      var line := lines[|lines| - 1];
      var before := PrefixesIn(lines[..|lines| - 1], key);
      if line.Entry? && line.key == key && ParseCidrList(line.val).Ok? then before + ParseCidrList(line.val).value else before
  }

  // The entries of all DNS lines.
  function DnsIn(lines: seq<Line>): (r: seq<string>) {
    if lines == [] then []
    else
      var line := lines[|lines| - 1];
      var before := DnsIn(lines[..|lines| - 1]);
      if line.Entry? && line.key == Dns && ListItems(line.val).Some? then before + ListItems(line.val).value else before
  }

  predicate HasEntry(lines: seq<Line>, key: OptionKey) {
    LastVal(lines, key).Some?
  }

  // The option an entry sets.
  function OptionOf(key: OptionKey, val: string): (o: InterfaceOption)
    requires OfInterface(key) && Takes(key, val)
  {
    if key.Text? then SetText(key.text, val)
    else if key.Number? then SetNumber(key.number, Atoi(val).value)
    else if key.Packet? then SetPacket(key.packet, val)
    else if key == PrivateKey then SetPrivateKey(ParseKey(val).value)
    else if key == HeaderProtectionKey then SetHeaderProtectionKey(if val == "" then ZERO_KEY else ParseKey(val).value)
    else if key == Mtu then SetMtu(Atoi(val).value)
    else if key == Address then AddAddresses(ParseCidrList(val).value)
    else if key == Dns then AddDns(DnsServers(ListItems(val).value), DnsDomains(ListItems(val).value))
    else SetTableOff(val == "off")
  }

  function PeerOptionOf(key: OptionKey, val: string): (o: PeerOption)
    requires OfPeer(key) && Takes(key, val)
  {
    if key == PublicKey then SetPublicKey(ParseKey(val).value)
    else if key == PresharedKey then SetPresharedKey(ParseKey(val).value)
    else if key == AllowedIPs then AddAllowedIPs(ParseCidrList(val).value)
    else if key == PersistentKeepalive then SetKeepalive(if val == "off" || val == "(off)" then "0" else val)
    else SetEndpoint(ParseEndpoint(val).value)
  }

  lemma {:induction false} InterfaceAsks(key: OptionKey, val: string)
    requires OfInterface(key) && Takes(key, val)
    ensures EntryDirective(key, val) == ForInterface(OptionOf(key, val))
  {
  }

  lemma {:induction false} PeerAsks(key: OptionKey, val: string)
    requires OfPeer(key) && Takes(key, val)
    ensures EntryDirective(key, val) == ForPeer(PeerOptionOf(key, val))
  {
  }

  // What a line that fits makes of the state.
  function After(st: State, line: Line): (r: State)
    requires st.section.InPeer? ==> st.peer.Some?
    requires Refusal(st.section, line).None?
  {
    match line
    case InterfaceHeader => st.(peers := AddPeer(st.peers, st.peer), section := InInterface)
    case PeerHeader => st.(peers := AddPeer(st.peers, st.peer), peer := Some(BLANK_PEER), section := InPeer)
    case Entry(key, val) =>
      if st.section.InInterface? then
        st.(iface := SetInterface(st.iface, OptionOf(key, val)), sawPrivateKey := st.sawPrivateKey || key == PrivateKey)
      else st.(peer := Some(SetPeer(st.peer.value, PeerOptionOf(key, val))))
    case _ => st
  }

  lemma {:induction false} StepIsAfter(st: State, line: Line)
    requires st.section.InPeer? ==> st.peer.Some?
    requires Refusal(st.section, line).None?
    ensures Step(st, DirectiveOf(line)) == Ok(After(st, line))
  {
    if line.Entry? {
      if OfInterface(line.key) {
        InterfaceAsks(line.key, line.val);
      } else {
        PeerAsks(line.key, line.val);
      }
    }
  }

  // ----- One option -----

  lemma {:induction false} TextsAfter(i: Interface, o: InterfaceOption, k: TextKey)
    ensures SetInterface(i, o).Text(k) == if o.SetText? && o.textKey == k then o.text else i.Text(k)
  {
  }

  lemma {:induction false} NumbersAfter(i: Interface, o: InterfaceOption, k: NumberKey)
    ensures SetInterface(i, o).Number(k) == if o.SetNumber? && o.numberKey == k then o.number else i.Number(k)
  {
  }

  function PacketOf(i: Interface, k: PacketKey): (v: string) {
    if k in i.iPackets then i.iPackets[k] else ""
  }

  lemma {:induction false} PacketsAfter(i: Interface, o: InterfaceOption, k: PacketKey)
    ensures PacketOf(SetInterface(i, o), k) == if o.SetPacket? && o.packetKey == k && o.packet != "" then o.packet else PacketOf(i, k)
  {
  }

  // The kind of option that an entry sets.
  lemma {:induction false} OptionIs(key: OptionKey, val: string)
    requires OfInterface(key) && Takes(key, val)
    ensures
      var o := OptionOf(key, val);
      && (key.Text? <==> o.SetText?) && (key.Text? ==> o == SetText(key.text, val))
      && (key.Number? <==> o.SetNumber?) && (key.Number? ==> o == SetNumber(key.number, NumberOr(Some(val), 0)))
      && (key.Packet? <==> o.SetPacket?) && (key.Packet? ==> o == SetPacket(key.packet, val))
      && (key == Mtu <==> o.SetMtu?) && (key == Mtu ==> o.mtu == NumberOr(Some(val), 0))
      && (key == Table <==> o.SetTableOff?) && (key == Table ==> (o.off <==> val == "off"))
  {
  }

  lemma {:induction false} KeyOptionIs(key: OptionKey, val: string)
    requires OfInterface(key) && Takes(key, val)
    ensures
      var o := OptionOf(key, val);
      && (key == PrivateKey <==> o.SetPrivateKey?) && (key == PrivateKey ==> o.key == KeyOr(Some(val)))
      && (key == HeaderProtectionKey <==> o.SetHeaderProtectionKey?)
      && (key == HeaderProtectionKey ==> o.key == if val == "" then ZERO_KEY else KeyOr(Some(val)))
      && (key == Address <==> o.AddAddresses?) && (key == Address ==> ParseCidrList(val) == Ok(o.addresses))
      && (key == Dns <==> o.AddDns?)
      && (key == Dns ==> ListItems(val).Some? && o == AddDns(DnsServers(ListItems(val).value), DnsDomains(ListItems(val).value)))
  {
  }

  // ----- The state the lines lead to -----

  // The lines are all read, and lead to this state.
  predicate LeadsTo(lines: seq<Line>, st: State) {
    Run(INITIAL, Directives(lines)) == Ok(st)
  }

  // The state before the last line.
  lemma {:induction false} Before(lines: seq<Line>, st: State) returns (before: State)
    requires lines != [] && LeadsTo(lines, st)
    ensures LeadsTo(lines[..|lines| - 1], before) && (before.section.InPeer? ==> before.peer.Some?)
    ensures Refusal(before.section, lines[|lines| - 1]).None? && st == After(before, lines[|lines| - 1])
  {
    var front, line := lines[..|lines| - 1], lines[|lines| - 1];
    RunSnoc(lines);
    before := Run(INITIAL, Directives(front)).value;
    PeerIsOpen(front);
    StepRefusal(before, line);
    StepIsAfter(before, line);
  }

  lemma {:induction false} NothingRead(st: State)
    requires LeadsTo([], st)
    ensures st == INITIAL
  {
    assert Directives([]) == [];
  }

  // The servers among the entries, and the search domains.
  predicate DnsSaid(i: Interface, items: seq<string>) {
    i.dns == DnsServers(items) && i.dnsSearch == DnsDomains(items)
  }

  // An interface that every option of these lines was given to, the last of its
  // kind winning, and the lists in order.
  ghost predicate Says(lines: seq<Line>, i: Interface) {
    && (forall k :: i.Text(k) == TextOr(LastVal(lines, Parser.Text(k))))
    && (forall k :: i.Number(k) == NumberOr(LastVal(lines, Number(k)), 0))
    && (forall k :: PacketOf(i, k) == TextOr(LastFull(lines, Packet(k))))
    && i.mtu == NumberOr(LastVal(lines, Mtu), DEFAULT_MTU)
    && (i.tableOff <==> LastVal(lines, Table) == Some("off"))
    && i.privateKey == KeyOr(LastVal(lines, PrivateKey))
    && i.headerProtectionKey == HeaderKeyOr(LastVal(lines, HeaderProtectionKey))
    && i.addresses == PrefixesIn(lines, Address)
    && DnsSaid(i, DnsIn(lines))
  }

  // An empty header protection key is none.
  function HeaderKeyOr(val: Option<string>): (k: Key) {
    if val == Some("") then ZERO_KEY else KeyOr(val)
  }

  lemma {:induction false} BlankSays()
    ensures Says([], BLANK_INTERFACE)
  {
  }

  function OneServer(x: string): (ips: seq<IP>) {
    match ParseIP(x) case Some(ip) => [ip] case None => []
  }

  function OneDomain(x: string): (domains: seq<string>) {
    if ParseIP(x).None? then [x] else []
  }

  lemma {:induction false} DnsGathered(items: seq<string>)
    ensures DnsServers(items) == Gather(OneServer, items) && DnsDomains(items) == Gather(OneDomain, items)
  {
    if items != [] {
      DnsGathered(items[1..]);
      assert [] + DnsServers(items[1..]) == DnsServers(items[1..]) && [] + DnsDomains(items[1..]) == DnsDomains(items[1..]);
    }
  }

  lemma {:induction false} DnsAppend(a: seq<string>, b: seq<string>)
    ensures DnsServers(a + b) == DnsServers(a) + DnsServers(b)
    ensures DnsDomains(a + b) == DnsDomains(a) + DnsDomains(b)
  {
    DnsGathered(a);
    DnsGathered(b);
    DnsGathered(a + b);
    GatherAppend(OneServer, a, b);
    GatherAppend(OneDomain, a, b);
  }

  lemma {:induction false} LastSnoc(lines: seq<Line>, line: Line, key: OptionKey)
    ensures LastVal(lines + [line], key) == if line.Entry? && line.key == key then Some(line.val) else LastVal(lines, key)
    ensures LastFull(lines + [line], key) ==
      if line.Entry? && line.key == key && line.val != "" then Some(line.val) else LastFull(lines, key)
  {
    assert (lines + [line])[..|lines|] == lines;
  }

  lemma {:induction false} ListsSnoc(lines: seq<Line>, line: Line, key: OptionKey)
    ensures PrefixesIn(lines + [line], key) ==
      if line.Entry? && line.key == key && ParseCidrList(line.val).Ok? then PrefixesIn(lines, key) + ParseCidrList(line.val).value
      else PrefixesIn(lines, key)
    ensures DnsIn(lines + [line]) ==
      if line.Entry? && line.key == Dns && ListItems(line.val).Some? then DnsIn(lines) + ListItems(line.val).value
      else DnsIn(lines)
  {
    assert (lines + [line])[..|lines|] == lines;
  }

  // The same values for every option of the interface.
  ghost predicate SameValues(a: seq<Line>, b: seq<Line>) {
    && (forall key :: OfInterface(key) ==> LastVal(a, key) == LastVal(b, key))
    && (forall key :: OfInterface(key) ==> LastFull(a, key) == LastFull(b, key))
    && PrefixesIn(a, Address) == PrefixesIn(b, Address) && DnsIn(a) == DnsIn(b)
  }

  lemma {:induction false} SaysSame(a: seq<Line>, b: seq<Line>, i: Interface)
    requires Says(a, i) && SameValues(a, b)
    ensures Says(b, i)
  {
    forall k ensures i.Text(k) == TextOr(LastVal(b, Parser.Text(k))) {
      assert OfInterface(Parser.Text(k));
    }
    forall k ensures i.Number(k) == NumberOr(LastVal(b, Number(k)), 0) {
      assert OfInterface(Number(k));
    }
    forall k ensures PacketOf(i, k) == TextOr(LastFull(b, Packet(k))) {
      assert OfInterface(Packet(k));
    }
    assert OfInterface(Mtu) && OfInterface(Table) && OfInterface(PrivateKey) && OfInterface(HeaderProtectionKey);
  }

  // A line that is none of the interface's options changes nothing in it.
  lemma {:induction false} StillSame(lines: seq<Line>, line: Line)
    requires line.Entry? ==> !OfInterface(line.key)
    ensures SameValues(lines, lines + [line])
  {
    forall key | OfInterface(key)
      ensures LastVal(lines + [line], key) == LastVal(lines, key) && LastFull(lines + [line], key) == LastFull(lines, key)
    {
      LastSnoc(lines, line, key);
    }
    ListsSnoc(lines, line, Address);
  }

  lemma {:induction false} SaysTables(lines: seq<Line>, key: OptionKey, val: string, i: Interface)
    requires Says(lines, i) && OfInterface(key) && Takes(key, val)
    ensures
      var all, j := lines + [Entry(key, val)], SetInterface(i, OptionOf(key, val));
      && (forall k :: j.Text(k) == TextOr(LastVal(all, Parser.Text(k))))
      && (forall k :: j.Number(k) == NumberOr(LastVal(all, Number(k)), 0))
      && (forall k :: PacketOf(j, k) == TextOr(LastFull(all, Packet(k))))
  {
    var all, o := lines + [Entry(key, val)], OptionOf(key, val);
    var j := SetInterface(i, o);
    OptionIs(key, val);
    forall k
      ensures j.Text(k) == TextOr(LastVal(all, Parser.Text(k)))
    {
      TextsAfter(i, o, k);
      LastSnoc(lines, Entry(key, val), Parser.Text(k));
    }
    forall k
      ensures j.Number(k) == NumberOr(LastVal(all, Number(k)), 0)
    {
      NumbersAfter(i, o, k);
      LastSnoc(lines, Entry(key, val), Number(k));
    }
    forall k
      ensures PacketOf(j, k) == TextOr(LastFull(all, Packet(k)))
    {
      PacketsAfter(i, o, k);
      LastSnoc(lines, Entry(key, val), Packet(k));
    }
  }

  lemma {:induction false} SaysSingle(lines: seq<Line>, key: OptionKey, val: string, i: Interface)
    requires Says(lines, i) && OfInterface(key) && Takes(key, val)
    ensures
      var all, j := lines + [Entry(key, val)], SetInterface(i, OptionOf(key, val));
      && j.mtu == NumberOr(LastVal(all, Mtu), DEFAULT_MTU)
      && (j.tableOff <==> LastVal(all, Table) == Some("off"))
      && j.privateKey == KeyOr(LastVal(all, PrivateKey))
      && j.headerProtectionKey == HeaderKeyOr(LastVal(all, HeaderProtectionKey))
  {
    OptionIs(key, val);
    KeyOptionIs(key, val);
    LastSnoc(lines, Entry(key, val), Mtu);
    LastSnoc(lines, Entry(key, val), Table);
    LastSnoc(lines, Entry(key, val), PrivateKey);
    LastSnoc(lines, Entry(key, val), HeaderProtectionKey);
  }

  lemma {:induction false} PrefixesGrow(lines: seq<Line>, key: OptionKey, val: string)
    requires OfInterface(key) && Takes(key, val)
    ensures
      var o, before := OptionOf(key, val), PrefixesIn(lines, Address);
      PrefixesIn(lines + [Entry(key, val)], Address) == if o.AddAddresses? then before + o.addresses else before
  {
    KeyOptionIs(key, val);
    ListsSnoc(lines, Entry(key, val), Address);
  }

  lemma {:induction false} AddressesAfter(i: Interface, o: InterfaceOption, after: seq<IPCidr>)
    requires after == if o.AddAddresses? then i.addresses + o.addresses else i.addresses
    ensures SetInterface(i, o).addresses == after
  {
  }

  // The entries that a DNS line adds, if it is one.
  lemma {:induction false} DnsGrow(lines: seq<Line>, key: OptionKey, val: string) returns (items: seq<string>)
    requires OfInterface(key) && Takes(key, val)
    ensures DnsIn(lines + [Entry(key, val)]) == if OptionOf(key, val).AddDns? then DnsIn(lines) + items else DnsIn(lines)
    ensures OptionOf(key, val).AddDns? ==> OptionOf(key, val) == AddDns(DnsServers(items), DnsDomains(items))
  {
    KeyOptionIs(key, val);
    ListsSnoc(lines, Entry(key, val), Dns);
    items := if key == Dns then ListItems(val).value else [];
  }

  lemma {:induction false} DnsAfter(i: Interface, o: InterfaceOption, before: seq<string>, items: seq<string>, after: seq<string>)
    requires DnsSaid(i, before)
    requires after == if o.AddDns? then before + items else before
    requires o.AddDns? ==> o == AddDns(DnsServers(items), DnsDomains(items))
    ensures DnsSaid(SetInterface(i, o), after)
  {
    if o.AddDns? {
      DnsAppend(before, items);
    }
  }

  lemma {:induction false} SaysLists(lines: seq<Line>, key: OptionKey, val: string, i: Interface)
    requires i.addresses == PrefixesIn(lines, Address) && DnsSaid(i, DnsIn(lines))
    requires OfInterface(key) && Takes(key, val)
    ensures
      var all, j := lines + [Entry(key, val)], SetInterface(i, OptionOf(key, val));
      j.addresses == PrefixesIn(all, Address) && DnsSaid(j, DnsIn(all))
  {
    var all, o := lines + [Entry(key, val)], OptionOf(key, val);
    PrefixesGrow(lines, key, val);
    AddressesAfter(i, o, PrefixesIn(all, Address));
    var items := DnsGrow(lines, key, val);
    DnsAfter(i, o, DnsIn(lines), items, DnsIn(all));
  }

  lemma {:induction false} SaysEntry(lines: seq<Line>, key: OptionKey, val: string, i: Interface)
    requires Says(lines, i) && OfInterface(key) && Takes(key, val)
    ensures Says(lines + [Entry(key, val)], SetInterface(i, OptionOf(key, val)))
  {
    SaysTables(lines, key, val, i);
    SaysSingle(lines, key, val, i);
    SaysLists(lines, key, val, i);
  }

  lemma {:induction false} AfterLine(st: State, line: Line)
    requires (st.section.InPeer? ==> st.peer.Some?) && Refusal(st.section, line).None?
    ensures
      var r := After(st, line);
      && (line.Entry? && OfInterface(line.key) ==> Takes(line.key, line.val) && r.iface == SetInterface(st.iface, OptionOf(line.key, line.val)))
      && (!(line.Entry? && OfInterface(line.key)) ==> r.iface == st.iface)
      && (r.sawPrivateKey <==> st.sawPrivateKey || (line.Entry? && line.key == PrivateKey))
      && (line.Entry? && OfPeer(line.key) ==>
            Takes(line.key, line.val) && st.peer.Some? && r.peer == Some(SetPeer(st.peer.value, PeerOptionOf(line.key, line.val))))
      && (!(line.Entry? && OfPeer(line.key)) ==> r.peer == if line.PeerHeader? then Some(BLANK_PEER) else st.peer)
      && r.peers == if Header(line) then AddPeer(st.peers, st.peer) else st.peers
  {
  }

  // The interface of the state is the one the lines say.
  lemma {:induction false} InterfaceSaid(lines: seq<Line>, st: State)
    requires LeadsTo(lines, st)
    ensures Says(lines, st.iface)
    ensures st.sawPrivateKey <==> HasEntry(lines, PrivateKey)
  {
    if lines == [] {
      NothingRead(st);
      BlankSays();
    } else {
      var front, line := lines[..|lines| - 1], lines[|lines| - 1];
      var before := Before(lines, st);
      InterfaceSaid(front, before);
      SaidAfter(front, line, before);
      assert front + [line] == lines;
    }
  }

  lemma {:induction false} SaidAfter(front: seq<Line>, line: Line, before: State)
    requires (before.section.InPeer? ==> before.peer.Some?) && Refusal(before.section, line).None?
    requires Says(front, before.iface) && (before.sawPrivateKey <==> HasEntry(front, PrivateKey))
    ensures Says(front + [line], After(before, line).iface)
    ensures After(before, line).sawPrivateKey <==> HasEntry(front + [line], PrivateKey)
  {
    AfterLine(before, line);
    InterfaceStep(front, line, before.iface, After(before, line).iface);
  }

  lemma {:induction false} InterfaceStep(front: seq<Line>, line: Line, i: Interface, j: Interface)
    requires Says(front, i)
    requires line.Entry? && OfInterface(line.key) ==> Takes(line.key, line.val) && j == SetInterface(i, OptionOf(line.key, line.val))
    requires !(line.Entry? && OfInterface(line.key)) ==> i == j
    ensures Says(front + [line], j)
    ensures HasEntry(front + [line], PrivateKey) <==> HasEntry(front, PrivateKey) || (line.Entry? && line.key == PrivateKey)
  {
    LastSnoc(front, line, PrivateKey);
    if line.Entry? && OfInterface(line.key) {
      SaysEntry(front, line.key, line.val, i);
    } else {
      StillSame(front, line);
      SaysSame(front, front + [line], i);
    }
  }

  // ----- The peers -----

  function EndpointOr(val: Option<string>): (e: Endpoint) {
    if val.Some? && ParseEndpoint(val.value).Some? then ParseEndpoint(val.value).value else NO_ENDPOINT
  }

  function KeepaliveOr(val: Option<string>): (k: string) {
    if val == Some("off") || val == Some("(off)") then "0" else TextOr(val)
  }

  // The peer of the lines behind its header.
  function PeerOf(block: seq<Line>): (p: Peer) {
    Peer(KeyOr(LastVal(block, PublicKey)), KeyOr(LastVal(block, PresharedKey)), PrefixesIn(block, AllowedIPs),
      EndpointOr(LastVal(block, PeerEndpoint)), KeepaliveOr(LastVal(block, PersistentKeepalive)))
  }

  // The lines behind the last peer header.
  function Block(lines: seq<Line>): (block: Option<seq<Line>>) {
    if lines == [] then None
    else if lines[|lines| - 1].PeerHeader? then Some([])
    else
      match Block(lines[..|lines| - 1])
      case None => None
      case Some(block) => Some(block + [lines[|lines| - 1]])
  }

  function Current(lines: seq<Line>): (p: Option<Peer>) {
    match Block(lines) case None => None case Some(block) => Some(PeerOf(block))
  }

  predicate Header(line: Line) {
    line.InterfaceHeader? || line.PeerHeader?
  }

  // Every header, of either kind, adds the peer it finds open.
  function Closed(lines: seq<Line>): (ps: seq<Peer>) {
    if lines == [] then []
    else
      var front := lines[..|lines| - 1];
      if Header(lines[|lines| - 1]) then AddPeer(Closed(front), Current(front)) else Closed(front)
  }

  // And so does the end of the text.
  function PeersOf(lines: seq<Line>): (ps: seq<Peer>) {
    AddPeer(Closed(lines), Current(lines))
  }

  lemma {:induction false} PeerOptionIs(key: OptionKey, val: string)
    requires OfPeer(key) && Takes(key, val)
    ensures
      var o := PeerOptionOf(key, val);
      && (key == PublicKey ==> o == SetPublicKey(KeyOr(Some(val))))
      && (key == PresharedKey ==> o == SetPresharedKey(KeyOr(Some(val))))
      && (key == AllowedIPs ==> o.AddAllowedIPs? && ParseCidrList(val) == Ok(o.allowedIPs))
      && (key == PersistentKeepalive ==> o == SetKeepalive(KeepaliveOr(Some(val))))
      && (key == PeerEndpoint ==> o == SetEndpoint(EndpointOr(Some(val))))
  {
  }

  lemma {:induction false} PeerSnoc(block: seq<Line>, key: OptionKey, val: string)
    requires OfPeer(key) && Takes(key, val)
    ensures PeerOf(block + [Entry(key, val)]) == SetPeer(PeerOf(block), PeerOptionOf(key, val))
  {
    PeerOptionIs(key, val);
    LastSnoc(block, Entry(key, val), PublicKey);
    LastSnoc(block, Entry(key, val), PresharedKey);
    LastSnoc(block, Entry(key, val), PersistentKeepalive);
    LastSnoc(block, Entry(key, val), PeerEndpoint);
    ListsSnoc(block, Entry(key, val), AllowedIPs);
  }

  lemma {:induction false} PeerStill(block: seq<Line>, line: Line)
    requires line.Entry? ==> !OfPeer(line.key)
    ensures PeerOf(block + [line]) == PeerOf(block)
  {
    LastSnoc(block, line, PublicKey);
    LastSnoc(block, line, PresharedKey);
    LastSnoc(block, line, PersistentKeepalive);
    LastSnoc(block, line, PeerEndpoint);
    ListsSnoc(block, line, AllowedIPs);
  }

  lemma {:induction false} PeersSaid(lines: seq<Line>, st: State)
    requires LeadsTo(lines, st)
    ensures st.peers == Closed(lines) && st.peer == Current(lines)
  {
    if lines == [] {
      NothingRead(st);
    } else {
      var front, line := lines[..|lines| - 1], lines[|lines| - 1];
      var before := Before(lines, st);
      AfterLine(before, line);
      PeersSaid(front, before);
      if Block(front).Some? && !line.PeerHeader? {
        if line.Entry? && OfPeer(line.key) {
          PeerSnoc(Block(front).value, line.key, line.val);
        } else {
          PeerStill(Block(front).value, line);
        }
      }
    }
  }

  // ----- The meaning of a text -----

  function LinesOf(text: string): (lines: seq<Line>) {
    ClassifyAll(Split(text, '\n'))
  }

  lemma {:induction false} FinishSaid(name: string, lines: seq<Line>, st: State)
    requires LeadsTo(lines, st)
    ensures
      match Finish(name, st)
      case Ok(c) => c.name == name && Says(lines, c.iface) && c.peers == PeersOf(lines) && HasEntry(lines, PrivateKey) && AllPublicKeys(PeersOf(lines))
      case Err(e) =>
        || (e == NoPrivateKey && !HasEntry(lines, PrivateKey))
        || (e == NoPublicKey && HasEntry(lines, PrivateKey) && !AllPublicKeys(PeersOf(lines)))
  {
    InterfaceSaid(lines, st);
    PeersSaid(lines, st);
  }

  // In an accepted text every line fits, and the config is what the lines say.
  lemma {:induction false} ParsedMeans(text: string, name: string)
    requires Parse(text, name).Ok?
    ensures
      var c := Parse(text, name).value;
      c.name == name && Says(LinesOf(text), c.iface) && c.peers == PeersOf(LinesOf(text))
  {
    var lines := LinesOf(text);
    RunRefused(lines);
    var st := Run(INITIAL, Directives(lines)).value;
    FinishSaid(name, lines, st);
  }

  // There is a line that is refused with this error, and all before it fit.
  ghost predicate FirstRefusal(lines: seq<Line>, e: ParseError) {
    exists i: nat :: RefusedAt(lines, i, e)
  }

  lemma {:induction false} RefusalStops(lines: seq<Line>, e: ParseError)
    ensures Run(INITIAL, Directives(lines)) == Err(e) <==> FirstRefusal(lines, e)
  {
    RunRefused(lines);
    if i: nat :| RefusedAt(lines, i, e) {
      assert !Fits(lines, i);
      var k: nat :| RefusedAt(lines, k, Run(INITIAL, Directives(lines)).error);
      RefusedOnce(lines, i, e, k, Run(INITIAL, Directives(lines)).error);
    }
  }

  // The verdict on any text and name: the first thing that is wrong, in the
  // order of the checks.
  lemma {:induction false} ParseVerdict(text: string, name: string)
    ensures
      var lines := LinesOf(text);
      var keyed := forall p :: p in PeersOf(lines) ==> p.publicKey != ZERO_KEY;
      match Parse(text, name)
      case Ok(_) => Names.ValidName(name) && AllFit(lines) && HasEntry(lines, PrivateKey) && keyed
      case Err(e) =>
        || (!Names.ValidName(name) && e == BadName)
        || (Names.ValidName(name) && FirstRefusal(lines, e))
        || (Names.ValidName(name) && AllFit(lines) && !HasEntry(lines, PrivateKey) && e == NoPrivateKey)
        || (Names.ValidName(name) && AllFit(lines) && HasEntry(lines, PrivateKey) && !keyed && e == NoPublicKey)
  {
    var lines := LinesOf(text);
    KeyedAll(PeersOf(lines));
    RunRefused(lines);
    match Run(INITIAL, Directives(lines))
    case Ok(st) => FinishSaid(name, lines, st);
    case Err(e) => RefusalStops(lines, e);
  }

  lemma {:induction false} KeyedAll(ps: seq<Peer>)
    ensures AllPublicKeys(ps) <==> forall p :: p in ps ==> p.publicKey != ZERO_KEY
  {
  }

  // ----- How many peers there are -----

  function PeerHeaders(lines: seq<Line>): (n: nat) {
    if lines == [] then 0
    else PeerHeaders(lines[..|lines| - 1]) + if lines[|lines| - 1].PeerHeader? then 1 else 0
  }

  // The interface headers that stand behind some peer header.
  function LateHeaders(lines: seq<Line>): (n: nat) {
    if lines == [] then 0
    else
      var front := lines[..|lines| - 1];
      LateHeaders(front) + if lines[|lines| - 1].InterfaceHeader? && PeerHeaders(front) > 0 then 1 else 0
  }

  lemma {:induction false} BlockOpen(lines: seq<Line>)
    ensures Block(lines).Some? <==> PeerHeaders(lines) > 0
  {
    if lines != [] {
      BlockOpen(lines[..|lines| - 1]);
    }
  }

  // A peer for every peer header, and one more, a copy of the peer that is still
  // open, for every interface header behind one.
  lemma {:induction false} PeerCount(lines: seq<Line>)
    ensures |PeersOf(lines)| == PeerHeaders(lines) + LateHeaders(lines)
  {
    if lines != [] {
      var front := lines[..|lines| - 1];
      PeerCount(front);
      BlockOpen(front);
    }
  }

  ghost predicate LateAt(lines: seq<Line>, i: nat, j: nat) {
    i < j < |lines| && lines[i].PeerHeader? && lines[j].InterfaceHeader?
  }

  lemma {:induction false} NoneLate(lines: seq<Line>)
    ensures PeerHeaders(lines) > 0 <==> exists i :: 0 <= i < |lines| && lines[i].PeerHeader?
    ensures LateHeaders(lines) > 0 <==> exists i: nat, j: nat :: LateAt(lines, i, j)
  {
    if lines != [] {
      var front, n := lines[..|lines| - 1], |lines| - 1;
      NoneLate(front);
      if i: nat, j: nat :| LateAt(front, i, j) {
        assert LateAt(lines, i, j);
      }
      if i :| 0 <= i < |front| && front[i].PeerHeader? {
        assert lines[i].PeerHeader?;
        assert lines[n].InterfaceHeader? ==> LateAt(lines, i, n);
      }
      if i: nat, j: nat :| LateAt(lines, i, j) {
        assert j < n ==> LateAt(front, i, j);
        assert front[i].PeerHeader?;
      }
    }
  }

  // An accepted text has as many peers as peer headers exactly when no interface
  // header stands behind a peer header.
  lemma {:induction false} PeersOncePerHeader(text: string, name: string)
    requires Parse(text, name).Ok?
    ensures |Parse(text, name).value.peers| == PeerHeaders(LinesOf(text)) <==>
      forall i: nat, j: nat :: !LateAt(LinesOf(text), i, j)
  {
    ParsedMeans(text, name);
    PeerCount(LinesOf(text));
    NoneLate(LinesOf(text));
  }

  // An interface with a key, a peer, and the interface once more.
  function SplitLines(key: Key, peerKey: Key): (lines: seq<Line>) {
    [InterfaceHeader, Entry(PrivateKey, ShowKey(key)), PeerHeader, Entry(PublicKey, ShowKey(peerKey)), InterfaceHeader]
  }

  lemma {:induction false} SplitLinesAsk(key: Key, peerKey: Key)
    ensures LineText.LinesOk(SplitLines(key, peerKey))
    ensures Directives(SplitLines(key, peerKey) + [Blank]) ==
      [OpenInterface, ForInterface(SetPrivateKey(key)), OpenPeer, ForPeer(SetPublicKey(peerKey)), OpenInterface, Nothing]
  {
    Values.KeyValue(key);
    Values.KeyValue(peerKey);
    OddEndpoint.PrivateKeyAsks(ShowKey(key), key);
    OddEndpoint.PublicKeyAsks(ShowKey(peerKey), peerKey);
    OddEndpoint.FiveLines(Entry(PrivateKey, ShowKey(key)), Entry(PublicKey, ShowKey(peerKey)), InterfaceHeader,
      ForInterface(SetPrivateKey(key)), ForPeer(SetPublicKey(peerKey)), OpenInterface);
  }

  lemma {:induction false} SplitRead(key: Key, peerKey: Key, name: string)
    requires peerKey != ZERO_KEY
    ensures
      var peer := BLANK_PEER.(publicKey := peerKey);
      ParseDirectives([OpenInterface, ForInterface(SetPrivateKey(key)), OpenPeer, ForPeer(SetPublicKey(peerKey)), OpenInterface, Nothing], name)
        == Ok(Config(name, BLANK_INTERFACE.(privateKey := key), [peer, peer]))
  {
    var iface := BLANK_INTERFACE.(privateKey := key);
    var peer := BLANK_PEER.(publicKey := peerKey);
    var st1 := State(InInterface, iface, [], None, true);
    var st2 := State(InPeer, iface, [], Some(peer), true);
    var a, b, c := [OpenInterface, ForInterface(SetPrivateKey(key))], [OpenPeer, ForPeer(SetPublicKey(peerKey))], [OpenInterface, Nothing];
    assert [OpenInterface, ForInterface(SetPrivateKey(key)), OpenPeer, ForPeer(SetPublicKey(peerKey)), OpenInterface, Nothing] == a + (b + c);
    assert c == c + [];
    OddEndpoint.RunTwo(INITIAL, a[0], a[1], b + c);
    OddEndpoint.RunTwo(st1, b[0], b[1], c);
    OddEndpoint.RunTwo(st2, c[0], c[1], []);
    assert AddPeer([], Some(peer)) == [peer] && AddPeer([peer], Some(peer)) == [peer, peer];
  }

  // One peer header, and the same peer twice.
  lemma {:induction false} PeerTwice(key: Key, peerKey: Key, name: string)
    requires Names.ValidName(name) && peerKey != ZERO_KEY
    ensures
      var peer := BLANK_PEER.(publicKey := peerKey);
      Parse(LinesText(RenderAll(SplitLines(key, peerKey))), name) == Ok(Config(name, BLANK_INTERFACE.(privateKey := key), [peer, peer]))
  {
    SplitLinesAsk(key, peerKey);
    LineText.ClassifyRendered(SplitLines(key, peerKey));
    SplitRead(key, peerKey, name);
  }
}
