// Where the parser stops for good: a prefix length outside the family of its
// address gives neither a prefix nor an error, and the caller uses the prefix.
module PrefixLength {
  import opened Text
  import opened Decimal
  import opened Ip
  import opened Config
  import opened Parser
  import Names
  import LineText
  import Writer
  import Values

  // An address with an integer for a prefix length that its family does not have.
  predicate Overruns(item: string) {
    var i := IndexOf(item, '/');
    && i >= 0
    && ParseIP(item[..i]).Some? && Atoi(item[i + 1..]).Some?
    && !(0 <= Atoi(item[i + 1..]).value <= Bits(ParseIP(item[..i]).value))
  }

  lemma {:induction false} ItemIsNil(item: string)
    ensures ParseIPCidr(item) == Err(NilPrefix) <==> Overruns(item)
  {
    var i := IndexOf(item, '/');
    var addr := ParseIP(if i >= 0 then item[..i] else item);
    CidrIsNil(addr, if i >= 0 then item[i + 1..] else "");
  }

  lemma {:induction false} CidrIsNil(addr: Option<IP>, cidrStr: string)
    ensures CidrOf(addr, cidrStr) == Err(NilPrefix) <==>
      addr.Some? && Atoi(cidrStr).Some? && !(0 <= Atoi(cidrStr).value <= Bits(addr.value))
  {
  }

  // A list whose first entry that is no prefix overruns.
  predicate ItemsOverrun(items: seq<string>) {
    items != [] && (Overruns(items[0]) || (ParseIPCidr(items[0]).Ok? && ItemsOverrun(items[1..])))
  }

  predicate ListOverruns(val: string) {
    ListItems(val).Some? && ItemsOverrun(ListItems(val).value)
  }

  lemma {:induction false} ItemsAreNil(items: seq<string>)
    ensures ParseIPCidrs(items) == Err(NilPrefix) <==> ItemsOverrun(items)
  {
    if items != [] {
      ItemIsNil(items[0]);
      ItemsAreNil(items[1..]);
    }
  }

  lemma {:induction false} ListIsNil(val: string)
    ensures ParseCidrList(val) == Err(NilPrefix) <==> ListOverruns(val)
    ensures ListOverruns(val) ==> val != ""
  {
    if ListItems(val).Some? {
      ItemsAreNil(ListItems(val).value);
    }
    if val == "" {
      SplitSingle("", ',');
      assert Trim("") == "";
    }
  }

  // ----- Lines and texts -----

  // The section the lines end in.
  function SectionOf(lines: seq<Line>): (s: Section) {
    if lines == [] then NoSection
    else
      match lines[|lines| - 1]
      case InterfaceHeader => InInterface
      case PeerHeader => InPeer
      case _ => SectionOf(lines[..|lines| - 1])
  }

  // An Address line of an interface or an AllowedIPs line of a peer that overruns.
  predicate LineOverruns(s: Section, line: Line) {
    && line.Entry?
    && ((s.InInterface? && line.key == Address) || (s.InPeer? && line.key == AllowedIPs))
    && ListOverruns(line.val)
  }

  lemma {:induction false} OtherKeys(key: OptionKey, val: string)
    requires key != Address && key != AllowedIPs
    ensures !StopsSomewhere(EntryDirective(key, val))
  {
  }

  predicate StopsSomewhere(d: Directive) {
    d.NilInterfaceValue? || d.NilPeerValue? || d == Malformed(NilPrefix)
  }

  lemma {:induction false} ListDirectives(a: Result<seq<IPCidr>>)
    ensures InterfaceAddresses(a).NilInterfaceValue? <==> a == Err(NilPrefix)
    ensures PeerAllowedIPs(a).NilPeerValue? <==> a == Err(NilPrefix)
    ensures !InterfaceAddresses(a).NilPeerValue? && !PeerAllowedIPs(a).NilInterfaceValue?
    ensures !InterfaceAddresses(a).Malformed? && !PeerAllowedIPs(a).Malformed?
  {
  }

  lemma {:induction false} EntryIsNil(key: OptionKey, val: string)
    ensures EntryDirective(key, val).NilInterfaceValue? <==> key == Address && ListOverruns(val)
    ensures EntryDirective(key, val).NilPeerValue? <==> key == AllowedIPs && ListOverruns(val)
    ensures EntryDirective(key, val) != Malformed(NilPrefix)
  {
    if key == Address || key == AllowedIPs {
      ListIsNil(val);
      ListDirectives(ParseCidrList(val));
    } else {
      OtherKeys(key, val);
    }
  }

  lemma {:induction false} LineIsNil(line: Line)
    ensures DirectiveOf(line).NilInterfaceValue? <==> line.Entry? && line.key == Address && ListOverruns(line.val)
    ensures DirectiveOf(line).NilPeerValue? <==> line.Entry? && line.key == AllowedIPs && ListOverruns(line.val)
    ensures DirectiveOf(line) != Malformed(NilPrefix)
  {
    if line.Entry? {
      EntryIsNil(line.key, line.val);
      ListIsNil(line.val);
    }
  }

  lemma {:induction false} DirectiveIsNil(st: State, d: Directive)
    requires d != Malformed(NilPrefix)
    ensures Step(st, d) == Err(NilPrefix) <==>
      (d.NilInterfaceValue? && st.section.InInterface?) || (d.NilPeerValue? && st.section.InPeer?)
  {
  }

  lemma {:induction false} StepIsNil(st: State, line: Line)
    ensures Step(st, DirectiveOf(line)) == Err(NilPrefix) <==> LineOverruns(st.section, line)
  {
    LineIsNil(line);
    DirectiveIsNil(st, DirectiveOf(line));
  }

  // The parser gets through the lines before the i-th, and that one stops it.
  predicate StopsAt(lines: seq<Line>, i: nat) {
    && i < |lines|
    && Run(INITIAL, Directives(lines[..i])).Ok?
    && LineOverruns(SectionOf(lines[..i]), lines[i])
  }

  lemma {:induction false} RunSnoc(lines: seq<Line>)
    requires lines != []
    ensures
      var front := Run(INITIAL, Directives(lines[..|lines| - 1]));
      Run(INITIAL, Directives(lines)) == match front case Err(e) => Err(e) case Ok(st) => Step(st, DirectiveOf(lines[|lines| - 1]))
  {
    var front, last := lines[..|lines| - 1], lines[|lines| - 1];
    var d := DirectiveOf(last);
    assert Directives(lines) == Directives(front) + [d];
    RunAppend(INITIAL, Directives(front), [d]);
    if Run(INITIAL, Directives(front)).Ok? {
      var st := Run(INITIAL, Directives(front)).value;
      assert [d][1..] == [];
      match Step(st, d)
      case Err(_) =>
      case Ok(st') => assert Run(st', []) == Ok(st');
    }
  }

  lemma {:induction false} SectionOfRun(lines: seq<Line>)
    requires Run(INITIAL, Directives(lines)).Ok?
    ensures Run(INITIAL, Directives(lines)).value.section == SectionOf(lines)
  {
    if lines == [] {
      assert Directives(lines) == [];
    } else {
      RunSnoc(lines);
      SectionOfRun(lines[..|lines| - 1]);
      SectionStep(Run(INITIAL, Directives(lines[..|lines| - 1])).value, lines[|lines| - 1]);
    }
  }

  lemma {:induction false} SectionStep(st: State, line: Line)
    requires Step(st, DirectiveOf(line)).Ok?
    ensures Step(st, DirectiveOf(line)).value.section ==
      match line case InterfaceHeader => InInterface case PeerHeader => InPeer case _ => st.section
  {
  }

  // Some line stops the parser.
  predicate Stops(lines: seq<Line>) {
    lines != [] && (Stops(lines[..|lines| - 1]) || StopsAt(lines, |lines| - 1))
  }

  lemma {:induction false} StopsAtFront(lines: seq<Line>, n: nat)
    requires n < |lines|
    ensures StopsAt(lines[..n + 1], n) <==> StopsAt(lines, n)
  {
    var some := lines[..n + 1];
    assert some[..n] == lines[..n] && some[n] == lines[n];
  }

  ghost predicate HoldsBelow(p: nat -> bool, n: nat) {
    exists i: nat :: i < n && p(i)
  }

  lemma {:induction false} BelowStep(p: nat -> bool, n: nat)
    ensures HoldsBelow(p, n + 1) <==> HoldsBelow(p, n) || p(n)
  {
  }

  lemma {:induction false} StopsUpTo(lines: seq<Line>, p: nat -> bool, n: nat)
    requires n <= |lines| && forall i: nat :: p(i) <==> StopsAt(lines, i)
    ensures Stops(lines[..n]) <==> HoldsBelow(p, n)
  {
    if n > 0 {
      StopsUpTo(lines, p, n - 1);
      StopsAtFront(lines, n - 1);
      assert lines[..n][..n - 1] == lines[..n - 1];
      BelowStep(p, n - 1);
    }
  }

  // There is a line at which the parser stops.
  ghost predicate SomeLineStops(lines: seq<Line>) {
    HoldsBelow((i: nat) => StopsAt(lines, i), |lines|)
  }

  lemma {:induction false} StopsSomeLine(lines: seq<Line>)
    ensures Stops(lines) <==> SomeLineStops(lines)
  {
    StopsUpTo(lines, (i: nat) => StopsAt(lines, i), |lines|);
    assert lines[..|lines|] == lines;
  }

  lemma {:induction false} RunIsNil(lines: seq<Line>)
    ensures Run(INITIAL, Directives(lines)) == Err(NilPrefix) <==> Stops(lines)
  {
    if lines == [] {
      assert Directives(lines) == [];
    } else {
      var front, n := lines[..|lines| - 1], |lines| - 1;
      RunIsNil(front);
      RunSnoc(lines);
      if Run(INITIAL, Directives(front)).Ok? {
        SectionOfRun(front);
        StepIsNil(Run(INITIAL, Directives(front)).value, lines[n]);
      }
    }
  }

  lemma {:induction false} ReadingStops(ds: seq<Directive>, name: string)
    ensures ParseDirectives(ds, name) == Err(NilPrefix) <==> Run(INITIAL, ds) == Err(NilPrefix)
  {
  }

  lemma {:induction false} LinesStop(lines: seq<Line>, name: string)
    ensures ParseDirectives(Directives(lines), name) == Err(NilPrefix) <==> SomeLineStops(lines)
  {
    RunIsNil(lines);
    StopsSomeLine(lines);
    ReadingStops(Directives(lines), name);
  }

  // The texts at which the parser stops for good: exactly those with a line
  // that overruns in its section and nothing wrong before it.
  lemma {:induction false} ParseStops(text: string, name: string)
    ensures Parse(text, name) == Err(NilPrefix) <==> Names.ValidName(name) && SomeLineStops(ClassifyAll(Split(text, '\n')))
  {
    LinesStop(ClassifyAll(Split(text, '\n')), name);
  }

  // ----- Inputs that stop it -----

  // The text of an interface with this address line.
  function AddressLines(item: string): (lines: seq<Line>) {
    [InterfaceHeader, Entry(Address, item)]
  }

  function AddressText(item: string): (text: string) {
    LinesText(Writer.RenderAll(AddressLines(item)))
  }

  function PrefixText(ip: IP, n: nat): (item: string) {
    Show(ip) + ['/'] + Itoa(n)
  }

  lemma {:induction false} OverrunItem(ip: IP, n: nat)
    requires Bits(ip) < n <= MAX_INT64
    ensures ValueText(PrefixText(ip, n)) && ListOverruns(PrefixText(ip, n))
  {
    var item := PrefixText(ip, n);
    ShowIsAddressText(ip);
    Values.CidrItem(Show(ip), Itoa(n));
    ParseShow(ip);
    AtoiOfItoa(n);
    ItemIsNil(item);
    OneItem(item);
  }

  lemma {:induction false} OneItem(item: string)
    requires Values.PlainItem(item) && Overruns(item)
    ensures ValueText(item) && ListOverruns(item)
  {
    Values.ListValue([item]);
    assert JoinComma([item]) == item && [item][0] == item;
  }

  lemma {:induction false} AddressTextStops(item: string, name: string)
    requires ValueText(item) && ListOverruns(item) && Names.ValidName(name)
    ensures Parse(AddressText(item), name) == Err(NilPrefix)
  {
    AddressLinesOk(item);
    StopsAtSecond(AddressLines(item) + [Blank]);
    RenderedStops(AddressLines(item), name);
  }

  lemma {:induction false} AddressLinesOk(item: string)
    requires ValueText(item)
    ensures LineText.LinesOk(AddressLines(item))
  {
  }

  lemma {:induction false} RenderedStops(lines: seq<Line>, name: string)
    requires LineText.LinesOk(lines) && SomeLineStops(lines + [Blank]) && Names.ValidName(name)
    ensures Parse(LinesText(Writer.RenderAll(lines)), name) == Err(NilPrefix)
  {
    LineText.ClassifyRendered(lines);
    TextStops(LinesText(Writer.RenderAll(lines)), lines + [Blank], name);
  }

  // Whatever the address, a longer prefix than its family has stops the parser:
  // 10.0.0.1/33, for one.
  lemma {:induction false} OverrunStops(ip: IP, n: nat, name: string)
    requires Bits(ip) < n <= MAX_INT64 && Names.ValidName(name)
    ensures Parse(AddressText(PrefixText(ip, n)), name) == Err(NilPrefix)
  {
    OverrunItem(ip, n);
    AddressTextStops(PrefixText(ip, n), name);
  }

  lemma {:induction false} TextStops(text: string, lines: seq<Line>, name: string)
    requires ClassifyAll(Split(text, '\n')) == lines && SomeLineStops(lines) && Names.ValidName(name)
    ensures Parse(text, name) == Err(NilPrefix)
  {
    ParseStops(text, name);
  }

  lemma {:induction false} StopsAtSecond(lines: seq<Line>)
    requires |lines| >= 2 && lines[0] == InterfaceHeader
    requires lines[1].Entry? && lines[1].key == Address && ListOverruns(lines[1].val)
    ensures SomeLineStops(lines)
  {
    var front := lines[..1];
    assert front[..0] == [] && Directives([]) == [];
    RunSnoc(front);
    assert StopsAt(lines, 1);
    var p := (i: nat) => StopsAt(lines, i);
    assert p(1);
  }

  lemma {:induction false} TenSlashThirtyThree(name: string)
    requires Names.ValidName(name)
    ensures Parse(AddressText(PrefixText([10, 0, 0, 1], 33)), name) == Err(NilPrefix)
  {
    OverrunStops([10, 0, 0, 1], 33, name);
  }
}
