// The cheap "is this a chain hop" scan over raw text, and why it agrees with
// the parser on every text the parser accepts.
module HopScan {
  import opened Text
  import opened Config
  import opened Names
  import opened Parser
  import opened Writer
  import opened RoundTrip

  const PIN_KEY := "pinendpointvia"

  // The longest line bufio.Scanner returns; it stops at a longer one.
  const MAX_LINE := 65535

  // A line that makes the scan answer yes.
  predicate HopLine(line: string) {
    var t := Trim(line);
    && t != "" && t[0] != '#' && t[0] != ';'
    && var i := IndexOf(t, '=');
       && i > 0
       && Lower(Trim(t[..i])) == PIN_KEY
       && Trim(t[i + 1..]) != ""
  }

  // How many lines the scanner gets through.
  function Scanned(lines: seq<string>): (n: nat)
    ensures n <= |lines|
    ensures n < |lines| ==> |lines[n]| > MAX_LINE
    ensures forall i :: 0 <= i < n ==> |lines[i]| <= MAX_LINE
  {
    if lines == [] || |lines[0]| > MAX_LINE then 0 else 1 + Scanned(lines[1..])
  }

  predicate ScanFinds(lines: seq<string>) {
    exists i :: 0 <= i < Scanned(lines) && HopLine(lines[i])
  }

  // textIsChainHop
  predicate IsHopText(text: string) {
    ScanFinds(Split(text, '\n'))
  }

  method TextIsChainHop(text: string) returns (hop: bool)
    ensures hop == IsHopText(text)
  {
    hop := ScanLines(Split(text, '\n'), HopLine);
  }

  // The loop of the scanner, up to the first line that passes the test.
  method ScanLines(lines: seq<string>, test: string -> bool) returns (hop: bool)
    ensures hop <==> exists i :: 0 <= i < Scanned(lines) && test(lines[i])
  {
    var n := 0;
    while n < |lines|
      invariant 0 <= n <= Scanned(lines)
      invariant forall i :: 0 <= i < n ==> !test(lines[i])
    {
      if |lines[n]| > MAX_LINE {
        return false;
      }
      if test(lines[n]) {
        return true;
      }
      n := n + 1;
    }
    hop := false;
  }

  // ----- one line: the scan against the parser -----

  lemma {:induction false} LowerTrimLeft(s: string)
    ensures TrimLeft(Lower(s)) == Lower(TrimLeft(s))
  {
    if s != [] && IsSpace(s[0]) {
      LowerTrimLeft(s[1..]);
      assert Lower(s)[1..] == Lower(s[1..]);
    }
  }

  lemma {:induction false} LowerTrimRight(s: string)
    ensures TrimRight(Lower(s)) == Lower(TrimRight(s))
  {
    var n := |s| - 1;
    if s != [] && IsSpace(s[n]) {
      LowerTrimRight(s[..n]);
      assert Lower(s)[..n] == Lower(s[..n]);
    }
  }

  lemma {:induction false} LowerTrim(s: string)
    ensures Trim(Lower(s)) == Lower(Trim(s))
  {
    LowerTrimLeft(s);
    LowerTrimRight(TrimLeft(s));
  }

  lemma {:induction false} TrimRightKeeps(a: string, c: char, b: string)
    requires !IsSpace(c)
    ensures TrimRight(a + [c] + b) == a + [c] + TrimRight(b)
  {
    var s := a + [c] + b;
    if b != [] && IsSpace(b[|b| - 1]) {
      TrimRightKeeps(a, c, b[..|b| - 1]);
      assert s[..|s| - 1] == a + [c] + b[..|b| - 1];
    } else if b == [] {
      assert s == a + [c];
    }
  }

  // A line whose key part is a: the white space in front goes, the key stays.
  lemma {:induction false} TrimKeyed(w: string, a: string, b: string)
    requires AllSpace(w) && a != "" && !IsSpace(a[0])
    ensures Trim(w + (a + ['='] + b)) == a + ['='] + TrimRight(b)
  {
    TrimLeftPad(w, a + ['='] + b);
    TrimRightKeeps(a, '=', b);
  }

  lemma {:induction false} TrimOfTrimRight(s: string)
    ensures Trim(TrimRight(s)) == Trim(s)
  {
    if s != [] && IsSpace(s[|s| - 1]) {
      var front, c := s[..|s| - 1], s[|s| - 1];
      assert "" + front + [c] == s && TrimRight(s) == TrimRight(front);
      TrimOfTrimRight(front);
      TrimPadded("", front, [c]);
    }
  }

  predicate KeyedLine(w: string, a: string, b: string) {
    AllSpace(w) && a != "" && !IsSpace(a[0]) && '=' !in a && '#' !in a
  }

  // The part of a value before a comment.
  function BeforeComment(b: string): string {
    var i := IndexOf(b, '#');
    if i < 0 then b else b[..i]
  }

  lemma {:induction false} StripKeyed(w: string, a: string, b: string)
    requires KeyedLine(w, a, b) && '#' !in w
    ensures Strip(w + (a + ['='] + b)) == a + ['='] + TrimRight(BeforeComment(b))
  {
    var line := w + (a + ['='] + b);
    IndexOfNone(b, '#');
    IndexOfNone(line, '#');
    if '#' in b {
      IndexOfFirst(b, '#');
      var i := IndexOf(b, '#');
      var front := w + (a + ['='] + b[..i]);
      assert b == b[..i] + ['#'] + b[i + 1..];
      assert line == front + ['#'] + b[i + 1..];
      IndexOfAt(front, '#', b[i + 1..]);
      assert line[..|front|] == front;
    }
    TrimKeyed(w, a, BeforeComment(b));
  }

  lemma {:induction false} ClassifyKeyed(a: string, c: string)
    requires a != "" && !IsSpace(a[0]) && '=' !in a
    ensures ClassifyStripped(a + ['='] + c) == Entry(KeyOf(Lower(Trim(a))), Trim(c))
  {
    var s := a + ['='] + c;
    IndexOfAt(a, '=', c);
    assert Lower(s)[..|a|] == Lower(a) && s[|a| + 1..] == c;
    LowerTrim(a);
    assert s[|a|] == '=' && Lower(s)[|a|] == '=';
    HeadersHaveNoEquals();
  }

  lemma {:induction false} HeadersHaveNoEquals()
    ensures '=' !in "[interface]" && '=' !in "[peer]"
  {
  }

  lemma {:induction false} PinKeyIs(key: string)
    ensures KeyOf(key) == Parser.Text(PinEndpointVia) <==> key == PIN_KEY
  {
  }

  // White space in front of a line, and the rest.
  lemma {:induction false} Leading(line: string) returns (w: string, rest: string)
    ensures line == w + rest && AllSpace(w) && '#' !in w && rest == TrimLeft(line)
  {
    var n := TrimLeftSuffix(line);
    w, rest := line[..n], line[n..];
  }

  lemma {:induction false} PinName(a: string)
    requires Lower(Trim(a)) == PIN_KEY
    ensures '#' !in a && a != ""
  {
    var w, rest := Leading(a);
    assert '#' !in PIN_KEY && PIN_KEY != "";
    LowerPlain(Trim(a), PIN_KEY);
    TrimRightRest(rest);
  }

  lemma {:induction false} LowerPlain(t: string, key: string)
    requires Lower(t) == key && '#' !in key && key != ""
    ensures '#' !in t && t != ""
  {
    forall i | 0 <= i < |t|
      ensures t[i] != '#'
    {
      assert LowerChar(t[i]) == key[i] && key[i] in key;
    }
  }

  lemma {:induction false} TrimRightRest(s: string)
    ensures '#' in s ==> '#' in TrimRight(s)
  {
    if s != [] && IsSpace(s[|s| - 1]) {
      TrimRightRest(s[..|s| - 1]);
      assert s == s[..|s| - 1] + [s[|s| - 1]];
    }
  }

  lemma {:induction false} TrimRightEnds(s: string)
    ensures |TrimRight(s)| <= |s| && s == TrimRight(s) + s[|TrimRight(s)|..]
  {
  }

  // A line that names the pin key: white space, the key, and what follows '='.
  predicate PinParts(line: string, w: string, a: string, b: string) {
    line == w + (a + ['='] + b) && KeyedLine(w, a, b) && '#' !in w && Lower(Trim(a)) == PIN_KEY
  }

  lemma {:induction false} HopLineParts(line: string) returns (w: string, a: string, b: string)
    requires HopLine(line)
    ensures PinParts(line, w, a, b)
  {
    var rest;
    w, rest := Leading(line);
    var t := Trim(line);
    var i := IndexOf(t, '=');
    IndexOfNone(t, '=');
    IndexOfFirst(t, '=');
    TrimRightEnds(rest);
    a := t[..i];
    b := t[i + 1..] + rest[|t|..];
    PinName(a);
    Rejoin(line, w, rest, t, i);
  }

  lemma {:induction false} Rejoin(line: string, w: string, rest: string, t: string, i: nat)
    requires i < |t| <= |rest| && line == w + rest && rest == t + rest[|t|..] && t[i] == '='
    ensures line == w + (t[..i] + ['='] + (t[i + 1..] + rest[|t|..]))
  {
    assert t == t[..i] + ['='] + t[i + 1..];
    var tail := rest[|t|..];
    assert t[..i] + ['='] + (t[i + 1..] + tail) == t[..i] + ['='] + t[i + 1..] + tail;
  }

  lemma {:induction false} PartsArePin(line: string, w: string, a: string, b: string)
    requires PinParts(line, w, a, b)
    ensures Classify(line) == Entry(Parser.Text(PinEndpointVia), Trim(BeforeComment(b)))
  {
    StripKeyed(w, a, b);
    var c := TrimRight(BeforeComment(b));
    TrimOfTrimRight(BeforeComment(b));
    ClassifyKeyed(a, c);
    PinKeyIs(Lower(Trim(a)));
  }

  lemma {:induction false} PartsAreHopLine(line: string, w: string, a: string, b: string)
    requires PinParts(line, w, a, b) && Trim(b) != ""
    ensures HopLine(line)
  {
    var v := TrimRight(b);
    TrimKeyed(w, a, b);
    IndexOfAt(a, '=', v);
    var t := a + ['='] + v;
    assert t[..|a|] == a && t[|a| + 1..] == v;
    TrimOfTrimRight(b);
    FirstOfPin(a);
  }

  lemma {:induction false} NonBlank(c: string, tail: string)
    requires Trim(c) != ""
    ensures Trim(c + tail) != ""
  {
    assert TrimLeft(c) != "";
    TrimLeftSnoc(c, tail);
    var l := TrimLeft(c);
    assert l + tail == [] + [l[0]] + (l[1..] + tail);
    TrimRightKeeps([], l[0], l[1..] + tail);
  }

  lemma {:induction false} FirstOfPin(a: string)
    requires Lower(Trim(a)) == PIN_KEY && a != "" && !IsSpace(a[0])
    ensures a[0] != ';' && a[0] != '#'
  {
    var t := Trim(a);
    TrimRightEnds(a);
    assert t[0] == a[0] && LowerChar(t[0]) == PIN_KEY[0];
  }

  // A line is its stripped text with white space in front and anything behind.
  lemma {:induction false} LineOfStrip(line: string) returns (w: string, tail: string)
    ensures line == w + (Strip(line) + tail) && AllSpace(w) && '#' !in w
  {
    var pound := IndexOf(line, '#');
    var body := if pound >= 0 then line[..pound] else line;
    var inner;
    w, inner := BodyOfTrim(body);
    tail := inner + line[|body|..];
    RejoinStripped(line, body, w, Strip(line), inner);
  }

  lemma {:induction false} BodyOfTrim(body: string) returns (w: string, tail: string)
    ensures body == w + (Trim(body) + tail) && AllSpace(w) && '#' !in w
  {
    var rest;
    w, rest := Leading(body);
    TrimRightEnds(rest);
    tail := rest[|TrimRight(rest)|..];
  }

  lemma {:induction false} RejoinStripped(line: string, body: string, w: string, s: string, inner: string)
    requires |body| <= |line| && body == line[..|body|] && body == w + (s + inner)
    ensures line == w + (s + (inner + line[|body|..]))
  {
    var rest := line[|body|..];
    assert line == body + rest;
    assert w + (s + (inner + rest)) == w + (s + inner) + rest;
  }

  lemma {:induction false} EntryHasEquals(s: string)
    ensures ClassifyStripped(s).Entry? ==> IndexOf(s, '=') >= 0
  {
  }

  lemma {:induction false} EntryParts(s: string) returns (a: string, c: string)
    requires IndexOf(s, '=') >= 0
    ensures s == a + ['='] + c && '=' !in a
  {
    var e := IndexOf(s, '=');
    IndexOfNone(s, '=');
    IndexOfFirst(s, '=');
    a, c := s[..e], s[e + 1..];
  }

  lemma {:induction false} NoKey(c: string)
    ensures ClassifyStripped(['='] + c) == Entry(Unknown, Trim(c))
  {
    var s := ['='] + c;
    assert s[1..] == c && Lower(s)[..0] == "" && Lower(s)[0] == '=';
    assert Trim("") == "";
  }

  predicate PinEntry(line: Line) {
    line.Entry? && line.key == Parser.Text(PinEndpointVia)
  }

  // A key and what follows '=', read as the pin key.
  predicate PinPair(s: string, a: string, c: string) {
    s == a + ['='] + c && '=' !in a && a != "" && !IsSpace(a[0]) && Lower(Trim(a)) == PIN_KEY
  }

  lemma {:induction false} PinKeyParts(s: string) returns (a: string, c: string)
    requires Trimmed(s)
    ensures PinEntry(ClassifyStripped(s)) ==> PinPair(s, a, c) && Trim(c) == ClassifyStripped(s).val
  {
    a, c := "", "";
    if PinEntry(ClassifyStripped(s)) {
      EntryHasEquals(s);
      a, c := EntryParts(s);
      if a == "" {
        assert s == ['='] + c;
        NoKey(c);
      }
      ClassifyKeyed(a, c);
      PinKeyIs(Lower(Trim(a)));
    }
  }

  // Where the scan answers yes the parser reads the pin key, and where the
  // parser reads the pin key with a value the scan answers yes.
  lemma {:induction false} HopLineAgrees(line: string)
    ensures HopLine(line) ==> PinEntry(Classify(line))
    ensures PinEntry(Classify(line)) && Classify(line).val != "" ==> HopLine(line)
  {
    if HopLine(line) {
      var w, a, b := HopLineParts(line);
      PartsArePin(line, w, a, b);
    }
    PinIsHopLine(line);
  }

  lemma {:induction false} PinIsHopLine(line: string)
    ensures PinEntry(Classify(line)) && Classify(line).val != "" ==> HopLine(line)
  {
    if PinEntry(Classify(line)) && Classify(line).val != "" {
      var w, tail := LineOfStrip(line);
      var a, c := PinKeyParts(Strip(line));
      PinName(a);
      Regroup(w, a, c, tail);
      NonBlank(c, tail);
      PartsAreHopLine(line, w, a, c + tail);
    }
  }

  lemma {:induction false} Regroup(w: string, a: string, c: string, tail: string)
    ensures w + (a + ['='] + c + tail) == w + (a + ['='] + (c + tail))
  {
  }

  // ----- the whole text -----

  predicate PinDirective(d: Directive) {
    d.ForInterface? && d.option.SetText? && d.option.textKey == PinEndpointVia
  }

  // In a run that succeeds, the pin is set exactly when some line sets it.
  lemma {:induction false} RunPin(st: State, ds: seq<Directive>)
    requires Run(st, ds).Ok?
    requires forall i :: 0 <= i < |ds| ==> PinDirective(ds[i]) ==> ds[i].option.text != ""
    ensures Run(st, ds).value.iface.Text(PinEndpointVia) != "" <==>
            st.iface.Text(PinEndpointVia) != "" || exists i :: 0 <= i < |ds| && PinDirective(ds[i])
    decreases |ds|
  {
    if ds != [] {
      var st1 := Step(st, ds[0]).value;
      RunPin(st1, ds[1..]);
      if exists i :: 0 <= i < |ds| && PinDirective(ds[i]) {
        var i :| 0 <= i < |ds| && PinDirective(ds[i]);
        assert i > 0 ==> ds[i] == ds[1..][i - 1];
      }
    }
  }

  lemma {:induction false} RunRejects(st: State, ds: seq<Directive>)
    requires Run(st, ds).Ok?
    ensures forall i :: 0 <= i < |ds| ==> !ds[i].Malformed?
    decreases |ds|
  {
    if ds != [] { RunRejects(Step(st, ds[0]).value, ds[1..]); }
  }

  lemma {:induction false} PinDirectiveOf(line: Line)
    ensures PinDirective(DirectiveOf(line)) <==> PinEntry(line) && line.val != ""
    ensures PinEntry(line) && line.val == "" ==> DirectiveOf(line).Malformed?
    ensures PinDirective(DirectiveOf(line)) ==> DirectiveOf(line).option.text == line.val
  {
  }

  predicate SomePin(ds: seq<Directive>) {
    exists i :: 0 <= i < |ds| && PinDirective(ds[i])
  }

  lemma {:induction false} ParsedPin(lines: seq<Line>, name: string)
    requires ParseDirectives(Directives(lines), name).Ok?
    ensures ParseDirectives(Directives(lines), name).value.iface.Text(PinEndpointVia) != "" <==> SomePin(Directives(lines))
    ensures forall i :: 0 <= i < |lines| ==> !(PinEntry(lines[i]) && lines[i].val == "")
  {
    var ds := Directives(lines);
    RunRejects(INITIAL, ds);
    forall i | 0 <= i < |lines|
      ensures PinDirective(ds[i]) ==> ds[i].option.text != ""
      ensures !(PinEntry(lines[i]) && lines[i].val == "")
    {
      PinDirectiveOf(lines[i]);
      assert ds[i] == DirectiveOf(lines[i]);
    }
    RunPin(INITIAL, ds);
  }

  predicate SomeHopLine(lines: seq<string>) {
    exists i :: 0 <= i < |lines| && HopLine(lines[i])
  }

  lemma {:induction false} AcceptedLines(lines: seq<string>, name: string)
    requires ParseDirectives(Directives(ClassifyAll(lines)), name).Ok?
    ensures ParseDirectives(Directives(ClassifyAll(lines)), name).value.iface.Text(PinEndpointVia) != "" <==>
            SomeHopLine(lines)
  {
    var ls := ClassifyAll(lines);
    ParsedPin(ls, name);
    forall i | 0 <= i < |lines| ensures HopLine(lines[i]) <==> PinDirective(DirectiveOf(ls[i])) {
      LineAgrees(lines[i], ls[i]);
    }
    HopLinesArePins(lines, Directives(ls));
  }

  lemma {:induction false} LineAgrees(text: string, line: Line)
    requires line == Classify(text) && !(PinEntry(line) && line.val == "")
    ensures HopLine(text) <==> PinDirective(DirectiveOf(line))
  {
    HopLineAgrees(text);
    PinDirectiveOf(line);
  }

  lemma {:induction false} HopLinesArePins(lines: seq<string>, ds: seq<Directive>)
    requires |lines| == |ds| && forall i :: 0 <= i < |lines| ==> (HopLine(lines[i]) <==> PinDirective(ds[i]))
    ensures SomePin(ds) <==> SomeHopLine(lines)
  {
    if SomePin(ds) {
      var i :| 0 <= i < |ds| && PinDirective(ds[i]);
      assert HopLine(lines[i]);
    }
    if SomeHopLine(lines) {
      var i :| 0 <= i < |lines| && HopLine(lines[i]);
      assert PinDirective(ds[i]);
    }
  }

  predicate LinesFit(lines: seq<string>) {
    forall i :: 0 <= i < |lines| ==> |lines[i]| <= MAX_LINE
  }

  // Line i lies within the buffer, and so does every line before it.
  predicate InReach(lines: seq<string>, i: nat) {
    i < |lines| && forall j :: 0 <= j <= i ==> |lines[j]| <= MAX_LINE
  }

  lemma {:induction false} ScannedIsReach(lines: seq<string>, i: nat)
    requires i < |lines|
    ensures i < Scanned(lines) <==> InReach(lines, i)
  {
    var n := Scanned(lines);
    if n <= i {
      assert |lines[n]| > MAX_LINE;
    }
  }

  // Some line names the pin, and every one that does is an overlong line or
  // stands behind one.
  predicate PinOutOfReach(lines: seq<string>) {
    SomeHopLine(lines) && forall i: nat :: i < |lines| && HopLine(lines[i]) ==> !InReach(lines, i)
  }

  // The scan agrees with the parser wherever the lines fit, and in general
  // unless the pin is out of reach: then, and only then, it misses a hop. It
  // never takes for a hop what is none.
  lemma {:induction false} ScanAgrees(text: string, name: string, c: Config)
    requires Parse(text, name) == Ok(c)
    ensures var lines := Split(text, '\n');
            && (LinesFit(lines) ==> (IsHopText(text) <==> c.iface.Text(PinEndpointVia) != ""))
            && (IsHopText(text) ==> c.iface.Text(PinEndpointVia) != "")
            && ((IsHopText(text) <==> c.iface.Text(PinEndpointVia) != "") <==> !PinOutOfReach(lines))
  {
    AcceptedText(text, name, c);
    ScanOfLines(Split(text, '\n'));
    ScanReaches(Split(text, '\n'), HopLine);
  }

  lemma {:induction false} ScanReaches(lines: seq<string>, test: string -> bool)
    ensures (exists i :: 0 <= i < Scanned(lines) && test(lines[i])) <==>
            (exists i: nat :: i < |lines| && test(lines[i]) && InReach(lines, i))
  {
    forall i: nat | i < |lines|
      ensures i < Scanned(lines) <==> InReach(lines, i)
    {
      ScannedIsReach(lines, i);
    }
  }

  lemma {:induction false} AcceptedText(text: string, name: string, c: Config)
    requires Parse(text, name) == Ok(c)
    ensures c.iface.Text(PinEndpointVia) != "" <==> SomeHopLine(Split(text, '\n'))
  {
    AcceptedLines(Split(text, '\n'), name);
  }

  lemma {:induction false} ScanOfLines(lines: seq<string>)
    ensures LinesFit(lines) ==> (ScanFinds(lines) <==> SomeHopLine(lines))
    ensures ScanFinds(lines) ==> SomeHopLine(lines)
  {
  }

  // An overlong comment in front of a hop's own printed text hides it from the
  // scan, and changes nothing for the parser.
  lemma {:induction false} OverlongCommentHidesHop(c: Config, order: seq<PacketKey>, comment: string)
    requires ValidName(c.name) && WellFormed(c) && VisitOrder(order, c.iface.iPackets)
    requires c.iface.Text(PinEndpointVia) != ""
    requires |comment| > MAX_LINE && comment[0] == '#' && '\n' !in comment
    ensures var text := comment + ['\n'] + Print(c, order);
            Parse(text, c.name) == Ok(c) && !IsHopText(text)
  {
    var rest := Print(c, order);
    var text := comment + ['\n'] + rest;
    SplitCons(comment, rest, '\n');
    assert Split(text, '\n')[0] == comment;
    PrintThenParse(c, order);
    CommentInFront(comment, rest, c.name);
  }

  lemma {:induction false} CommentIsBlank(line: string)
    requires line != "" && line[0] == '#'
    ensures Classify(line) == Blank
  {
    assert Trim("") == "";
  }

  lemma {:induction false} CommentInFront(comment: string, rest: string, name: string)
    requires comment != "" && comment[0] == '#' && '\n' !in comment
    ensures Parse(comment + ['\n'] + rest, name) == Parse(rest, name)
  {
    SplitCons(comment, rest, '\n');
    CommentIsBlank(comment);
    var lines := Split(rest, '\n');
    ClassifyFirst(comment, lines);
    NothingFirst(ClassifyAll(lines));
    SkipNothing(INITIAL, Directives(ClassifyAll(lines)));
  }

  lemma {:induction false} ClassifyFirst(line: string, lines: seq<string>)
    ensures ClassifyAll([line] + lines) == [Classify(line)] + ClassifyAll(lines)
  {
  }

  lemma {:induction false} NothingFirst(lines: seq<Line>)
    ensures Directives([Blank] + lines) == [Nothing] + Directives(lines)
  {
  }

  lemma {:induction false} SkipNothing(st: State, ds: seq<Directive>)
    ensures Run(st, [Nothing] + ds) == Run(st, ds)
  {
    assert ([Nothing] + ds)[1..] == ds;
  }
}
