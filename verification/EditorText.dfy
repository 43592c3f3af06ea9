// The text of the edit window: the inner config as it is, and the outer hop's
// config behind it on lines that start with "#!".
module EditorText {
  import opened Text
  import opened Parser
  import opened HopScan

  const HOP_PREFIX := "#!"

  // The comment lines that head the two halves: one in front of the main text,
  // several in front of the hop's lines. Their wording is free.
  datatype Banners = Banners(main: string, hop: seq<string>)

  predicate Banner(line: string) {
    |line| >= 2 && line[0] == '#' && line[1] == ' ' && '\n' !in line && '\r' !in line
  }

  predicate BannersOk(b: Banners) {
    Banner(b.main) && forall i :: 0 <= i < |b.hop| ==> Banner(b.hop[i])
  }

  // strings.ReplaceAll(s, "\r", "")
  function DropCR(s: string): (r: string)
    ensures '\r' !in r
    ensures '\r' !in s ==> r == s
  {
    if s == "" then "" else if s[0] == '\r' then DropCR(s[1..]) else [s[0]] + DropCR(s[1..])
  }

  predicate TextSpace(c: char) {
    c == ' ' || c == '\t' || c == '\n'
  }

  predicate TabSpace(c: char) {
    c == ' ' || c == '\t'
  }

  // strings.TrimRight(s, " \t\n")
  function TrimText(s: string): string {
    if s != "" && TextSpace(s[|s| - 1]) then TrimText(s[..|s| - 1]) else s
  }

  // strings.TrimRight(s, " \t")
  function TrimTabs(s: string): string {
    if s != "" && TabSpace(s[|s| - 1]) then TrimTabs(s[..|s| - 1]) else s
  }

  function Prefixed(line: string): string {
    var r := TrimTabs(line);
    if r == "" then HOP_PREFIX else HOP_PREFIX + " " + r
  }

  function OnePrefixed(line: string): seq<string> {
    [Prefixed(line)]
  }

  function ComposedTail(b: Banners, hopText: string): seq<string> {
    b.hop + Gather(OnePrefixed, Split(DropCR(hopText), '\n'))
  }

  // chainComposeEditorText
  function Compose(b: Banners, mainText: string, hopText: string): string {
    LinesText([b.main]) + (TrimText(DropCR(mainText)) + ['\n'] + (['\n'] + LinesText(ComposedTail(b, hopText))))
  }

  predicate IsHopLine(line: string) {
    HasPrefix(Trim(line), HOP_PREFIX)
  }

  // The text behind the prefix and one blank.
  function HopRest(line: string): string
    requires IsHopLine(line)
  {
    var rest := Trim(line)[2..];
    if rest != "" && rest[0] == ' ' then rest[1..] else rest
  }

  function OneMain(line: string): seq<string> {
    if IsHopLine(line) then [] else [line]
  }

  function OneHop(line: string): seq<string> {
    if IsHopLine(line) then [HopRest(line)] else []
  }

  // The two halves of chainSplitEditorText.
  function MainHalf(text: string): string {
    LinesText(Gather(OneMain, Split(DropCR(text), '\n')))
  }

  function HopHalf(text: string): string {
    LinesText(Gather(OneHop, Split(DropCR(text), '\n')))
  }

  method ComposeEditorText(b: Banners, mainText: string, hopText: string) returns (r: string)
    ensures r == Compose(b, mainText, hopText)
  {
    var head := LinesText([b.main]) + (TrimText(DropCR(mainText)) + ['\n'] + ['\n']);
    var out := b.hop;
    var lines := Split(DropCR(hopText), '\n');
    var n := 0;
    assert lines[0..] == lines;
    while n < |lines|
      invariant 0 <= n <= |lines|
      invariant ComposedTail(b, hopText) == out + Gather(OnePrefixed, lines[n..])
    {
      GatherStep(OnePrefixed, out, lines, n);
      var line := TrimTabs(lines[n]);
      if line == "" {
        out := out + [HOP_PREFIX];
      } else {
        out := out + [HOP_PREFIX + " " + line];
      }
      n := n + 1;
    }
    assert out + [] == out;
    r := head + LinesText(out);
    Regrouped(LinesText([b.main]), TrimText(DropCR(mainText)), LinesText(out));
  }

  lemma {:induction false} Regrouped(a: string, b: string, c: string)
    ensures a + (b + ['\n'] + ['\n']) + c == a + (b + ['\n'] + (['\n'] + c))
  {
  }

  method SplitEditorText(text: string) returns (mainText: string, hopText: string)
    ensures mainText == MainHalf(text) && hopText == HopHalf(text)
  {
    var lines := Split(DropCR(text), '\n');
    var main: seq<string>, hop: seq<string> := [], [];
    var n := 0;
    assert lines[0..] == lines;
    while n < |lines|
      invariant 0 <= n <= |lines|
      invariant [] + Gather(OneMain, lines) == main + Gather(OneMain, lines[n..])
      invariant [] + Gather(OneHop, lines) == hop + Gather(OneHop, lines[n..])
    {
      GatherStep(OneMain, main, lines, n);
      GatherStep(OneHop, hop, lines, n);
      if IsHopLine(lines[n]) {
        assert OneMain(lines[n]) == [] && main + [] == main;
        hop := hop + [HopRest(lines[n])];
      } else {
        assert OneHop(lines[n]) == [] && hop + [] == hop;
        main := main + [lines[n]];
      }
      n := n + 1;
    }
    assert main + [] == main && hop + [] == hop;
    assert [] + Gather(OneMain, lines) == Gather(OneMain, lines) && [] + Gather(OneHop, lines) == Gather(OneHop, lines);
    mainText, hopText := LinesText(main), LinesText(hop);
  }

  // chainKeepHop1
  function KeepHop(b: Banners, oldText: string, newMainText: string): string {
    if Trim(HopHalf(oldText)) == "" then newMainText else Compose(b, newMainText, HopHalf(oldText))
  }

  // ----- what the parser sees of a text -----

  // The stripped lines that are not blank.
  function OneKept(line: string): seq<string> {
    if Strip(line) == "" then [] else [Strip(line)]
  }

  function Kept(lines: seq<string>): seq<string> {
    Gather(OneKept, lines)
  }

  function KeptText(text: string): seq<string> {
    Kept(Split(text, '\n'))
  }

  function StrippedDirectives(kept: seq<string>): seq<Directive> {
    if kept == [] then [] else [DirectiveOf(ClassifyStripped(kept[0]))] + StrippedDirectives(kept[1..])
  }

  lemma {:induction false} RunCons(st: State, d: Directive, ds: seq<Directive>)
    ensures Run(st, [d] + ds) == match Step(st, d) case Err(e) => Err(e) case Ok(st') => Run(st', ds)
  {
    assert ([d] + ds)[1..] == ds;
  }

  lemma {:induction false} DirectivesCons(lines: seq<string>)
    requires lines != []
    ensures Directives(ClassifyAll(lines)) ==
            [DirectiveOf(ClassifyStripped(Strip(lines[0])))] + Directives(ClassifyAll(lines[1..]))
  {
  }

  // Blank lines and comments make no difference to the parser.
  lemma {:induction false} RunKept(st: State, lines: seq<string>)
    ensures Run(st, Directives(ClassifyAll(lines))) == Run(st, StrippedDirectives(Kept(lines)))
    decreases |lines|
  {
    if lines != [] {
      var s := Strip(lines[0]);
      var d := DirectiveOf(ClassifyStripped(s));
      var rest, kept := Directives(ClassifyAll(lines[1..])), Kept(lines[1..]);
      DirectivesCons(lines);
      RunCons(st, d, rest);
      if s == "" {
        RunKept(st, lines[1..]);
        assert Kept(lines) == kept;
      } else {
        assert Kept(lines) == [s] + kept && ([s] + kept)[1..] == kept;
        assert StrippedDirectives([s] + kept) == [d] + StrippedDirectives(kept);
        RunCons(st, d, StrippedDirectives(kept));
        if Step(st, d).Ok? { RunKept(Step(st, d).value, lines[1..]); }
      }
    }
  }

  lemma {:induction false} SameKeptSameMeaning(a: string, b: string, name: string)
    requires KeptText(a) == KeptText(b)
    ensures Parse(a, name) == Parse(b, name)
  {
    RunKept(INITIAL, Split(a, '\n'));
    RunKept(INITIAL, Split(b, '\n'));
  }

  // ----- lines the parser does not see -----

  lemma {:induction false} SpacesBehind(line: string, c: char)
    requires IsSpace(c) && c != '#'
    ensures Strip(line + [c]) == Strip(line) && Trim(line + [c]) == Trim(line)
  {
    TrimPadded("", line, [c]);
    assert "" + line + [c] == line + [c];
    PoundStays(line, c);
    var i := IndexOf(line, '#');
    if i >= 0 {
      assert (line + [c])[..i] == line[..i];
    }
  }

  lemma {:induction false} PoundStays(line: string, c: char)
    requires c != '#'
    ensures IndexOf(line + [c], '#') == IndexOf(line, '#')
    ensures IndexOf(line, '#') < |line|
  {
    if line == "" {
      assert line + [c] == [c];
      IndexOfNone([c], '#');
      IndexOfNone("", '#');
    } else {
      PoundStays(line[1..], c);
      assert (line + [c])[1..] == line[1..] + [c];
    }
  }

  lemma {:induction false} StripTrimRight(line: string)
    ensures Strip(TrimRight(line)) == Strip(line)
  {
    var n := |line| - 1;
    if line != "" && IsSpace(line[n]) {
      StripTrimRight(line[..n]);
      SpacesBehind(line[..n], line[n]);
      assert line[..n] + [line[n]] == line;
    }
  }

  // White space and then '#': a comment.
  lemma {:induction false} CommentStrips(w: string, rest: string)
    requires AllSpace(w) && '#' !in w
    ensures Strip(w + ['#'] + rest) == ""
  {
    var line := w + ['#'] + rest;
    IndexOfAt(w, '#', rest);
    assert line[..|w|] == w;
    TrimPadded(w, "", "");
    assert w + "" + "" == w && Trim("") == "";
  }

  lemma {:induction false} HopLineStrips(line: string)
    requires IsHopLine(line)
    ensures Strip(line) == ""
  {
    var w, rest := Leading(line);
    var t := TrimRight(rest);
    assert t[0] == t[..2][0] == '#';
    assert line == w + ['#'] + rest[1..];
    CommentStrips(w, rest[1..]);
  }

  lemma {:induction false} BannerLine(line: string)
    requires Banner(line)
    ensures Strip(line) == "" && !IsHopLine(line)
  {
    CommentStrips("", line[1..]);
    assert "" + ['#'] + line[1..] == line;
    var t := TrimRight(line);
    if |t| >= 2 { assert t[1] == line[1]; assert t[..2][1] == ' '; }
  }

  // ----- trailing white space of a text -----

  // The lines of a text as the parser and the splitter see them.
  lemma {:induction false} TextSnoc(s: string, c: char)
    requires c == ' ' || c == '\t' || c == '\n'
    ensures KeptText(s + [c]) == KeptText(s)
    ensures Gather(OneHop, Split(s + [c], '\n')) == Gather(OneHop, Split(s, '\n'))
  {
    var p := Split(s, '\n');
    var n := |p| - 1;
    SplitSnoc(s, c, '\n');
    if c == '\n' {
      EmptyLine();
      SnocNothing(OneKept, p, "");
      SnocNothing(OneHop, p, "");
    } else {
      SpaceSame(p[n], c);
      assert p == p[..n] + [p[n]];
      SnocSame(OneKept, p[..n], p[n], p[n] + [c]);
      SnocSame(OneHop, p[..n], p[n], p[n] + [c]);
    }
  }

  lemma {:induction false} SpaceSame(line: string, c: char)
    requires c == ' ' || c == '\t'
    ensures OneKept(line + [c]) == OneKept(line) && OneHop(line + [c]) == OneHop(line)
  {
    SpacesBehind(line, c);
  }

  lemma {:induction false} EmptyLine()
    ensures OneKept("") == [] && OneHop("") == []
  {
    assert Trim("") == "";
  }

  lemma {:induction false} SnocNothing(f: string -> seq<string>, p: seq<string>, x: string)
    requires f(x) == []
    ensures Gather(f, p + [x]) == Gather(f, p)
  {
    GatherAppend(f, p, [x]);
    GatherOne(f, x);
  }

  lemma {:induction false} SnocSame(f: string -> seq<string>, p: seq<string>, x: string, y: string)
    requires f(x) == f(y)
    ensures Gather(f, p + [x]) == Gather(f, p + [y])
  {
    GatherAppend(f, p, [x]);
    GatherAppend(f, p, [y]);
    GatherOne(f, x);
    GatherOne(f, y);
  }

  lemma {:induction false} TrimTextSame(s: string)
    ensures KeptText(TrimText(s)) == KeptText(s)
    ensures Gather(OneHop, Split(TrimText(s), '\n')) == Gather(OneHop, Split(s, '\n'))
  {
    var n := |s| - 1;
    if s != "" && TextSpace(s[n]) {
      var front := s[..n];
      assert s == front + [s[n]] && TrimText(s) == TrimText(front);
      TrimTextSame(front);
      TextSnoc(front, s[n]);
    }
  }

  // ----- prefixed lines -----

  lemma {:induction false} TrimTabsSame(s: string)
    ensures TrimRight(TrimTabs(s)) == TrimRight(s)
  {
    if s != "" && TabSpace(s[|s| - 1]) { TrimTabsSame(s[..|s| - 1]); }
  }

  lemma {:induction false} TrimTabsKeeps(s: string, c: char)
    requires c !in s
    ensures c !in TrimTabs(s)
  {
    if s != "" && TabSpace(s[|s| - 1]) { TrimTabsKeeps(s[..|s| - 1], c); }
  }

  lemma {:induction false} TrimRightBehind(p: string, r: string)
    ensures TrimRight(r) != "" ==> TrimRight(p + r) == p + TrimRight(r)
    ensures TrimRight(r) == "" ==> TrimRight(p + r) == TrimRight(p)
  {
    var n := |r| - 1;
    if r == "" {
      assert p + r == p;
    } else if IsSpace(r[n]) {
      TrimRightBehind(p, r[..n]);
      assert (p + r)[..|p| + n] == p + r[..n];
    }
  }

  // A prefixed line is a hop line, and behind the prefix stands the line with
  // the white space at its end gone.
  lemma {:induction false} PrefixedLine(line: string)
    ensures IsHopLine(Prefixed(line)) && HopRest(Prefixed(line)) == TrimRight(line)
  {
    TrimTabsSame(line);
    PrefixedRest(TrimTabs(line));
    assert HOP_PREFIX + " " + TrimTabs(line) == "#! " + TrimTabs(line);
  }

  lemma {:induction false} PrefixedRest(r: string)
    ensures var p := if r == "" then "#!" else "#! " + r;
            IsHopLine(p) && HopRest(p) == TrimRight(r)
  {
    HashBang();
    TrimRightBehind("#! ", r);
    if r == "" {
      BareHopLine("#!");
    } else if TrimRight(r) == "" {
      BareHopLine("#! " + r);
    } else {
      FullHopLine("#! " + r, TrimRight(r));
    }
  }

  lemma {:induction false} HashBang()
    ensures TrimRight("#! ") == "#!" && TrimRight("#!") == "#!"
  {
    TrimRightPad("#!", " ");
    assert "#!" + " " == "#! ";
  }

  lemma {:induction false} BareHopLine(line: string)
    requires line != "" && !IsSpace(line[0]) && TrimRight(line) == "#!"
    ensures IsHopLine(line) && HopRest(line) == ""
  {
    assert "#!"[..2] == "#!";
  }

  lemma {:induction false} FullHopLine(line: string, rest: string)
    requires line != "" && !IsSpace(line[0]) && TrimRight(line) == "#! " + rest
    ensures IsHopLine(line) && HopRest(line) == rest
  {
    var t := "#! " + rest;
    assert t[..2] == "#!" && t[2..] == " " + rest && t[2..][1..] == rest;
  }

  function OneTrimmed(line: string): seq<string> {
    [TrimRight(line)]
  }

  lemma {:induction false} PrefixedLines(lines: seq<string>)
    ensures Gather(OneKept, Gather(OnePrefixed, lines)) == []
    ensures Gather(OneHop, Gather(OnePrefixed, lines)) == Gather(OneTrimmed, lines)
  {
    if lines != [] {
      PrefixedLines(lines[1..]);
      var x, rest := Prefixed(lines[0]), Gather(OnePrefixed, lines[1..]);
      PrefixedLine(lines[0]);
      HopLineStrips(x);
      GatherAppend(OneKept, [x], rest);
      GatherOne(OneKept, x);
      GatherAppend(OneHop, [x], rest);
      GatherOne(OneHop, x);
    }
  }

  predicate PlainLines(lines: seq<string>) {
    forall i :: 0 <= i < |lines| ==> '\n' !in lines[i] && '\r' !in lines[i]
  }

  lemma {:induction false} PrefixedPlain(lines: seq<string>)
    requires PlainLines(lines)
    ensures PlainLines(Gather(OnePrefixed, lines))
  {
    if lines != [] {
      PrefixedPlain(lines[1..]);
      TrimTabsKeeps(lines[0], '\n');
      TrimTabsKeeps(lines[0], '\r');
      assert '\n' !in Prefixed(lines[0]) && '\r' !in Prefixed(lines[0]);
    }
  }

  // ----- the composed text -----

  function ComposedLines(b: Banners, mainText: string, hopText: string): seq<string> {
    [b.main] + (Split(TrimText(mainText), '\n') + ([""] + (ComposedTail(b, hopText) + [""])))
  }

  lemma {:induction false} TailPlain(b: Banners, hopText: string)
    requires BannersOk(b)
    ensures PlainLines(ComposedTail(b, hopText))
  {
    var h := DropCR(hopText);
    SplitParts(h, '\n');
    SplitKeeps(h, '\n', '\r');
    PrefixedPlain(Split(h, '\n'));
  }

  lemma {:induction false} TrimTextKeeps(s: string, c: char)
    requires c !in s
    ensures c !in TrimText(s)
  {
    if s != "" && TextSpace(s[|s| - 1]) { TrimTextKeeps(s[..|s| - 1], c); }
  }

  lemma {:induction false} SplitComposed(b: Banners, mainText: string, hopText: string)
    requires BannersOk(b)
    requires '\r' !in mainText
    ensures Split(Compose(b, mainText, hopText), '\n') == ComposedLines(b, mainText, hopText)
  {
    var m, tail := TrimText(mainText), LinesText(ComposedTail(b, hopText));
    var rest := m + ['\n'] + (['\n'] + tail);
    SplitLinesText([b.main], rest);
    SplitConcat(m, ['\n'] + tail, '\n');
    SplitCons("", tail, '\n');
    assert "" + ['\n'] + tail == ['\n'] + tail;
    TailPlain(b, hopText);
    SplitLinesText(ComposedTail(b, hopText), "");
    assert tail + "" == tail;
    SplitSingle("", '\n');
  }

  lemma {:induction false} LinesTextPlain(lines: seq<string>)
    requires PlainLines(lines)
    ensures '\r' !in LinesText(lines)
  {
    if lines != [] { LinesTextPlain(lines[1..]); }
  }

  lemma {:induction false} ComposedHasNoCR(b: Banners, mainText: string, hopText: string)
    requires BannersOk(b)
    requires '\r' !in mainText
    ensures '\r' !in Compose(b, mainText, hopText)
  {
    LinesTextPlain([b.main]);
    TrimTextKeeps(mainText, '\r');
    TailPlain(b, hopText);
    LinesTextPlain(ComposedTail(b, hopText));
  }

  // What a line function gathers from a composed text, when banners and empty
  // lines give it nothing.
  lemma {:induction false} GatherComposed(f: string -> seq<string>, b: Banners, mainText: string, hopText: string)
    requires f("") == [] && f(b.main) == [] && Gather(f, b.hop) == []
    ensures Gather(f, ComposedLines(b, mainText, hopText)) ==
            Gather(f, Split(TrimText(mainText), '\n')) + Gather(f, Gather(OnePrefixed, Split(DropCR(hopText), '\n')))
  {
    var m, h := Split(TrimText(mainText), '\n'), Gather(OnePrefixed, Split(DropCR(hopText), '\n'));
    GatherAppend(f, [b.main], m + ([""] + (b.hop + h + [""])));
    GatherOne(f, b.main);
    GatherAppend(f, m, [""] + (b.hop + h + [""]));
    GatherAppend(f, [""], b.hop + h + [""]);
    GatherOne(f, "");
    GatherAppend(f, b.hop + h, [""]);
    GatherAppend(f, b.hop, h);
  }

  lemma {:induction false} BannersGatherNothing(b: Banners)
    requires BannersOk(b)
    ensures OneKept(b.main) == [] && Gather(OneKept, b.hop) == []
    ensures OneHop(b.main) == [] && Gather(OneHop, b.hop) == []
  {
    BannerLine(b.main);
    forall i | 0 <= i < |b.hop| ensures OneKept(b.hop[i]) == [] && OneHop(b.hop[i]) == [] {
      BannerLine(b.hop[i]);
    }
    GatherNone(OneKept, b.hop);
    GatherNone(OneHop, b.hop);
  }

  lemma {:induction false} ComposedKept(b: Banners, mainText: string, hopText: string)
    requires BannersOk(b)
    requires '\r' !in mainText
    ensures KeptText(Compose(b, mainText, hopText)) == KeptText(mainText)
  {
    SplitComposed(b, mainText, hopText);
    EmptyLine();
    BannersGatherNothing(b);
    GatherComposed(OneKept, b, mainText, hopText);
    PrefixedLines(Split(DropCR(hopText), '\n'));
    TrimTextSame(mainText);
  }

  lemma {:induction false} ComposedHop(b: Banners, mainText: string, hopText: string)
    requires BannersOk(b)
    requires '\r' !in mainText
    ensures Gather(OneHop, Split(Compose(b, mainText, hopText), '\n')) ==
            Gather(OneHop, Split(mainText, '\n')) + Gather(OneTrimmed, Split(DropCR(hopText), '\n'))
  {
    SplitComposed(b, mainText, hopText);
    EmptyLine();
    BannersGatherNothing(b);
    GatherComposed(OneHop, b, mainText, hopText);
    PrefixedLines(Split(DropCR(hopText), '\n'));
    TrimTextSame(mainText);
  }

  // The editor text, without carriage returns.
  lemma {:induction false} ComposeKeepsMeaningPlain(b: Banners, mainText: string, hopText: string, name: string)
    requires BannersOk(b)
    requires '\r' !in mainText
    ensures Parse(Compose(b, mainText, hopText), name) == Parse(mainText, name)
  {
    ComposedKept(b, mainText, hopText);
    SameKeptSameMeaning(Compose(b, mainText, hopText), mainText, name);
  }

  // ----- the two halves -----

  lemma {:induction false} MainKept(lines: seq<string>)
    ensures Kept(Gather(OneMain, lines)) == Kept(lines)
  {
    if lines != [] {
      MainKept(lines[1..]);
      var x, rest := lines[0], Gather(OneMain, lines[1..]);
      if IsHopLine(x) {
        HopLineStrips(x);
        assert [] + rest == rest;
      } else {
        GatherAppend(OneKept, [x], rest);
        GatherOne(OneKept, x);
      }
    }
  }

  lemma {:induction false} MainPlain(lines: seq<string>)
    requires PlainLines(lines)
    ensures PlainLines(Gather(OneMain, lines))
  {
    if lines != [] { MainPlain(lines[1..]); }
  }

  // The main half, without carriage returns.
  lemma {:induction false} MainHalfKeepsMeaningPlain(text: string, name: string)
    requires '\r' !in text
    ensures Parse(MainHalf(text), name) == Parse(text, name)
  {
    var lines := Split(text, '\n');
    SplitParts(text, '\n');
    SplitKeeps(text, '\n', '\r');
    MainPlain(lines);
    MainKept(lines);
    TextOfLines(Gather(OneMain, lines));
    SameKeptSameMeaning(MainHalf(text), text, name);
  }

  lemma {:induction false} TextOfLines(lines: seq<string>)
    requires PlainLines(lines)
    ensures KeptText(LinesText(lines)) == Kept(lines)
  {
    SplitLinesText(lines, "");
    assert LinesText(lines) + "" == LinesText(lines);
    SplitSingle("", '\n');
    EmptyLine();
    SnocNothing(OneKept, lines, "");
  }

  // The main half of the editor text, without carriage returns.
  lemma {:induction false} SplitMainKeepsMeaningPlain(b: Banners, mainText: string, hopText: string, name: string)
    requires BannersOk(b)
    requires '\r' !in mainText
    ensures Parse(MainHalf(Compose(b, mainText, hopText)), name) == Parse(mainText, name)
  {
    ComposedHasNoCR(b, mainText, hopText);
    MainHalfKeepsMeaningPlain(Compose(b, mainText, hopText), name);
    ComposeKeepsMeaningPlain(b, mainText, hopText, name);
  }

  // The hop half of the editor text, without carriage returns.
  lemma {:induction false} SplitHopHalfPlain(b: Banners, mainText: string, hopText: string)
    requires BannersOk(b)
    requires '\r' !in mainText && '\r' !in hopText
    ensures HopHalf(Compose(b, mainText, hopText)) ==
            HopHalf(mainText) + LinesText(Gather(OneTrimmed, Split(hopText, '\n')))
  {
    ComposedHasNoCR(b, mainText, hopText);
    ComposedHop(b, mainText, hopText);
    LinesTextAppend(Gather(OneHop, Split(mainText, '\n')), Gather(OneTrimmed, Split(hopText, '\n')));
  }

  lemma {:induction false} TrimmedKept(lines: seq<string>)
    requires PlainLines(lines)
    ensures Kept(Gather(OneTrimmed, lines)) == Kept(lines)
    ensures PlainLines(Gather(OneTrimmed, lines))
  {
    if lines != [] {
      TrimmedKept(lines[1..]);
      var x, rest := TrimRight(lines[0]), Gather(OneTrimmed, lines[1..]);
      StripTrimRight(lines[0]);
      GatherAppend(OneKept, [x], rest);
      GatherOne(OneKept, x);
    }
  }

  // No line of the text, as the splitter goes through it, is one of the hop's.
  predicate NoHopLines(text: string) {
    var lines := Split(DropCR(text), '\n');
    forall i :: 0 <= i < |lines| ==> !IsHopLine(lines[i])
  }

  lemma {:induction false} NoHopHalf(text: string)
    requires NoHopLines(text)
    ensures HopHalf(text) == ""
  {
    GatherNone(OneHop, Split(DropCR(text), '\n'));
  }

  // Its meaning, without carriage returns.
  lemma {:induction false} SplitHopKeepsMeaningPlain(b: Banners, mainText: string, hopText: string, name: string)
    requires BannersOk(b)
    requires '\r' !in mainText && '\r' !in hopText && NoHopLines(mainText)
    ensures Parse(HopHalf(Compose(b, mainText, hopText)), name) == Parse(hopText, name)
  {
    var lines := Split(hopText, '\n');
    var trimmed := Gather(OneTrimmed, lines);
    SplitHopHalfPlain(b, mainText, hopText);
    NoHopHalf(mainText);
    assert "" + LinesText(trimmed) == LinesText(trimmed);
    SplitParts(hopText, '\n');
    SplitKeeps(hopText, '\n', '\r');
    TrimmedKept(lines);
    TextOfLines(trimmed);
    SameKeptSameMeaning(LinesText(trimmed), hopText, name);
  }

  lemma {:induction false} DropCRFree(lines: seq<string>)
    requires PlainLines(lines)
    ensures PlainLines(Gather(OneHop, lines))
  {
    if lines != [] {
      DropCRFree(lines[1..]);
      if IsHopLine(lines[0]) {
        TrimKeeps(lines[0], '\n');
        TrimKeeps(lines[0], '\r');
      }
    }
  }

  lemma {:induction false} HopHalfHasNoCR(text: string)
    ensures '\r' !in HopHalf(text)
  {
    var t := DropCR(text);
    SplitParts(t, '\n');
    SplitKeeps(t, '\n', '\r');
    DropCRFree(Split(t, '\n'));
    LinesTextPlain(Gather(OneHop, Split(t, '\n')));
  }

  // A blank hop half holds nothing for the parser.
  lemma {:induction false} BlankKept(s: string)
    requires Trim(s) == ""
    ensures KeptText(s) == []
  {
    AllBlank(s);
    BlankText(s);
  }

  lemma {:induction false} AllBlank(s: string)
    requires Trim(s) == ""
    ensures AllSpace(s)
  {
    TrimLeftEmpty(s);
    var l := TrimLeft(s);
    TrimRightNone(l);
  }

  lemma {:induction false} TrimRightNone(l: string)
    ensures l != "" && !IsSpace(l[0]) ==> TrimRight(l) != ""
  {
    if l != "" {
      assert l == [] + [l[0]] + l[1..];
      if !IsSpace(l[0]) { TrimRightKeeps([], l[0], l[1..]); }
    }
  }

  lemma {:induction false} BlankText(s: string)
    requires AllSpace(s)
    ensures KeptText(s) == []
    decreases |s|
  {
    var i := IndexOf(s, '\n');
    IndexOfNone(s, '\n');
    if i < 0 {
      BlankLine(s);
      GatherOne(OneKept, s);
    } else {
      IndexOfFirst(s, '\n');
      assert s == s[..i] + ['\n'] + s[i + 1..];
      SplitCons(s[..i], s[i + 1..], '\n');
      BlankLine(s[..i]);
      BlankText(s[i + 1..]);
      GatherAppend(OneKept, [s[..i]], Split(s[i + 1..], '\n'));
      GatherOne(OneKept, s[..i]);
    }
  }

  lemma {:induction false} BlankLine(s: string)
    requires AllSpace(s)
    ensures OneKept(s) == []
  {
    IndexOfNone(s, '#');
    TrimPadded(s, "", "");
    assert s + "" + "" == s && Trim("") == "";
  }

  // ----- texts with carriage returns -----

  // Carriage returns stand only at the ends of lines, as in an edit box of Windows.
  predicate CrAtLineEnds(text: string) {
    forall i :: 0 <= i < |text| && text[i] == '\r' ==>
      i + 1 == |text| || text[i + 1] == '\n' || text[i + 1] == '\r'
  }

  lemma {:induction false} DropCRAppend(a: string, b: string)
    ensures DropCR(a + b) == DropCR(a) + DropCR(b)
  {
    if a == "" {
      assert a + b == b && DropCR(a) + DropCR(b) == DropCR(b);
    } else {
      DropCRAppend(a[1..], b);
      assert (a + b)[1..] == a[1..] + b;
    }
  }

  lemma {:induction false} DropCRKeeps(a: string, c: char)
    requires c !in a
    ensures c !in DropCR(a)
  {
    if a != "" {
      DropCRKeeps(a[1..], c);
    }
  }

  // Dropping carriage returns at the end of a line is trimming white space.
  lemma {:induction false} DropCRLine(line: string)
    requires '\n' !in line && CrAtLineEnds(line)
    ensures OneKept(DropCR(line)) == OneKept(line)
    decreases |line|
  {
    if '\r' in line {
      var n := |line| - 1;
      LastIsCR(line);
      var front := line[..n];
      assert line == front + ['\r'];
      assert forall i :: 0 <= i < n ==> front[i] == line[i];
      FrontKeepsEnds(line);
      DropCRLine(front);
      DropCRAppend(front, ['\r']);
      assert DropCR(line) == DropCR(front);
      SpacesBehind(front, '\r');
    }
  }

  lemma {:induction false} LastIsCR(line: string)
    requires '\n' !in line && CrAtLineEnds(line) && '\r' in line
    ensures line[|line| - 1] == '\r'
  {
    var i :| 0 <= i < |line| && line[i] == '\r';
    while i + 1 < |line|
      invariant 0 <= i < |line| && line[i] == '\r'
    {
      assert line[i + 1] in line;
      i := i + 1;
    }
  }

  lemma {:induction false} FrontKeepsEnds(line: string)
    requires line != "" && CrAtLineEnds(line)
    ensures CrAtLineEnds(line[..|line| - 1])
  {
  }

  lemma {:induction false} PartsKeepEnds(head: string, rest: string)
    requires CrAtLineEnds(head + ['\n'] + rest)
    ensures CrAtLineEnds(head) && CrAtLineEnds(rest)
  {
    var text := head + ['\n'] + rest;
    forall i | 0 <= i < |head| && head[i] == '\r'
      ensures i + 1 == |head| || head[i + 1] == '\n' || head[i + 1] == '\r'
    {
      assert text[i] == head[i];
      if i + 1 < |head| {
        assert text[i + 1] == head[i + 1];
      }
    }
    forall i | 0 <= i < |rest| && rest[i] == '\r'
      ensures i + 1 == |rest| || rest[i + 1] == '\n' || rest[i + 1] == '\r'
    {
      assert text[|head| + 1 + i] == rest[i];
      if i + 1 < |rest| {
        assert text[|head| + 1 + i + 1] == rest[i + 1];
      }
    }
  }

  lemma {:induction false} KeptCons(head: string, rest: string)
    requires '\n' !in head
    ensures KeptText(head + ['\n'] + rest) == OneKept(head) + KeptText(rest)
  {
    SplitCons(head, rest, '\n');
    GatherAppend(OneKept, [head], Split(rest, '\n'));
    GatherOne(OneKept, head);
  }

  lemma {:induction false} KeptSingle(line: string)
    requires '\n' !in line
    ensures KeptText(line) == OneKept(line)
  {
    SplitSingle(line, '\n');
    GatherOne(OneKept, line);
  }

  lemma {:induction false} DropCRKept(text: string)
    requires CrAtLineEnds(text)
    ensures KeptText(DropCR(text)) == KeptText(text)
    decreases |text|
  {
    var i := IndexOf(text, '\n');
    IndexOfNone(text, '\n');
    if i < 0 {
      DropCRKeeps(text, '\n');
      DropCRLine(text);
      KeptSingle(text);
      KeptSingle(DropCR(text));
    } else {
      IndexOfFirst(text, '\n');
      var head, rest := text[..i], text[i + 1..];
      assert text == head + ['\n'] + rest;
      PartsKeepEnds(head, rest);
      DropCRKept(rest);
      DropCRLine(head);
      DropCRKeeps(head, '\n');
      DropCRAppend(head + ['\n'], rest);
      DropCRAppend(head, ['\n']);
      KeptCons(head, rest);
      KeptCons(DropCR(head), DropCR(rest));
    }
  }

  lemma {:induction false} DropCRKeepsMeaning(text: string, name: string)
    requires CrAtLineEnds(text)
    ensures Parse(DropCR(text), name) == Parse(text, name)
  {
    DropCRKept(text);
    SameKeptSameMeaning(DropCR(text), text, name);
  }

  // Neither building nor splitting looks at carriage returns.
  lemma {:induction false} CrUnseen(b: Banners, mainText: string, hopText: string)
    ensures Compose(b, mainText, hopText) == Compose(b, DropCR(mainText), DropCR(hopText))
    ensures MainHalf(mainText) == MainHalf(DropCR(mainText)) && HopHalf(mainText) == HopHalf(DropCR(mainText))
    ensures NoHopLines(mainText) <==> NoHopLines(DropCR(mainText))
  {
  }

  // The editor text of a chain means what the inner config means.
  lemma {:induction false} ComposeKeepsMeaning(b: Banners, mainText: string, hopText: string, name: string)
    requires BannersOk(b) && CrAtLineEnds(mainText)
    ensures Parse(Compose(b, mainText, hopText), name) == Parse(mainText, name)
  {
    CrUnseen(b, mainText, hopText);
    ComposeKeepsMeaningPlain(b, DropCR(mainText), DropCR(hopText), name);
    DropCRKeepsMeaning(mainText, name);
  }

  // Taking the "#!" lines out of any text leaves its meaning to the parser.
  lemma {:induction false} MainHalfKeepsMeaning(text: string, name: string)
    requires CrAtLineEnds(text)
    ensures Parse(MainHalf(text), name) == Parse(text, name)
  {
    assert MainHalf(text) == MainHalf(DropCR(text));
    MainHalfKeepsMeaningPlain(DropCR(text), name);
    DropCRKeepsMeaning(text, name);
  }

  // Composing and splitting: the main half means what the main text means.
  lemma {:induction false} SplitMainKeepsMeaning(b: Banners, mainText: string, hopText: string, name: string)
    requires BannersOk(b) && CrAtLineEnds(mainText)
    ensures Parse(MainHalf(Compose(b, mainText, hopText)), name) == Parse(mainText, name)
  {
    CrUnseen(b, mainText, hopText);
    SplitMainKeepsMeaningPlain(b, DropCR(mainText), DropCR(hopText), name);
    DropCRKeepsMeaning(mainText, name);
  }

  // Composing and splitting: the hop half holds the main text's own "#!" lines
  // and then every line of the hop text with the white space at its end gone.
  lemma {:induction false} SplitHopHalf(b: Banners, mainText: string, hopText: string)
    requires BannersOk(b)
    ensures HopHalf(Compose(b, mainText, hopText)) ==
            HopHalf(mainText) + LinesText(Gather(OneTrimmed, Split(DropCR(hopText), '\n')))
  {
    CrUnseen(b, mainText, hopText);
    SplitHopHalfPlain(b, DropCR(mainText), DropCR(hopText));
  }

  // With no "#!" line in the main text, the hop half means what the hop text means.
  lemma {:induction false} SplitHopKeepsMeaning(b: Banners, mainText: string, hopText: string, name: string)
    requires BannersOk(b) && CrAtLineEnds(hopText) && NoHopLines(mainText)
    ensures Parse(HopHalf(Compose(b, mainText, hopText)), name) == Parse(hopText, name)
  {
    CrUnseen(b, mainText, hopText);
    SplitHopKeepsMeaningPlain(b, DropCR(mainText), DropCR(hopText), name);
    DropCRKeepsMeaning(hopText, name);
  }

  // Rewriting the main text keeps both meanings: the new main text's, and the
  // outer hop's, however often it is done.
  lemma {:induction false} KeepHopKeepsBoth(b: Banners, oldText: string, newMainText: string, name: string)
    requires BannersOk(b) && CrAtLineEnds(newMainText) && NoHopLines(newMainText)
    ensures Parse(MainHalf(KeepHop(b, oldText, newMainText)), name) == Parse(newMainText, name)
    ensures Parse(HopHalf(KeepHop(b, oldText, newMainText)), name) == Parse(HopHalf(oldText), name)
  {
    var hop := HopHalf(oldText);
    if Trim(hop) == "" {
      MainHalfKeepsMeaning(newMainText, name);
      NoHopHalf(newMainText);
      BlankKept(hop);
      BlankKept("");
      SameKeptSameMeaning("", hop, name);
    } else {
      HopHalfHasNoCR(oldText);
      SplitMainKeepsMeaning(b, newMainText, hop, name);
      SplitHopKeepsMeaning(b, newMainText, hop, name);
    }
  }
}
