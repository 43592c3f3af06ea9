// ASCII text helpers with the behaviour of Go's strings package: searching,
// trimming, splitting, joining and case folding.
module Text {

  datatype Option<+T> = None | Some(value: T)

  predicate IsSpace(c: char) {
    c == ' ' || c == '\t' || c == '\n' || c == '\r' || c == '\U{000B}' || c == '\U{000C}'
  }

  predicate AllSpace(s: string) {
    forall k :: 0 <= k < |s| ==> IsSpace(s[k])
  }

  // ----- searching -----

  // strings.IndexByte: the first position of c, or -1.
  function IndexOf(s: string, c: char): (i: int)
    ensures -1 <= i < |s|
    ensures i >= 0 ==> s[i] == c
  {
    if s == [] then -1
    else if s[0] == c then 0
    else
      var r := IndexOf(s[1..], c);
      if r < 0 then -1 else r + 1
  }

  lemma {:induction false} IndexOfAt(a: string, c: char, b: string)
    requires c !in a
    ensures IndexOf(a + [c] + b, c) == |a|
  {
    if a != [] {
      IndexOfAt(a[1..], c, b);
      assert (a + [c] + b)[1..] == a[1..] + [c] + b;
    }
  }

  lemma {:induction false} IndexOfNone(s: string, c: char)
    ensures IndexOf(s, c) < 0 <==> c !in s
  {
    if s != [] { IndexOfNone(s[1..], c); assert s == [s[0]] + s[1..]; }
  }

  lemma {:induction false} IndexOfFirst(s: string, c: char)
    requires c in s
    ensures IndexOf(s, c) >= 0
    ensures c !in s[..IndexOf(s, c)]
  {
    if s[0] != c {
      assert s == [s[0]] + s[1..];
      IndexOfFirst(s[1..], c);
      assert s[..IndexOf(s, c)] == [s[0]] + s[1..][..IndexOf(s[1..], c)];
    }
  }

  // strings.LastIndexByte: the last position of c, or -1.
  function LastIndexOf(s: string, c: char): (i: int)
    ensures -1 <= i < |s|
    ensures i >= 0 ==> s[i] == c
  {
    if s == [] then -1
    else if s[|s| - 1] == c then |s| - 1
    else LastIndexOf(s[..|s| - 1], c)
  }

  lemma {:induction false} LastIndexOfAt(a: string, c: char, b: string)
    requires c !in b
    ensures LastIndexOf(a + [c] + b, c) == |a|
  {
    if b != [] {
      var n := |b| - 1;
      LastIndexOfAt(a, c, b[..n]);
      assert (a + [c] + b)[..|a| + 1 + n] == a + [c] + b[..n];
    }
  }

  lemma {:induction false} LastIndexOfNone(s: string, c: char)
    ensures LastIndexOf(s, c) < 0 <==> c !in s
  {
    if s != [] {
      var n := |s| - 1;
      LastIndexOfNone(s[..n], c);
      assert s == s[..n] + [s[n]];
    }
  }

  predicate HasPrefix(s: string, p: string) {
    |p| <= |s| && s[..|p|] == p
  }

  predicate HasSuffix(s: string, p: string) {
    |p| <= |s| && s[|s| - |p|..] == p
  }

  // ----- trimming -----

  function TrimLeft(s: string): (r: string)
    ensures |r| <= |s|
    ensures r == [] || !IsSpace(r[0])
  {
    if s != [] && IsSpace(s[0]) then TrimLeft(s[1..]) else s
  }

  function TrimRight(s: string): (r: string)
    ensures |r| <= |s| && r == s[..|r|]
    ensures r == [] || !IsSpace(r[|r| - 1])
  {
    if s != [] && IsSpace(s[|s| - 1]) then TrimRight(s[..|s| - 1]) else s
  }

  // strings.TrimSpace
  function Trim(s: string): (r: string)
    ensures Trimmed(r)
  {
    TrimRight(TrimLeft(s))
  }

  predicate Trimmed(s: string) {
    s == [] || (!IsSpace(s[0]) && !IsSpace(s[|s| - 1]))
  }

  lemma {:induction false} TrimId(s: string)
    requires Trimmed(s)
    ensures Trim(s) == s
  {
  }

  lemma {:induction false} TrimLeftPad(pre: string, s: string)
    requires AllSpace(pre)
    ensures TrimLeft(pre + s) == TrimLeft(s)
  {
    if pre == [] {
      assert pre + s == s;
    } else {
      TrimLeftPad(pre[1..], s);
      assert (pre + s)[1..] == pre[1..] + s;
    }
  }

  lemma {:induction false} TrimRightPad(s: string, post: string)
    requires AllSpace(post)
    ensures TrimRight(s + post) == TrimRight(s)
  {
    if post == [] {
      assert s + post == s;
    } else {
      var n := |post| - 1;
      TrimRightPad(s, post[..n]);
      assert (s + post)[..|s| + n] == s + post[..n];
    }
  }

  lemma {:induction false} TrimLeftSnoc(s: string, post: string)
    requires TrimLeft(s) != []
    ensures TrimLeft(s + post) == TrimLeft(s) + post
  {
    if s != [] && IsSpace(s[0]) {
      TrimLeftSnoc(s[1..], post);
      assert (s + post)[1..] == s[1..] + post;
    }
  }

  lemma {:induction false} TrimLeftEmpty(s: string)
    ensures TrimLeft(s) == [] <==> AllSpace(s)
  {
    if s != [] && IsSpace(s[0]) {
      TrimLeftEmpty(s[1..]);
      assert s == [s[0]] + s[1..];
    }
  }

  // White space in front or behind makes no difference.
  lemma {:induction false} TrimPadded(pre: string, s: string, post: string)
    requires AllSpace(pre) && AllSpace(post)
    ensures Trim(pre + s + post) == Trim(s)
  {
    assert pre + s + post == pre + (s + post);
    TrimLeftPad(pre, s + post);
    if TrimLeft(s) == [] {
      TrimLeftEmpty(s);
      TrimLeftPad(s, post);
      TrimLeftEmpty(post);
      assert TrimLeft(s + post) == [];
    } else {
      TrimLeftSnoc(s, post);
      TrimRightPad(TrimLeft(s), post);
    }
  }

  lemma {:induction false} TrimLeftSuffix(s: string) returns (n: nat)
    ensures n <= |s| && TrimLeft(s) == s[n..] && AllSpace(s[..n])
  {
    n := 0;
    if s != [] && IsSpace(s[0]) {
      var m := TrimLeftSuffix(s[1..]);
      n := m + 1;
      assert s[..n] == [s[0]] + s[1..][..m];
    }
  }

  // Trimming only drops characters, so it introduces none.
  lemma {:induction false} TrimKeeps(s: string, c: char)
    requires c !in s
    ensures c !in Trim(s)
  {
    var n := TrimLeftSuffix(s);
  }

  // ----- case -----

  function LowerChar(c: char): char {
    if 'A' <= c <= 'Z' then ((c as int) + 32) as char else c
  }

  // strings.ToLower
  function Lower(s: string): (r: string) {
    seq(|s|, i requires 0 <= i < |s| => LowerChar(s[i]))
  }

  // strings.EqualFold
  predicate EqualFold(a: string, b: string) {
    Lower(a) == Lower(b)
  }

  // ----- splitting and joining -----

  lemma {:induction false} ConcatAssoc<T>(a: seq<T>, b: seq<T>, c: seq<T>)
    ensures a + (b + c) == (a + b) + c
  {
  }

  lemma {:induction false} ConsAppend<T>(x: T, a: seq<T>, b: seq<T>)
    ensures [x] + (a + b) == ([x] + a) + b
  {
  }

  // strings.Split with a one-character separator.
  function Split(s: string, sep: char): (parts: seq<string>)
    ensures |parts| >= 1
    decreases |s|
  {
    var i := IndexOf(s, sep);
    if i < 0 then [s] else [s[..i]] + Split(s[i + 1..], sep)
  }

  lemma {:induction false} SplitCons(a: string, b: string, sep: char)
    requires sep !in a
    ensures Split(a + [sep] + b, sep) == [a] + Split(b, sep)
  {
    var s := a + [sep] + b;
    IndexOfAt(a, sep, b);
    assert s[..|a|] == a && s[|a| + 1..] == b;
  }

  lemma {:induction false} SplitSingle(a: string, sep: char)
    requires sep !in a
    ensures Split(a, sep) == [a]
  {
    IndexOfNone(a, sep);
  }

  lemma {:induction false} SplitParts(s: string, sep: char)
    ensures forall p :: p in Split(s, sep) ==> sep !in p
    decreases |s|
  {
    var i := IndexOf(s, sep);
    IndexOfNone(s, sep);
    if i >= 0 {
      IndexOfFirst(s, sep);
      SplitParts(s[i + 1..], sep);
    }
  }

  lemma {:induction false} SplitKeeps(s: string, sep: char, c: char)
    requires c !in s
    ensures forall p :: p in Split(s, sep) ==> c !in p
    decreases |s|
  {
    var i := IndexOf(s, sep);
    if i >= 0 { SplitKeeps(s[i + 1..], sep, c); }
  }

  // Each line followed by a newline, as the builders write them.
  function LinesText(lines: seq<string>): (r: string) {
    if lines == [] then "" else lines[0] + "\n" + LinesText(lines[1..])
  }

  predicate NewlineFree(lines: seq<string>) {
    forall i :: 0 <= i < |lines| ==> '\n' !in lines[i]
  }

  lemma {:induction false} SplitLinesText(lines: seq<string>, rest: string)
    requires NewlineFree(lines)
    ensures Split(LinesText(lines) + rest, '\n') == lines + Split(rest, '\n')
  {
    if lines == [] {
      assert LinesText(lines) + rest == rest;
    } else {
      var head, tail := lines[0], lines[1..];
      var more := LinesText(tail) + rest;
      calc {
        Split(LinesText(lines) + rest, '\n');
        { assert LinesText(lines) + rest == head + ['\n'] + more; }
        Split(head + ['\n'] + more, '\n');
        { SplitCons(head, more, '\n'); }
        [head] + Split(more, '\n');
        { SplitLinesText(tail, rest); }
        [head] + (tail + Split(rest, '\n'));
        { ConsAppend(head, tail, Split(rest, '\n')); assert [head] + tail == lines; }
        lines + Split(rest, '\n');
      }
    }
  }

  lemma {:induction false} LinesTextAppend(a: seq<string>, b: seq<string>)
    ensures LinesText(a + b) == LinesText(a) + LinesText(b)
  {
    if a == [] {
      assert a + b == b;
    } else {
      calc {
        LinesText(a + b);
        { assert (a + b)[1..] == a[1..] + b; }
        a[0] + "\n" + LinesText(a[1..] + b);
        { LinesTextAppend(a[1..], b); }
        a[0] + "\n" + (LinesText(a[1..]) + LinesText(b));
        { ConcatAssoc(a[0] + "\n", LinesText(a[1..]), LinesText(b)); }
        LinesText(a) + LinesText(b);
      }
    }
  }

  // Appending to a text either extends its last line or opens a new one.
  function SnocParts(p: seq<string>, c: char, sep: char): seq<string>
    requires |p| >= 1
  {
    if c == sep then p + [""] else p[..|p| - 1] + [p[|p| - 1] + [c]]
  }

  lemma {:induction false} SnocCons(head: string, q: seq<string>, c: char, sep: char)
    requires |q| >= 1
    ensures [head] + SnocParts(q, c, sep) == SnocParts([head] + q, c, sep)
  {
  }

  lemma {:induction false} SplitSnoc(s: string, c: char, sep: char)
    ensures Split(s + [c], sep) == SnocParts(Split(s, sep), c, sep)
    decreases |s|
  {
    var i := IndexOf(s, sep);
    IndexOfNone(s, sep);
    if i < 0 {
      if c == sep {
        assert s + [c] == s + [sep] + "";
        SplitCons(s, "", sep);
      } else {
        SplitSingle(s + [c], sep);
      }
    } else {
      IndexOfFirst(s, sep);
      var head, tail := s[..i], s[i + 1..];
      SplitSnoc(tail, c, sep);
      assert s + [c] == head + [sep] + (tail + [c]);
      SplitCons(head, tail + [c], sep);
      SnocCons(head, Split(tail, sep), c, sep);
    }
  }

  // strings.Join with the separator ", ".
  function JoinComma(items: seq<string>): (r: string) {
    if items == [] then ""
    else if |items| == 1 then items[0]
    else items[0] + ", " + JoinComma(items[1..])
  }

  // An entry of a comma separated list: trimmed, not empty and comma free.
  predicate ListItem(s: string) {
    s != "" && Trimmed(s) && ',' !in s
  }

  predicate ListItemsOnly(items: seq<string>) {
    forall i :: 0 <= i < |items| ==> ListItem(items[i])
  }

  // The trimmed parts, or None when one of them is empty.
  function TrimAll(parts: seq<string>): (r: Option<seq<string>>)
    ensures r.Some? ==> |r.value| == |parts|
  {
    if parts == [] then Some([])
    else if Trim(parts[0]) == "" then None
    else
      match TrimAll(parts[1..])
      case None => None
      case Some(rest) => Some([Trim(parts[0])] + rest)
  }

  // The entries of a comma separated list, or None when one of them is empty.
  function ListItems(s: string): (r: Option<seq<string>>)
    ensures r.Some? ==> |r.value| >= 1
  {
    TrimAll(Split(s, ','))
  }

  lemma {:induction false} TrimAllKeeps(parts: seq<string>, c: char)
    requires TrimAll(parts).Some?
    requires forall i :: 0 <= i < |parts| ==> c !in parts[i]
    ensures forall i :: 0 <= i < |parts| ==> c !in TrimAll(parts).value[i]
  {
    if parts != [] {
      TrimKeeps(parts[0], c);
      TrimAllKeeps(parts[1..], c);
    }
  }

  lemma {:induction false} TrimAllTrimmed(parts: seq<string>)
    requires TrimAll(parts).Some?
    ensures forall i :: 0 <= i < |parts| ==> TrimAll(parts).value[i] != "" && Trimmed(TrimAll(parts).value[i])
  {
    if parts != [] { TrimAllTrimmed(parts[1..]); }
  }

  lemma {:induction false} ListItemsAreItems(s: string, c: char)
    requires ListItems(s).Some? && c !in s
    ensures ListItemsOnly(ListItems(s).value)
    ensures forall i :: 0 <= i < |ListItems(s).value| ==> c !in ListItems(s).value[i]
  {
    var parts := Split(s, ',');
    SplitParts(s, ',');
    SplitKeeps(s, ',', c);
    TrimAllTrimmed(parts);
    TrimAllKeeps(parts, ',');
    TrimAllKeeps(parts, c);
  }

  lemma {:induction false} TrimAllCons(head: string, parts: seq<string>)
    ensures TrimAll([head] + parts) ==
            if Trim(head) == "" || TrimAll(parts).None? then None else Some([Trim(head)] + TrimAll(parts).value)
  {
    assert ([head] + parts)[1..] == parts;
  }

  lemma {:induction false} JoinCommaCons(pad: string, items: seq<string>)
    requires |items| > 1
    ensures pad + JoinComma(items) == (pad + items[0]) + [','] + (" " + JoinComma(items[1..]))
  {
  }

  // splitList undoes strings.Join.
  lemma {:induction false} ListItemsOfJoin(items: seq<string>)
    requires |items| > 0 && ListItemsOnly(items)
    ensures ListItems(JoinComma(items)) == Some(items)
  {
    JoinedParts(items, "");
    assert "" + JoinComma(items) == JoinComma(items);
  }

  lemma {:induction false} JoinedParts(items: seq<string>, pad: string)
    requires |items| > 0 && ListItemsOnly(items)
    requires pad == "" || pad == " "
    ensures TrimAll(Split(pad + JoinComma(items), ',')) == Some(items)
    decreases |items|
  {
    var head := items[0];
    TrimPadded(pad, head, "");
    assert pad + head + "" == pad + head;
    TrimId(head);
    if |items| == 1 {
      SplitSingle(pad + head, ',');
      TrimAllCons(pad + head, []);
      assert [pad + head] + [] == [pad + head];
      assert items == [head] && [head] + [] == [head];
    } else {
      var tail := " " + JoinComma(items[1..]);
      calc {
        TrimAll(Split(pad + JoinComma(items), ','));
        { JoinCommaCons(pad, items); }
        TrimAll(Split((pad + head) + [','] + tail, ','));
        { SplitCons(pad + head, tail, ','); }
        TrimAll([pad + head] + Split(tail, ','));
        { TrimAllCons(pad + head, Split(tail, ',')); JoinedParts(items[1..], " "); }
        Some([head] + items[1..]);
        { assert [head] + items[1..] == items; }
        Some(items);
      }
    }
  }

  // A joined list brings in no characters but those of its entries, commas and blanks.
  lemma {:induction false} JoinChars(items: seq<string>, c: char)
    requires c != ',' && c != ' '
    requires forall i :: 0 <= i < |items| ==> c !in items[i]
    ensures c !in JoinComma(items)
  {
    if |items| > 1 { JoinChars(items[1..], c); }
  }

  lemma {:induction false} JoinTrimmed(items: seq<string>)
    requires |items| > 0 && ListItemsOnly(items)
    ensures JoinComma(items) != "" && Trimmed(JoinComma(items))
  {
    if |items| > 1 { JoinTrimmed(items[1..]); }
  }

  function Prepend(out: seq<string>, rest: Option<seq<string>>): Option<seq<string>> {
    match rest
    case None => None
    case Some(r) => Some(out + r)
  }

  lemma {:induction false} PrependNothing(rest: Option<seq<string>>)
    ensures Prepend([], rest) == rest
  {
    if rest.Some? { assert [] + rest.value == rest.value; }
  }

  lemma {:induction false} PrependStep(out: seq<string>, parts: seq<string>, i: nat)
    requires i < |parts|
    ensures Prepend(out, TrimAll(parts[i..])) ==
            if Trim(parts[i]) == "" then None else Prepend(out + [Trim(parts[i])], TrimAll(parts[i + 1..]))
  {
    assert parts[i..][1..] == parts[i + 1..];
    var rest := TrimAll(parts[i + 1..]);
    if rest.Some? { assert out + ([Trim(parts[i])] + rest.value) == out + [Trim(parts[i])] + rest.value; }
  }

  // splitList as the parser runs it.
  method SplitList(s: string) returns (r: Option<seq<string>>)
    ensures r == ListItems(s)
  {
    var parts := Split(s, ',');
    var out: seq<string> := [];
    var i := 0;
    assert parts[0..] == parts;
    PrependNothing(TrimAll(parts));
    while i < |parts|
      invariant 0 <= i <= |parts|
      invariant TrimAll(parts) == Prepend(out, TrimAll(parts[i..]))
    {
      var trim := Trim(parts[i]);
      PrependStep(out, parts, i);
      if |trim| == 0 {
        return None;
      }
      out := out + [trim];
      i := i + 1;
    }
    assert out + [] == out;
    r := Some(out);
  }

  // ----- one result list out of many lines -----

  function Gather<T, U>(f: T -> seq<U>, s: seq<T>): seq<U> {
    if s == [] then [] else f(s[0]) + Gather(f, s[1..])
  }

  lemma {:induction false} GatherAppend<T, U>(f: T -> seq<U>, a: seq<T>, b: seq<T>)
    ensures Gather(f, a + b) == Gather(f, a) + Gather(f, b)
  {
    if a == [] {
      assert a + b == b;
    } else {
      GatherAppend(f, a[1..], b);
      assert (a + b)[1..] == a[1..] + b;
      ConcatAssoc(f(a[0]), Gather(f, a[1..]), Gather(f, b));
    }
  }

  lemma {:induction false} GatherOne<T, U>(f: T -> seq<U>, x: T)
    ensures Gather(f, [x]) == f(x)
  {
    assert [x][1..] == [];
  }

  // One more step of a loop that appends f of each element.
  lemma {:induction false} GatherStep<T, U>(f: T -> seq<U>, out: seq<U>, s: seq<T>, n: nat)
    requires n < |s|
    ensures out + Gather(f, s[n..]) == (out + f(s[n])) + Gather(f, s[n + 1..])
  {
    assert s[n..][1..] == s[n + 1..];
    ConcatAssoc(out, f(s[n]), Gather(f, s[n + 1..]));
  }

  lemma {:induction false} GatherSame<T, U>(f: T -> seq<U>, g: T -> seq<U>, s: seq<T>)
    requires forall i :: 0 <= i < |s| ==> f(s[i]) == g(s[i])
    ensures Gather(f, s) == Gather(g, s)
  {
    if s != [] { GatherSame(f, g, s[1..]); }
  }

  lemma {:induction false} GatherNone<T, U>(f: T -> seq<U>, s: seq<T>)
    requires forall i :: 0 <= i < |s| ==> f(s[i]) == []
    ensures Gather(f, s) == []
  {
    if s != [] { GatherNone(f, s[1..]); }
  }

  // Splitting at a separator splits the two sides.
  lemma {:induction false} SplitConcat(a: string, b: string, sep: char)
    ensures Split(a + [sep] + b, sep) == Split(a, sep) + Split(b, sep)
    decreases |a|
  {
    var i := IndexOf(a, sep);
    IndexOfNone(a, sep);
    if i < 0 {
      SplitCons(a, b, sep);
    } else {
      IndexOfFirst(a, sep);
      var head, tail := a[..i], a[i + 1..];
      SplitConcat(tail, b, sep);
      assert a + [sep] + b == head + [sep] + (tail + [sep] + b);
      SplitCons(head, tail + [sep] + b, sep);
      ConsAppend(head, Split(tail, sep), Split(b, sep));
    }
  }
}
