// The order of tunnel names in a list: by runs of digits and of other text,
// numbers by value and before text, letter case and spacing aside.
module NaturalSort {
  import opened Text
  import opened Decimal
  import opened Lex

  // ----- Tokens of a name -----

  datatype Token = Token(maybeString: string, maybeNumber: int)

  function SpanLength(s: string, digits: bool): (n: nat)
    ensures n <= |s|
    ensures forall i :: 0 <= i < n ==> IsDigit(s[i]) == digits
    ensures n < |s| ==> IsDigit(s[n]) != digits
  {
    if s == [] || IsDigit(s[0]) != digits then 0 else 1 + SpanLength(s[1..], digits)
  }

  // The maximal runs of digits and of other characters.
  function Runs(s: string): (r: seq<string>)
    decreases |s|
  {
    if s == [] then []
    else
      var n := SpanLength(s, IsDigit(s[0]));
      [s[..n]] + Runs(s[n..])
  }

  function Words(s: string): (r: seq<string>)
    decreases |s|
  {
    if s == [] then []
    else if IsSpace(s[0]) then Words(s[1..])
    else
      var n := WordLength(s);
      [s[..n]] + Words(s[n..])
  }

  function WordLength(s: string): (n: nat)
    ensures n <= |s|
    ensures s != [] && !IsSpace(s[0]) ==> n > 0
  {
    if s == [] || IsSpace(s[0]) then 0 else 1 + WordLength(s[1..])
  }

  function JoinBlank(words: seq<string>): (r: string) {
    if words == [] then ""
    else if |words| == 1 then words[0]
    else words[0] + " " + JoinBlank(words[1..])
  }

  function TokenOf(run: string): (t: Token) {
    var n := Atoi(run);
    if n.Some? then Token("", n.value) else Token(run, 0)
  }

  function TokensOf(runs: seq<string>): (ts: seq<Token>) {
    seq(|runs|, i requires 0 <= i < |runs| => TokenOf(runs[i]))
  }

  function Tokens(name: string): (ts: seq<Token>) {
    TokensOf(Runs(Lower(JoinBlank(Words(name)))))
  }

  method NewNaturalSortString(name: string) returns (ts: seq<Token>)
    ensures ts == Tokens(name)
  {
    var runs := Runs(Lower(JoinBlank(Words(name))));
    ts := [];
    for i := 0 to |runs|
      invariant ts == TokensOf(runs)[..i]
    {
      var n := Atoi(runs[i]);
      if n.Some? {
        ts := ts + [Token("", n.value)];
      } else {
        ts := ts + [Token(runs[i], 0)];
      }
    }
  }

  function Concat(parts: seq<string>): (r: string) {
    if parts == [] then "" else parts[0] + Concat(parts[1..])
  }

  predicate IsRun(s: string, digits: bool) {
    s != [] && forall i :: 0 <= i < |s| ==> IsDigit(s[i]) == digits
  }

  predicate Alternating(runs: seq<string>, digits: bool) {
    runs == [] || (IsRun(runs[0], digits) && Alternating(runs[1..], !digits))
  }

  // The runs make up the text, and digits take turns with the rest.
  lemma {:induction false} RunsAreMaximal(s: string)
    ensures Concat(Runs(s)) == s
    ensures Alternating(Runs(s), s != [] && IsDigit(s[0])) || s == []
    decreases |s|
  {
    if s != [] {
      var d := IsDigit(s[0]);
      var n := SpanLength(s, d);
      var head, rest := s[..n], s[n..];
      var runs := Runs(rest);
      assert Runs(s) == [head] + runs && s == head + rest;
      RunsAreMaximal(rest);
      RunsStep(head, rest, runs, d);
    }
  }

  lemma {:induction false} RunsStep(head: string, rest: string, runs: seq<string>, d: bool)
    requires IsRun(head, d) && (rest != [] ==> IsDigit(rest[0]) == !d)
    requires Concat(runs) == rest && (Alternating(runs, rest != [] && IsDigit(rest[0])) || rest == [])
    requires rest == [] ==> runs == []
    ensures Concat([head] + runs) == head + rest && Alternating([head] + runs, d)
  {
    assert ([head] + runs)[1..] == runs;
  }

  // ----- Comparing -----

  function Codes(s: string): (r: seq<int>) {
    seq(|s|, i requires 0 <= i < |s| => s[i] as int)
  }

  predicate TextLess(a: string, b: string) {
    LexLess(Codes(a), Codes(b))
  }

  function Cmp(a: Token, b: Token): (r: int) {
    if |a.maybeString| == 0 then
      if |b.maybeString| > 0 || a.maybeNumber < b.maybeNumber then -1
      else if a.maybeNumber > b.maybeNumber then 1
      else 0
    else if |b.maybeString| == 0 || TextLess(b.maybeString, a.maybeString) then 1
    else if TextLess(a.maybeString, b.maybeString) then -1
    else 0
  }

  predicate Less(xs: seq<Token>, ys: seq<Token>)
    decreases |ys|
  {
    if ys == [] then false
    else if xs == [] then true
    else
      var c := Cmp(xs[0], ys[0]);
      if c == 0 then Less(xs[1..], ys[1..]) else c < 0
  }

  predicate NameIsLess(a: string, b: string) {
    a != b && Less(Tokens(a), Tokens(b))
  }

  method TunnelNameIsLess(a: string, b: string) returns (r: bool)
    ensures r == NameIsLess(a, b)
  {
    if a == b {
      return false;
    }
    var na := NewNaturalSortString(a);
    var nb := NewNaturalSortString(b);
    r := TokensAreLess(na, nb);
  }

  method TokensAreLess(na: seq<Token>, nb: seq<Token>) returns (r: bool)
    ensures r == Less(na, nb)
  {
    for i := 0 to |nb|
      invariant i <= |na| && Less(na, nb) == Less(na[i..], nb[i..])
    {
      if i == |na| {
        return true;
      }
      assert na[i..][1..] == na[i + 1..] && nb[i..][1..] == nb[i + 1..];
      var c := Cmp(na[i], nb[i]);
      if c == -1 {
        return true;
      } else if c == 1 {
        return false;
      }
    }
    return false;
  }

  // ----- Text, tokens and their sequences are totally ordered -----

  lemma {:induction false} TextTrichotomy(a: string, b: string)
    ensures TextLess(a, b) ==> !TextLess(b, a) && a != b
    ensures TextLess(a, b) || a == b || TextLess(b, a)
  {
    LexTrichotomy(Codes(a), Codes(b));
    if Codes(a) == Codes(b) {
      forall i | 0 <= i < |a|
        ensures |b| == |a| && a[i] == b[i]
      {
        assert |Codes(a)| == |Codes(b)| && Codes(a)[i] == Codes(b)[i];
      }
      assert |Codes(a)| == |Codes(b)|;
    }
  }

  // What TokenOf makes: a text and no number, or a number alone.
  predicate Normal(t: Token) {
    t.maybeString == "" || t.maybeNumber == 0
  }

  lemma {:induction false} CmpOrder(a: Token, b: Token)
    requires Normal(a) && Normal(b)
    ensures Cmp(a, b) == -Cmp(b, a) && -1 <= Cmp(a, b) <= 1
    ensures Cmp(a, b) == 0 <==> a == b
  {
    TextTrichotomy(a.maybeString, b.maybeString);
    TextTrichotomy(b.maybeString, a.maybeString);
  }

  lemma {:induction false} CmpTransitive(a: Token, b: Token, c: Token)
    requires Normal(a) && Normal(b) && Normal(c) && Cmp(a, b) < 0 && Cmp(b, c) < 0
    ensures Cmp(a, c) < 0
  {
    if a.maybeString != "" {
      CmpOrder(a, b);
      CmpOrder(b, c);
      LexTransitive(Codes(a.maybeString), Codes(b.maybeString), Codes(c.maybeString));
      TextTrichotomy(a.maybeString, c.maybeString);
    }
  }

  predicate AllNormal(ts: seq<Token>) {
    forall i :: 0 <= i < |ts| ==> Normal(ts[i])
  }

  lemma {:induction false} TokensAreNormal(name: string)
    ensures AllNormal(Tokens(name))
  {
  }

  lemma {:induction false} LessTrichotomy(xs: seq<Token>, ys: seq<Token>)
    requires AllNormal(xs) && AllNormal(ys)
    ensures Less(xs, ys) ==> !Less(ys, xs) && xs != ys
    ensures !Less(xs, ys) && !Less(ys, xs) ==> xs == ys
    decreases |ys|
  {
    if xs != [] && ys != [] {
      CmpOrder(xs[0], ys[0]);
      LessTrichotomy(xs[1..], ys[1..]);
      if xs[0] == ys[0] && xs[1..] == ys[1..] {
        assert xs == [xs[0]] + xs[1..] && ys == [ys[0]] + ys[1..];
      }
    }
  }

  lemma {:induction false} LessTransitive(xs: seq<Token>, ys: seq<Token>, zs: seq<Token>)
    requires AllNormal(xs) && AllNormal(ys) && AllNormal(zs) && Less(xs, ys) && Less(ys, zs)
    ensures Less(xs, zs)
    decreases |zs|
  {
    if xs != [] {
      CmpOrder(xs[0], ys[0]);
      CmpOrder(ys[0], zs[0]);
      if xs[0] == ys[0] && ys[0] == zs[0] {
        LessTransitive(xs[1..], ys[1..], zs[1..]);
      } else if xs[0] != ys[0] && ys[0] != zs[0] {
        CmpTransitive(xs[0], ys[0], zs[0]);
      }
    }
  }

  // ----- The order of names -----

  predicate Incomparable(a: string, b: string) {
    !NameIsLess(a, b) && !NameIsLess(b, a)
  }

  // Two names are alike exactly when their tokens are.
  lemma {:induction false} IncomparableIffSameTokens(a: string, b: string)
    ensures Incomparable(a, b) <==> Tokens(a) == Tokens(b)
  {
    TokensAreNormal(a);
    TokensAreNormal(b);
    LessTrichotomy(Tokens(a), Tokens(b));
    LessTrichotomy(Tokens(b), Tokens(a));
  }

  // A strict weak order on all names.
  lemma {:induction false} StrictWeakOrder(a: string, b: string, c: string)
    ensures !NameIsLess(a, a)
    ensures NameIsLess(a, b) ==> !NameIsLess(b, a)
    ensures NameIsLess(a, b) && NameIsLess(b, c) ==> NameIsLess(a, c)
    ensures Incomparable(a, b) && Incomparable(b, c) ==> Incomparable(a, c)
  {
    TokensAreNormal(a);
    TokensAreNormal(b);
    TokensAreNormal(c);
    LessTrichotomy(Tokens(a), Tokens(b));
    LessTrichotomy(Tokens(a), Tokens(c));
    IncomparableIffSameTokens(a, b);
    IncomparableIffSameTokens(b, c);
    IncomparableIffSameTokens(a, c);
    if Less(Tokens(a), Tokens(b)) && Less(Tokens(b), Tokens(c)) {
      LessTransitive(Tokens(a), Tokens(b), Tokens(c));
    }
  }

  // ----- Which way the order goes -----

  // A name without blanks, all digits or free of them.
  predicate OneRun(name: string, digits: bool) {
    name != "" && forall i :: 0 <= i < |name| ==> IsDigit(name[i]) == digits && !IsSpace(name[i])
  }

  predicate NoBlanks(name: string) {
    name != "" && forall i :: 0 <= i < |name| ==> !IsSpace(name[i])
  }

  lemma {:induction false} WholeWord(s: string)
    requires forall i :: 0 <= i < |s| ==> !IsSpace(s[i])
    ensures WordLength(s) == |s|
  {
    if s != "" {
      WholeWord(s[1..]);
    }
  }

  lemma {:induction false} TokensWithoutBlanks(name: string)
    requires NoBlanks(name)
    ensures Tokens(name) == TokensOf(Runs(Lower(name)))
  {
    WholeWord(name);
    assert name[..|name|] == name && name[|name|..] == "";
    assert Words(name) == [name];
  }

  lemma {:induction false} WholeSpan(s: string, digits: bool)
    requires forall i :: 0 <= i < |s| ==> IsDigit(s[i]) == digits
    ensures SpanLength(s, digits) == |s|
  {
    if s != "" {
      WholeSpan(s[1..], digits);
    }
  }

  lemma {:induction false} RunsOfOne(s: string, digits: bool)
    requires IsRun(s, digits)
    ensures Runs(s) == [s]
  {
    WholeSpan(s, digits);
    assert s[..|s|] == s && s[|s|..] == "";
  }

  lemma {:induction false} LowerKeepsDigits(s: string)
    ensures |Lower(s)| == |s| && forall i :: 0 <= i < |s| ==> IsDigit(Lower(s)[i]) == IsDigit(s[i])
  {
  }

  lemma {:induction false} NoNumber(s: string)
    requires IsRun(s, false)
    ensures TokenOf(s) == Token(s, 0)
  {
    var digits := s[1..];
    if digits != "" {
      assert digits[0] == s[1];
    }
  }

  lemma {:induction false} LessOne(a: Token, b: Token)
    ensures Less([a], [b]) <==> Cmp(a, b) < 0
  {
  }

  // The one token of such a name.
  lemma {:induction false} TextToken(name: string)
    requires OneRun(name, false)
    ensures Tokens(name) == [Token(Lower(name), 0)]
  {
    TokensWithoutBlanks(name);
    LowerKeepsDigits(name);
    RunsOfOne(Lower(name), false);
    NoNumber(Lower(name));
  }

  // Names without digits are in the order of their lower-case text: at the
  // first place where they differ the smaller has ended or a smaller character.
  lemma {:induction false} TextInOrder(a: string, b: string)
    requires OneRun(a, false) && OneRun(b, false)
    ensures NameIsLess(a, b) <==> exists k: nat ::
      && k <= |a| && k < |b| && Lower(a)[..k] == Lower(b)[..k]
      && (k == |a| || Lower(a)[k] < Lower(b)[k])
  {
    var x, y := Lower(a), Lower(b);
    TextToken(a);
    TextToken(b);
    LessOne(Token(x, 0), Token(y, 0));
    TextTrichotomy(x, y);
    TextTrichotomy(y, x);
    LexDiffers(Codes(x), Codes(y));
    forall k: nat
      ensures DiffersAt(Codes(x), Codes(y), k) <==> k <= |x| && k < |y| && x[..k] == y[..k] && (k == |x| || x[k] < y[k])
    {
      if k <= |x| && k < |y| {
        CodesAgree(x, y, k);
      }
    }
  }

  lemma {:induction false} CodesAgree(x: string, y: string, k: nat)
    requires k <= |x| && k < |y|
    ensures Codes(x)[..k] == Codes(y)[..k] <==> x[..k] == y[..k]
    ensures k < |x| ==> (Codes(x)[k] < Codes(y)[k] <==> x[k] < y[k])
  {
    if Codes(x)[..k] == Codes(y)[..k] {
      forall i | 0 <= i < k
        ensures x[..k][i] == y[..k][i]
      {
        assert Codes(x)[..k][i] == Codes(y)[..k][i];
      }
    }
    if x[..k] == y[..k] {
      forall i | 0 <= i < k
        ensures Codes(x)[..k][i] == Codes(y)[..k][i]
      {
        assert x[..k][i] == y[..k][i];
      }
    }
  }

  // The digits a text begins with.
  function Leading(s: string): (r: string) {
    s[..SpanLength(s, true)]
  }

  lemma {:induction false} FirstToken(name: string)
    requires NoBlanks(name)
    ensures Tokens(name) != []
    ensures IsDigit(name[0]) ==> Tokens(name)[0] == TokenOf(Leading(name))
    ensures !IsDigit(name[0]) ==> Tokens(name)[0].maybeString != ""
  {
    var low := Lower(name);
    TokensWithoutBlanks(name);
    LowerKeepsDigits(name);
    var head := Runs(low)[0];
    if IsDigit(name[0]) {
      SpanOfLower(name);
    } else {
      NoNumber(head);
    }
  }

  lemma {:induction false} SpanOfLower(s: string)
    ensures SpanLength(Lower(s), true) == SpanLength(s, true) && Leading(Lower(s)) == Leading(s)
  {
    if s != "" && IsDigit(s[0]) {
      SpanOfLower(s[1..]);
      assert Lower(s)[1..] == Lower(s[1..]);
    }
  }

  // A name that begins with a number that fits comes before one that does not.
  lemma {:induction false} NumbersFirst(a: string, b: string)
    requires NoBlanks(a) && NoBlanks(b) && IsDigit(a[0]) && !IsDigit(b[0])
    requires NatOf(Leading(a)) <= MAX_INT64
    ensures NameIsLess(a, b)
  {
    FirstToken(a);
    FirstToken(b);
    assert Leading(a)[0] == a[0];
  }

  lemma {:induction false} SpanAppend(s: string, d: string, digits: bool)
    ensures SpanLength(s + d, digits) == if SpanLength(s, digits) < |s| then SpanLength(s, digits) else |s| + SpanLength(d, digits)
  {
    if s == "" {
      assert s + d == d;
    } else {
      assert (s + d)[1..] == s[1..] + d;
      SpanAppend(s[1..], d, digits);
    }
  }

  lemma {:induction false} LongerTextLater(s: string, d: string)
    requires d != ""
    ensures TextLess(s, s + d)
  {
    LexDiffers(Codes(s), Codes(s + d));
    assert Codes(s + d)[..|s|] == Codes(s)[..|s|];
    assert DiffersAt(Codes(s), Codes(s + d), |s|);
  }

  // What goes on after a run does not change the runs before it.
  lemma {:induction false} LongerLater(s: string, d: string)
    requires s != "" && d != "" && !(IsDigit(s[|s| - 1]) && IsDigit(d[0]))
    ensures Less(TokensOf(Runs(s)), TokensOf(Runs(s + d)))
    decreases |s|
  {
    var digits := IsDigit(s[0]);
    var n := SpanLength(s, digits);
    var all := s + d;
    SpanAppend(s, d, digits);
    if n < |s| {
      assert all[..n] == s[..n] && all[n..] == s[n..] + d;
      LongerLater(s[n..], d);
      SameHead(s[..n], Runs(s[n..]), Runs(s[n..] + d));
    } else {
      LastRun(s, d, digits);
    }
  }

  lemma {:induction false} SameHead(head: string, rs: seq<string>, more: seq<string>)
    requires Less(TokensOf(rs), TokensOf(more))
    ensures Less(TokensOf([head] + rs), TokensOf([head] + more))
  {
    var xs, ys := TokensOf([head] + rs), TokensOf([head] + more);
    assert xs[1..] == TokensOf(rs) && ys[1..] == TokensOf(more);
    CmpOrder(TokenOf(head), TokenOf(head));
  }

  // The runs of a text that goes on behind one run.
  lemma {:induction false} RunsGoOn(s: string, d: string, digits: bool)
    requires IsRun(s, digits) && d != ""
    ensures
      var k := SpanLength(d, digits);
      Runs(s + d) == [s + d[..k]] + Runs(d[k..])
  {
    var k := SpanLength(d, digits);
    WholeSpan(s, digits);
    SpanAppend(s, d, digits);
    assert s + d == (s + d[..k]) + d[k..];
    RunsFirst(s + d[..k], d[k..], digits);
  }

  lemma {:induction false} RunsFirst(head: string, rest: string, digits: bool)
    requires head != "" && IsDigit(head[0]) == digits && SpanLength(head + rest, digits) == |head|
    ensures Runs(head + rest) == [head] + Runs(rest)
  {
    var all := head + rest;
    assert all[..|head|] == head && all[|head|..] == rest;
  }

  lemma {:induction false} FirstLess(x: string, y: string, more: seq<string>)
    requires Cmp(TokenOf(x), TokenOf(y)) < 0 || (x == y && more != [])
    ensures Less(TokensOf([x]), TokensOf([y] + more))
  {
    var xs, ys := TokensOf([x]), TokensOf([y] + more);
    assert xs[0] == TokenOf(x) && ys[0] == TokenOf(y) && |xs| == 1;
    assert ys[1..] == TokensOf(more);
    CmpOrder(TokenOf(x), TokenOf(y));
  }

  lemma {:induction false} LastRun(s: string, d: string, digits: bool)
    requires IsRun(s, digits) && d != "" && !(digits && IsDigit(d[0]))
    ensures Less(TokensOf(Runs(s)), TokensOf(Runs(s + d)))
  {
    var k := SpanLength(d, digits);
    RunsOfOne(s, digits);
    RunsGoOn(s, d, digits);
    if k == 0 {
      assert s + d[..0] == s;
    } else {
      LongerToken(s, d[..k]);
    }
    FirstLess(s, s + d[..k], Runs(d[k..]));
  }

  lemma {:induction false} LongerToken(s: string, more: string)
    requires IsRun(s, false) && IsRun(more, false)
    ensures Cmp(TokenOf(s), TokenOf(s + more)) < 0
  {
    NoNumber(s);
    NoNumber(s + more);
    LongerTextLater(s, more);
    TextTrichotomy(s, s + more);
  }

  lemma {:induction false} LowerAppend(a: string, b: string)
    ensures Lower(a + b) == Lower(a) + Lower(b)
  {
  }

  lemma {:induction false} LowerLonger(s: string, d: string)
    requires s != "" && d != "" && !(IsDigit(s[|s| - 1]) && IsDigit(d[0]))
    ensures Less(TokensOf(Runs(Lower(s))), TokensOf(Runs(Lower(s) + Lower(d))))
  {
    LowerKeepsDigits(s);
    LowerKeepsDigits(d);
    LongerLater(Lower(s), Lower(d));
  }

  // A name comes before what it is a beginning of, unless a number goes on.
  lemma {:induction false} BeginningsFirst(name: string, more: string)
    requires NoBlanks(name) && NoBlanks(more) && !(IsDigit(name[|name| - 1]) && IsDigit(more[0]))
    ensures NameIsLess(name, name + more)
  {
    var all := name + more;
    LowerAppend(name, more);
    TokensWithoutBlanks(name);
    assert NoBlanks(all);
    TokensWithoutBlanks(all);
    LowerLonger(name, more);
    assert |all| != |name|;
  }

  // ----- Spacing and letter case -----

  lemma {:induction false} WordsSkip(w: string, s: string)
    requires AllSpace(w)
    ensures Words(w + s) == Words(s)
  {
    if w == "" {
      assert w + s == s;
    } else {
      assert (w + s)[1..] == w[1..] + s;
      WordsSkip(w[1..], s);
    }
  }

  lemma {:induction false} WordEnds(word: string, s: string)
    requires (forall i :: 0 <= i < |word| ==> !IsSpace(word[i])) && (s == "" || IsSpace(s[0]))
    ensures WordLength(word + s) == |word|
  {
    if word == "" {
      assert word + s == s;
    } else {
      assert (word + s)[1..] == word[1..] + s;
      WordEnds(word[1..], s);
    }
  }

  lemma {:induction false} WordsFirst(word: string, s: string)
    requires NoBlanks(word) && (s == "" || IsSpace(s[0]))
    ensures Words(word + s) == [word] + Words(s)
  {
    var all := word + s;
    WordEnds(word, s);
    assert all[..|word|] == word && all[|word|..] == s;
  }

  lemma {:induction false} TwoWords(w: string, a: string, gap: string, b: string, v: string)
    requires AllSpace(w) && NoBlanks(a) && gap != "" && AllSpace(gap) && NoBlanks(b) && AllSpace(v)
    ensures Words(w + (a + (gap + (b + v)))) == [a, b]
  {
    WordsSkip(w, a + (gap + (b + v)));
    WordsFirst(a, gap + (b + v));
    WordsSkip(gap, b + v);
    WordsFirst(b, v);
    WordsSkip(v, "");
    assert v + "" == v;
  }

  // Names of two words are alike whatever blanks stand around and between them,
  // and whatever the letter case.
  lemma {:induction false} SpacingAside(w: string, a: string, gap: string, b: string, v: string, c: string, d: string)
    requires AllSpace(w) && NoBlanks(a) && gap != "" && AllSpace(gap) && NoBlanks(b) && AllSpace(v)
    requires NoBlanks(c) && NoBlanks(d) && EqualFold(a, c) && EqualFold(b, d)
    ensures Incomparable(w + (a + (gap + (b + v))), c + (" " + d))
  {
    TwoWords(w, a, gap, b, v);
    TwoWords("", c, " ", d, "");
    assert "" + (c + (" " + (d + ""))) == c + (" " + d);
    LowerJoin(a, b);
    LowerJoin(c, d);
    IncomparableIffSameTokens(w + (a + (gap + (b + v))), c + (" " + d));
  }

  lemma {:induction false} LowerJoin(a: string, b: string)
    ensures Lower(JoinBlank([a, b])) == Lower(a) + " " + Lower(b)
  {
    assert [a, b][1..] == [b];
    assert Lower(a + " " + b) == Lower(a) + " " + Lower(b);
  }

  // Numbers are compared by value wherever the digits fit.
  lemma {:induction false} NumbersByValue(m: nat, n: nat)
    requires m <= MAX_INT64 && n <= MAX_INT64
    ensures Cmp(TokenOf(Itoa(m)), TokenOf(Itoa(n))) < 0 <==> m < n
  {
    AtoiOfItoa(m);
    AtoiOfItoa(n);
  }
}
