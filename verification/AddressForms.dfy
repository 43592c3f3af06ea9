// Every way to write an address that net.ParseIP takes: IPv4 in its one form,
// IPv6 with groups of any spelling, a gap anywhere, and an IPv4 tail.
module AddressForms {
  import opened Text
  import opened Decimal
  import opened Ip

  // ----- IPv4 -----

  lemma {:induction false} ItoaOfNat(s: string)
    requires s != "" && AllDigits(s) && (|s| == 1 || s[0] != '0')
    ensures Itoa(NatOf(s)) == s
    ensures s[0] != '0' ==> NatOf(s) > 0
  {
    var n := |s| - 1;
    var front := s[..n];
    assert s == front + [s[n]] && Digit(DigitValue(s[n])) == s[n];
    if n == 0 {
      assert NatOf(front) == 0;
    } else {
      ItoaOfNat(front);
    }
  }

  lemma {:induction false} OctetExact(s: string, b: byte)
    ensures ParseOctet(s) == Some(b) <==> s == Itoa(b)
  {
    OctetOfItoa(b);
    if ParseOctet(s) == Some(b) {
      ItoaOfNat(s);
    }
  }

  // A text whose first part is cut off.
  lemma {:induction false} SplitFirst(s: string, sep: char)
    requires |Split(s, sep)| > 1
    ensures
      var i := IndexOf(s, sep);
      i >= 0 && s == s[..i] + [sep] + s[i + 1..] && Split(s, sep) == [s[..i]] + Split(s[i + 1..], sep)
  {
  }

  lemma {:induction false} JoinFour(s: string)
    requires |Split(s, '.')| == 4
    ensures
      var f := Split(s, '.');
      s == f[0] + ['.'] + (f[1] + ['.'] + (f[2] + ['.'] + f[3]))
  {
    SplitFirst(s, '.');
    var s1 := s[IndexOf(s, '.') + 1..];
    SplitFirst(s1, '.');
    var s2 := s1[IndexOf(s1, '.') + 1..];
    SplitFirst(s2, '.');
  }

  // A text without a colon is an address exactly when it is the printed form of
  // one: four numbers up to 255, without superfluous zeros.
  lemma {:induction false} FourExact(s: string, ip: IP)
    requires |ip| == 4
    ensures ParseV4(s) == Some(ip) <==> s == ShowV4(ip)
  {
    ParseShowV4(ip);
    var f := Split(s, '.');
    if ParseV4(s) == Some(ip) {
      JoinFour(s);
      OctetExact(f[0], ip[0]);
      OctetExact(f[1], ip[1]);
      OctetExact(f[2], ip[2]);
      OctetExact(f[3], ip[3]);
    }
  }

  // ----- IPv6 -----

  // One to four hexadecimal digits, zeros in front and either letter case.
  predicate GroupSpelling(g: string) {
    1 <= |g| <= 4 && AllHex(g)
  }

  predicate Spellings(gs: seq<string>) {
    forall i :: 0 <= i < |gs| ==> GroupSpelling(gs[i])
  }

  lemma {:induction false} GroupValue(g: string)
    requires GroupSpelling(g)
    ensures HexNat(g) < 65536
  {
    HexBound(g);
  }

  function Power16(n: nat): (p: nat) {
    if n == 0 then 1 else 16 * Power16(n - 1)
  }

  lemma {:induction false} HexBound(g: string)
    requires AllHex(g) && |g| <= 4
    ensures HexNat(g) < Power16(|g|) <= 65536
  {
    if g != "" {
      HexBound(g[..|g| - 1]);
    }
  }

  lemma {:induction false} LetterCase(g: string)
    requires AllHex(g)
    ensures AllHex(Lower(g)) && HexNat(Lower(g)) == HexNat(g)
  {
    if g != "" {
      var n := |g| - 1;
      LetterCase(g[..n]);
      assert Lower(g)[..n] == Lower(g[..n]);
    }
  }

  function Values(gs: seq<string>): (ws: seq<word>)
    requires Spellings(gs)
    ensures |ws| == |gs|
  {
    if gs == [] then []
    else
      GroupValue(gs[0]);
      [HexNat(gs[0])] + Values(gs[1..])
  }

  function JoinColon(gs: seq<string>): (s: string) {
    if gs == [] then ""
    else if |gs| == 1 then gs[0]
    else gs[0] + [':'] + JoinColon(gs[1..])
  }

  lemma {:induction false} ReadGroup(h: string, t: string, g: Groups)
    requires GroupSpelling(h) && |g.words| < 8 && (t == "" || t[0] == ':')
    ensures HexNat(h) < 65536
    ensures ParseGroups(h + t, g) == AfterGroup(t, Groups(g.words + [HexNat(h)], g.gap))
  {
    var s := h + t;
    HexRunOf(h, t);
    GroupValue(h);
    assert s[..|h|] == h && s[|h|..] == t;
  }

  lemma {:induction false} NextGroup(rest: string, g: Groups)
    requires rest != "" && IsHex(rest[0])
    ensures AfterGroup([':'] + rest, g) == ParseGroups(rest, g)
  {
    var t := [':'] + rest;
    assert t[1..] == rest && t[1] == rest[0];
  }

  lemma {:induction false} JoinStarts(gs: seq<string>)
    requires gs != [] && Spellings(gs)
    ensures JoinColon(gs) != "" && IsHex(JoinColon(gs)[0])
  {
  }

  // A group, a colon, and another group.
  lemma {:induction false} ReadAndGoOn(h: string, rest: string, g: Groups)
    requires GroupSpelling(h) && |g.words| < 8 && rest != "" && IsHex(rest[0])
    ensures HexNat(h) < 65536
    ensures ParseGroups(h + ([':'] + rest), g) == ParseGroups(rest, Groups(g.words + [HexNat(h)], g.gap))
  {
    ReadGroup(h, [':'] + rest, g);
    NextGroup(rest, Groups(g.words + [HexNat(h)], g.gap));
  }

  lemma {:induction false} ValuesCons(h: string, gs: seq<string>, words: seq<word>)
    requires GroupSpelling(h) && Spellings(gs)
    ensures Spellings([h] + gs) && HexNat(h) < 65536
    ensures words + Values([h] + gs) == words + [HexNat(h)] + Values(gs)
  {
    GroupValue(h);
    assert ([h] + gs)[1..] == gs;
  }

  lemma {:induction false} JoinCons(gs: seq<string>, t: string)
    requires |gs| > 1
    ensures JoinColon(gs) + t == gs[0] + ([':'] + (JoinColon(gs[1..]) + t))
  {
  }

  // Groups and whatever follows them.
  lemma {:induction false} ReadGroups(gs: seq<string>, t: string, g: Groups)
    requires gs != [] && Spellings(gs) && |g.words| + |gs| <= 8 && (t == "" || t[0] == ':')
    ensures ParseGroups(JoinColon(gs) + t, g) == AfterGroup(t, Groups(g.words + Values(gs), g.gap))
  {
    var h, more := gs[0], gs[1..];
    assert gs == [h] + more;
    ValuesCons(h, more, g.words);
    var g' := Groups(g.words + [HexNat(h)], g.gap);
    if more == [] {
      assert g'.words + Values(more) == g'.words;
      ReadGroup(h, t, g);
    } else {
      var rest := JoinColon(more) + t;
      JoinStarts(more);
      JoinCons(gs, t);
      ReadAndGoOn(h, rest, g);
      ReadGroups(more, t, g');
    }
  }

  // The last groups, which an IPv4 address may stand for two of.
  datatype Tail = Plain(groups: seq<string>) | Mixed(groups: seq<string>, four: IP)

  predicate TailOk(t: Tail) {
    Spellings(t.groups) && (t.Mixed? ==> |t.four| == 4)
  }

  function TailText(t: Tail): (s: string)
    requires TailOk(t)
  {
    if t.Plain? then JoinColon(t.groups)
    else if t.groups == [] then ShowV4(t.four)
    else JoinColon(t.groups) + ([':'] + ShowV4(t.four))
  }

  function TailWords(t: Tail): (ws: seq<word>)
    requires TailOk(t)
    ensures |ws| == |t.groups| + if t.Mixed? then 2 else 0
  {
    if t.Plain? then Values(t.groups)
    else Values(t.groups) + [WordOf(t.four[0], t.four[1]), WordOf(t.four[2], t.four[3])]
  }

  lemma {:induction false} ReadFour(four: IP, g: Groups)
    requires |four| == 4 && |g.words| <= 6 && (g.gap < 0 ==> |g.words| == 6)
    ensures ParseGroups(ShowV4(four), g)
      == Some(Groups(g.words + [WordOf(four[0], four[1]), WordOf(four[2], four[3])], g.gap))
  {
    var s := ShowV4(four);
    var h := Itoa(four[0]);
    var t := s[|h|..];
    assert s == h + t && t[0] == '.';
    ItoaLength(four[0]);
    HexRunOf(h, t);
    ParseShowV4(four);
  }

  lemma {:induction false} ReadMixed(gs: seq<string>, four: IP, g: Groups)
    requires Spellings(gs) && |four| == 4 && |g.words| + |gs| <= 6 && (g.gap < 0 ==> |g.words| + |gs| == 6)
    ensures ParseGroups(TailText(Mixed(gs, four)), g) == Some(Groups(g.words + TailWords(Mixed(gs, four)), g.gap))
  {
    var s := ShowV4(four);
    var last := [WordOf(four[0], four[1]), WordOf(four[2], four[3])];
    var g' := Groups(g.words + Values(gs), g.gap);
    assert g.words + (Values(gs) + last) == g'.words + last;
    ReadFour(four, g');
    if gs == [] {
      assert g'.words == g.words;
    } else {
      ReadGroups(gs, [':'] + s, g);
      NextGroup(s, g');
    }
  }

  lemma {:induction false} ReadTail(t: Tail, g: Groups)
    requires TailOk(t) && (t.Plain? ==> t.groups != []) && |g.words| + |TailWords(t)| <= 8
    requires t.Mixed? && g.gap < 0 ==> |g.words| + |t.groups| == 6
    ensures ParseGroups(TailText(t), g) == Some(Groups(g.words + TailWords(t), g.gap))
  {
    if t.Plain? {
      ReadGroups(t.groups, "", g);
      assert JoinColon(t.groups) + "" == JoinColon(t.groups);
    } else {
      ReadMixed(t.groups, t.four, g);
    }
  }

  // ----- Whole addresses -----

  predicate SixChars(s: string) {
    forall i :: 0 <= i < |s| ==> IsHex(s[i]) || s[i] == ':' || s[i] == '.'
  }

  lemma {:induction false} JoinChars6(gs: seq<string>)
    requires Spellings(gs)
    ensures SixChars(JoinColon(gs))
  {
    if |gs| > 1 {
      JoinChars6(gs[1..]);
    }
  }

  lemma {:induction false} FourChars(four: IP)
    requires |four| == 4
    ensures SixChars(ShowV4(four))
  {
    assert SixChars(Itoa(four[0])) && SixChars(Itoa(four[1])) && SixChars(Itoa(four[2])) && SixChars(Itoa(four[3]));
  }

  lemma {:induction false} CharsAppend(a: string, b: string)
    requires SixChars(a) && SixChars(b)
    ensures SixChars(a + b)
  {
  }

  lemma {:induction false} TailChars(t: Tail)
    requires TailOk(t)
    ensures SixChars(TailText(t))
  {
    JoinChars6(t.groups);
    if t.Mixed? {
      FourChars(t.four);
      CharsAppend([':'], ShowV4(t.four));
      CharsAppend(JoinColon(t.groups), [':'] + ShowV4(t.four));
    }
  }

  lemma {:induction false} TailStarts(t: Tail)
    requires TailOk(t) && (t.Plain? ==> t.groups != [])
    ensures TailText(t) != "" && IsHex(TailText(t)[0])
  {
    if t.groups != [] {
      JoinStarts(t.groups);
    }
  }

  lemma {:induction false} ColonIn(a: string, b: string)
    ensures ':' in a + ([':'] + b)
  {
    assert (a + ([':'] + b))[|a|] == ':';
  }

  lemma {:induction false} SixIsRead(s: string)
    requires SixChars(s) && ':' in s
    ensures ParseIP(s) == ParseV6(s)
  {
    assert '%' !in s;
  }

  lemma {:induction false} FullChars(t: Tail)
    requires TailOk(t) && |TailWords(t)| == 8
    ensures SixChars(TailText(t)) && ':' in TailText(t)
  {
    TailChars(t);
    if t.Mixed? {
      ColonIn(JoinColon(t.groups), ShowV4(t.four));
    } else {
      ColonInJoin(t.groups);
    }
  }

  lemma {:induction false} ColonInJoin(gs: seq<string>)
    requires |gs| > 1
    ensures ':' in JoinColon(gs)
  {
    var rest := JoinColon(gs[1..]);
    ColonIn(gs[0], rest);
    assert JoinColon(gs) == gs[0] + ([':'] + rest);
  }

  lemma {:induction false} FullRead(t: Tail)
    requires TailOk(t) && |TailWords(t)| == 8
    ensures ParseV6(TailText(t)) == Expand(Groups(TailWords(t), -1))
  {
    TailStarts(t);
    ReadTail(t, Groups([], -1));
    assert [] + TailWords(t) == TailWords(t);
    ParseFromGroup(TailText(t));
  }

  // An IPv6 address in full: eight groups, or six and an IPv4 address.
  lemma {:induction false} FullForm(t: Tail)
    requires TailOk(t) && |TailWords(t)| == 8
    ensures ParseIP(TailText(t)) == Some(OfWords(TailWords(t)))
  {
    FullChars(t);
    SixIsRead(TailText(t));
    FullRead(t);
  }

  function GapText(a: seq<string>, t: Tail): (s: string)
    requires Spellings(a) && TailOk(t)
  {
    JoinColon(a) + ("::" + TailText(t))
  }

  function GapWords(a: seq<string>, t: Tail): (ws: seq<word>)
    requires Spellings(a) && TailOk(t) && |a| + |TailWords(t)| < 8
    ensures |ws| == 8
  {
    Values(a) + seq(8 - |a| - |TailWords(t)|, _ => 0) + TailWords(t)
  }

  // What follows a gap.
  lemma {:induction false} ReadBehind(t: Tail, ws: seq<word>)
    requires TailOk(t) && |ws| + |TailWords(t)| < 8
    ensures AfterGroup("::" + TailText(t), Groups(ws, -1)) == Some(Groups(ws + TailWords(t), |ws|))
  {
    var s := "::" + TailText(t);
    if t.Plain? && t.groups == [] {
      assert s == "::" && ws + TailWords(t) == ws;
    } else {
      TailStarts(t);
      assert s[2..] == TailText(t);
      ReadTail(t, Groups(ws, |ws|));
    }
  }

  lemma {:induction false} ExpandGap(a: seq<word>, b: seq<word>)
    requires |a| + |b| < 8
    ensures Expand(Groups(a + b, |a|)) == Some(OfWords(a + seq(8 - |a| - |b|, _ => 0) + b))
  {
    assert (a + b)[..|a|] == a && (a + b)[|a|..] == b;
  }

  lemma {:induction false} GapRead(a: seq<string>, t: Tail)
    requires Spellings(a) && TailOk(t) && |a| + |TailWords(t)| < 8
    ensures ParseV6(GapText(a, t)) == Expand(Groups(Values(a) + TailWords(t), |a|))
  {
    var s := GapText(a, t);
    var behind := "::" + TailText(t);
    if a == [] {
      assert s == behind && s[..2] == "::" && s[2..] == TailText(t);
      assert Values(a) + TailWords(t) == TailWords(t);
      if t.Plain? && t.groups == [] {
        assert s == "::";
      } else {
        TailStarts(t);
        ReadTail(t, Groups([], 0));
        assert [] + TailWords(t) == TailWords(t);
      }
    } else {
      JoinStarts(a);
      ReadGroups(a, behind, Groups([], -1));
      assert [] + Values(a) == Values(a);
      ReadBehind(t, Values(a));
      ParseFromGroup(s);
    }
  }

  lemma {:induction false} GapChars(a: seq<string>, t: Tail)
    requires Spellings(a) && TailOk(t)
    ensures SixChars(GapText(a, t)) && ':' in GapText(a, t)
  {
    var tail := TailText(t);
    JoinChars6(a);
    TailChars(t);
    CharsAppend("::", tail);
    CharsAppend(JoinColon(a), "::" + tail);
    ColonIn(JoinColon(a), [':'] + tail);
    assert "::" + tail == [':'] + ([':'] + tail);
  }

  lemma {:induction false} GapExpanded(ip: Option<IP>, a: seq<string>, t: Tail)
    requires Spellings(a) && TailOk(t) && |a| + |TailWords(t)| < 8
    requires ip == Expand(Groups(Values(a) + TailWords(t), |a|))
    ensures ip == Some(OfWords(GapWords(a, t)))
  {
    ExpandGap(Values(a), TailWords(t));
  }

  lemma {:induction false} GapIsRead(a: seq<string>, t: Tail)
    requires Spellings(a) && TailOk(t) && |a| + |TailWords(t)| < 8
    ensures ParseV6(GapText(a, t)) == Some(OfWords(GapWords(a, t)))
  {
    GapRead(a, t);
    GapExpanded(ParseV6(GapText(a, t)), a, t);
  }

  // An IPv6 address with a gap, at either end or in between: the gap stands for
  // the groups that are missing, at least one.
  lemma {:induction false} GapForm(a: seq<string>, t: Tail)
    requires Spellings(a) && TailOk(t) && |a| + |TailWords(t)| < 8
    ensures ParseIP(GapText(a, t)) == Some(OfWords(GapWords(a, t)))
  {
    var s := GapText(a, t);
    GapChars(a, t);
    SixIsRead(s);
    GapIsRead(a, t);
  }

  // In any address: of its groups, either letter case and any zeros in front.
  lemma {:induction false} SpelledAlike(g: string, h: string)
    requires GroupSpelling(g) && GroupSpelling(h)
    requires Lower(g) == Lower(h) || g == ['0'] + h
    ensures HexNat(g) == HexNat(h)
  {
    LetterCase(g);
    LetterCase(h);
    if g == ['0'] + h {
      ZeroInFront(h);
    }
  }

  lemma {:induction false} ZeroInFront(h: string)
    requires AllHex(h)
    ensures AllHex(['0'] + h) && HexNat(['0'] + h) == HexNat(h)
  {
    var g := ['0'] + h;
    if h == "" {
      assert g[..0] == "";
    } else {
      ZeroInFront(h[..|h| - 1]);
      assert g[..|g| - 1] == ['0'] + h[..|h| - 1];
    }
  }
}
