// IP addresses as byte strings (net.IP) and their text form: dotted IPv4, and
// IPv6 with the longest run of zero groups folded into "::".
module Ip {
  import opened Text
  import opened Decimal

  type byte = x: int | 0 <= x < 256
  type word = x: int | 0 <= x < 65536

  // net.IP: four or sixteen bytes.
  type IP = s: seq<byte> | |s| == 4 || |s| == 16 witness [0, 0, 0, 0]

  const V4_PREFIX: seq<byte> := [0, 0, 0, 0, 0, 0, 0, 0, 0, 0, 255, 255]

  // net.IP.To4
  function To4(ip: IP): (r: Option<IP>)
    ensures r.Some? ==> |r.value| == 4
    ensures |ip| == 4 ==> r == Some(ip)
  {
    if |ip| == 4 then Some(ip)
    else if ip[..12] == V4_PREFIX then Some(ip[12..])
    else None
  }

  // The sixteen-byte form of a four-byte address.
  function Mapped(ip: IP): (r: IP)
    requires |ip| == 4
    ensures |r| == 16 && To4(r) == Some(ip)
  {
    var r: seq<byte> := V4_PREFIX + ip;
    assert r[12..] == ip && r[..12] == V4_PREFIX;
    r
  }

  // ----- IPv4 text -----

  function ShowV4(ip: IP): (s: string)
    requires |ip| == 4
  {
    Itoa(ip[0]) + ['.'] + (Itoa(ip[1]) + ['.'] + (Itoa(ip[2]) + ['.'] + Itoa(ip[3])))
  }

  // One decimal field: digits, no superfluous leading zero, at most 255.
  function ParseOctet(s: string): (r: Option<byte>) {
    if s == [] || !AllDigits(s) || (|s| > 1 && s[0] == '0') || NatOf(s) > 255 then None
    else Some(NatOf(s))
  }

  function ParseV4(s: string): (r: Option<IP>)
    ensures r.Some? ==> |r.value| == 4
  {
    FourOctets(Split(s, '.'))
  }

  lemma {:induction false} OctetOfItoa(b: byte)
    ensures ParseOctet(Itoa(b)) == Some(b)
  {
    NatOfItoa(b);
    ItoaLeading(b);
    ItoaLength(b);
  }

  lemma {:induction false} SplitFour(a: string, b: string, c: string, d: string)
    requires '.' !in a && '.' !in b && '.' !in c && '.' !in d
    ensures Split(a + ['.'] + (b + ['.'] + (c + ['.'] + d)), '.') == [a, b, c, d]
  {
    var s2 := c + ['.'] + d;
    var s1 := b + ['.'] + s2;
    calc {
      Split(a + ['.'] + s1, '.');
      { SplitCons(a, s1, '.'); }
      [a] + Split(s1, '.');
      { SplitCons(b, s2, '.'); }
      [a] + ([b] + Split(s2, '.'));
      { SplitCons(c, d, '.'); SplitSingle(d, '.'); }
      [a] + ([b] + ([c] + [d]));
      [a, b, c, d];
    }
  }

  function FourOctets(f: seq<string>): (r: Option<IP>)
    ensures r.Some? ==> |r.value| == 4
  {
    if |f| != 4 then None
    else
      var a, b, c, d := ParseOctet(f[0]), ParseOctet(f[1]), ParseOctet(f[2]), ParseOctet(f[3]);
      if a.Some? && b.Some? && c.Some? && d.Some? then Some([a.value, b.value, c.value, d.value]) else None
  }

  lemma {:induction false} ParseShowV4(ip: IP)
    requires |ip| == 4
    ensures ParseV4(ShowV4(ip)) == Some(ip)
  {
    var a, b, c, d := Itoa(ip[0]), Itoa(ip[1]), Itoa(ip[2]), Itoa(ip[3]);
    SplitFour(a, b, c, d);
    assert FourOctets([a, b, c, d]) == Some(ip) by {
      OctetOfItoa(ip[0]);
      OctetOfItoa(ip[1]);
      OctetOfItoa(ip[2]);
      OctetOfItoa(ip[3]);
      assert ip == [ip[0], ip[1], ip[2], ip[3]];
    }
  }

  // ----- IPv6 text -----

  predicate IsHex(c: char) {
    '0' <= c <= '9' || 'a' <= c <= 'f' || 'A' <= c <= 'F'
  }

  predicate AllHex(s: string) {
    forall i :: 0 <= i < |s| ==> IsHex(s[i])
  }

  function HexValue(c: char): (d: nat)
    requires IsHex(c)
    ensures d < 16
  {
    if c <= '9' then (c as int) - 48 else if c <= 'F' then (c as int) - 55 else (c as int) - 87
  }

  function HexDigit(d: nat): (c: char)
    requires d < 16
    ensures IsHex(c) && HexValue(c) == d
  {
    if d < 10 then ((d + 48) as char) else ((d + 87) as char)
  }

  function HexNat(s: string): (n: nat)
    requires AllHex(s)
  {
    if s == [] then 0 else HexNat(s[..|s| - 1]) * 16 + HexValue(s[|s| - 1])
  }

  // One group, without leading zeros.
  function ShowHex(n: nat): (s: string)
    ensures |s| >= 1 && AllHex(s)
  {
    if n < 16 then [HexDigit(n)] else ShowHex(n / 16) + [HexDigit(n % 16)]
  }

  lemma {:induction false} HexNatOfShow(n: nat)
    ensures HexNat(ShowHex(n)) == n
  {
    if n >= 16 {
      HexNatOfShow(n / 16);
      var s := ShowHex(n);
      assert s[..|s| - 1] == ShowHex(n / 16);
    } else {
      assert ShowHex(n)[..0] == [];
    }
  }

  lemma {:induction false} ShowHexLength(w: word)
    ensures |ShowHex(w)| <= 4
  {
    if w >= 16 {
      var a := w / 16;
      if a >= 16 {
        var b := a / 16;
        assert |ShowHex(b)| <= 2 by { if b >= 16 { assert b / 16 < 16 && |ShowHex(b / 16)| == 1; } }
        assert |ShowHex(a)| == |ShowHex(b)| + 1;
      }
    }
  }

  function WordOf(hi: byte, lo: byte): word {
    var h: int := hi;
    h * 256 + lo
  }

  function Words(ip: IP): (ws: seq<word>)
    requires |ip| == 16
    ensures |ws| == 8
  {
    seq(8, i requires 0 <= i < 8 => WordOf(ip[2 * i], ip[2 * i + 1]))
  }

  function OfWords(ws: seq<word>): (ip: IP)
    requires |ws| == 8
    ensures |ip| == 16
  {
    seq(16, i requires 0 <= i < 16 => if i % 2 == 0 then ws[i / 2] / 256 else ws[i / 2] % 256)
  }

  lemma {:induction false} OfWordsOfWords(ip: IP)
    requires |ip| == 16
    ensures OfWords(Words(ip)) == ip
  {
    var r := OfWords(Words(ip));
    forall i | 0 <= i < 16 ensures r[i] == ip[i] {
      var j := i / 2;
      assert Words(ip)[j] == WordOf(ip[2 * j], ip[2 * j + 1]);
    }
  }

  function JoinHex(ws: seq<word>): (s: string) {
    if ws == [] then ""
    else if |ws| == 1 then ShowHex(ws[0])
    else ShowHex(ws[0]) + [':'] + JoinHex(ws[1..])
  }

  // A run of zero groups [from, to); from == to stands for none.
  datatype ZeroRun = ZeroRun(from: nat, to: nat)

  function ZeroEnd(ws: seq<word>, i: nat): (j: nat)
    requires i <= |ws|
    ensures i <= j <= |ws|
    ensures forall k :: i <= k < j ==> ws[k] == 0
    decreases |ws| - i
  {
    if i < |ws| && ws[i] == 0 then ZeroEnd(ws, i + 1) else i
  }

  // The first of the longest runs of at least two zero groups.
  function LongestRun(ws: seq<word>, i: nat, best: ZeroRun): (r: ZeroRun)
    requires i <= |ws|
    requires best.from <= best.to <= |ws| && forall k :: best.from <= k < best.to ==> ws[k] == 0
    ensures r.from <= r.to <= |ws| && forall k :: r.from <= k < r.to ==> ws[k] == 0
    decreases |ws| - i
  {
    if i == |ws| then best
    else
      var j := ZeroEnd(ws, i);
      LongestRun(ws, i + 1, if j - i >= 2 && j - i > best.to - best.from then ZeroRun(i, j) else best)
  }

  function ShowWords(ws: seq<word>, run: ZeroRun): (s: string)
    requires run.from <= run.to <= |ws|
  {
    if run.from == run.to then JoinHex(ws)
    else Broken(ws[..run.from], ws[run.to..])
  }

  // net.IP.String
  function Show(ip: IP): (s: string) {
    match To4(ip)
    case Some(four) => ShowV4(four)
    case None => ShowWords(Words(ip), LongestRun(Words(ip), 0, ZeroRun(0, 0)))
  }

  function HexRun(s: string): (n: nat)
    ensures n <= |s|
    ensures AllHex(s[..n])
  {
    if s == [] || !IsHex(s[0]) then 0
    else
      var n := HexRun(s[1..]) + 1;
      assert s[..n] == [s[0]] + s[1..][..n - 1];
      n
  }

  // The groups read so far, and how many of them stand before "::" (or -1).
  datatype Groups = Groups(words: seq<word>, gap: int)

  function ParseGroups(s: string, g: Groups): (r: Option<Groups>)
    decreases |s|
  {
    var n := HexRun(s);
    if |g.words| >= 8 || n == 0 || n > 4 then None
    else if n < |s| && s[n] == '.' then ParseTail4(s, g)
    else
      var v := HexNat(s[..n]);
      if v >= 65536 then None else AfterGroup(s[n..], Groups(g.words + [v], g.gap))
  }

  // What follows a group: the end, a colon and another group, or "::".
  function AfterGroup(t: string, g: Groups): (r: Option<Groups>)
    decreases |t|
  {
    if t == "" then Some(g)
    else if t[0] != ':' || |t| == 1 then None
    else if t[1] != ':' then ParseGroups(t[1..], g)
    else if g.gap >= 0 then None
    else if |t| == 2 then Some(Groups(g.words, |g.words|))
    else ParseGroups(t[2..], Groups(g.words, |g.words|))
  }

  // An IPv4 address in place of the last two groups.
  function ParseTail4(s: string, g: Groups): (r: Option<Groups>) {
    if |g.words| > 6 || (g.gap < 0 && |g.words| != 6) then None
    else
      match ParseV4(s)
      case None => None
      case Some(q) => Some(Groups(g.words + [WordOf(q[0], q[1]), WordOf(q[2], q[3])], g.gap))
  }

  // "::" stands for at least one zero group.
  function Expand(g: Groups): (r: Option<IP>)
    ensures r.Some? ==> |r.value| == 16
  {
    var n := |g.words|;
    if n == 8 && g.gap < 0 then Some(OfWords(g.words))
    else if n < 8 && 0 <= g.gap <= n then
      Some(OfWords(g.words[..g.gap] + seq(8 - n, _ => 0) + g.words[g.gap..]))
    else None
  }

  function ParseV6(s: string): (r: Option<IP>)
    ensures r.Some? ==> |r.value| == 16
  {
    if s == "::" then Expand(Groups([], 0))
    else
      var g := if HasPrefix(s, "::") then ParseGroups(s[2..], Groups([], 0)) else ParseGroups(s, Groups([], -1));
      match g
      case None => None
      case Some(g) => Expand(g)
  }

  // net.ParseIP: always the sixteen-byte form, and no zone.
  function ParseIP(s: string): (r: Option<IP>)
    ensures r.Some? ==> |r.value| == 16
  {
    if '%' in s then None
    else if ':' in s then ParseV6(s)
    else
      match ParseV4(s)
      case None => None
      case Some(q) => Some(Mapped(q))
  }

  // ----- reading back what was printed -----

  lemma {:induction false} HexRunOf(h: string, t: string)
    requires AllHex(h) && (t == "" || !IsHex(t[0]))
    ensures HexRun(h + t) == |h|
  {
    if h == [] {
      assert h + t == t;
    } else {
      HexRunOf(h[1..], t);
      assert (h + t)[1..] == h[1..] + t;
    }
  }

  // One printed group is read back, whatever follows it.
  lemma {:induction false} ParseOneGroup(w: word, t: string, g: Groups)
    requires |g.words| < 8
    requires t == "" || t[0] == ':'
    ensures ParseGroups(ShowHex(w) + t, g) == AfterGroup(t, Groups(g.words + [w], g.gap))
  {
    var h := ShowHex(w);
    var s := h + t;
    HexRunOf(h, t);
    HexNatOfShow(w);
    ShowHexLength(w);
    assert s[..|h|] == h && s[|h|..] == t;
  }

  // A group, a colon, and more groups.
  lemma {:induction false} ParseNextGroup(w: word, rest: string, g: Groups)
    requires |g.words| < 8 && rest != "" && IsHex(rest[0])
    ensures ParseGroups(ShowHex(w) + ([':'] + rest), g) == ParseGroups(rest, Groups(g.words + [w], g.gap))
  {
    var t := [':'] + rest;
    ParseOneGroup(w, t, g);
    assert t[1..] == rest && t[1] == rest[0];
  }

  lemma {:induction false} JoinHexStart(ws: seq<word>)
    requires |ws| > 0
    ensures JoinHex(ws) != "" && IsHex(JoinHex(ws)[0])
  {
  }

  lemma {:induction false} ParseJoined(ws: seq<word>, g: Groups)
    requires |ws| > 0 && |g.words| + |ws| <= 8
    ensures ParseGroups(JoinHex(ws), g) == Some(Groups(g.words + ws, g.gap))
    decreases |ws|
  {
    var g' := Groups(g.words + [ws[0]], g.gap);
    if |ws| == 1 {
      ParseOneGroup(ws[0], "", g);
      assert ShowHex(ws[0]) + "" == JoinHex(ws);
      assert ws == [ws[0]];
    } else {
      var rest := JoinHex(ws[1..]);
      calc {
        ParseGroups(JoinHex(ws), g);
        { assert JoinHex(ws) == ShowHex(ws[0]) + ([':'] + rest); }
        ParseGroups(ShowHex(ws[0]) + ([':'] + rest), g);
        { JoinHexStart(ws[1..]); ParseNextGroup(ws[0], rest, g); }
        ParseGroups(rest, g');
        { ParseJoined(ws[1..], g'); }
        Some(Groups(g'.words + ws[1..], g.gap));
        { assert g'.words + ws[1..] == g.words + ws; }
        Some(Groups(g.words + ws, g.gap));
      }
    }
  }

  lemma {:induction false} AfterGap(b: seq<word>, acc: seq<word>)
    requires |acc| + |b| < 8
    ensures AfterGroup("::" + JoinHex(b), Groups(acc, -1)) == Some(Groups(acc + b, |acc|))
  {
    var t := "::" + JoinHex(b);
    if b == [] {
      assert acc + b == acc;
    } else {
      JoinHexStart(b);
      assert t[2..] == JoinHex(b);
      ParseJoined(b, Groups(acc, |acc|));
    }
  }

  function Broken(a: seq<word>, b: seq<word>): string {
    JoinHex(a) + ("::" + JoinHex(b))
  }

  lemma {:induction false} BrokenCons(a: seq<word>, b: seq<word>)
    requires |a| > 1
    ensures Broken(a, b) == ShowHex(a[0]) + ([':'] + Broken(a[1..], b))
    ensures Broken(a[1..], b) != "" && IsHex(Broken(a[1..], b)[0])
  {
    JoinHexStart(a[1..]);
  }

  lemma {:induction false} ParseBroken(a: seq<word>, b: seq<word>, acc: seq<word>)
    requires |a| > 0 && |acc| + |a| + |b| < 8
    ensures ParseGroups(Broken(a, b), Groups(acc, -1)) == Some(Groups(acc + a + b, |acc| + |a|))
    decreases |a|
  {
    var g := Groups(acc, -1);
    var acc' := acc + [a[0]];
    if |a| == 1 {
      ParseOneGroup(a[0], "::" + JoinHex(b), g);
      AfterGap(b, acc');
      assert acc' == acc + a;
    } else {
      var rest := Broken(a[1..], b);
      BrokenCons(a, b);
      calc {
        ParseGroups(ShowHex(a[0]) + ([':'] + rest), g);
        { ParseNextGroup(a[0], rest, g); }
        ParseGroups(rest, Groups(acc', -1));
        { ParseBroken(a[1..], b, acc'); }
        Some(Groups(acc' + a[1..] + b, |acc'| + |a[1..]|));
        { assert acc' + a[1..] == acc + a; }
        Some(Groups(acc + a + b, |acc| + |a|));
      }
    }
  }

  // Dropping a run of zero groups and expanding the gap gives the groups back.
  lemma {:induction false} ExpandDropped(ws: seq<word>, run: ZeroRun)
    requires |ws| == 8 && run.from < run.to <= 8
    requires forall k :: run.from <= k < run.to ==> ws[k] == 0
    ensures Expand(Groups(ws[..run.from] + ws[run.to..], run.from)) == Some(OfWords(ws))
  {
    var a, b := ws[..run.from], ws[run.to..];
    assert (a + b)[..|a|] == a && (a + b)[|a|..] == b;
    assert ws == a + seq(8 - |a + b|, _ => 0) + b;
  }

  lemma {:induction false} ParseShowWords(ws: seq<word>, run: ZeroRun)
    requires |ws| == 8 && run.from <= run.to <= 8
    requires forall k :: run.from <= k < run.to ==> ws[k] == 0
    ensures ParseV6(ShowWords(ws, run)) == Some(OfWords(ws))
  {
    if run.from == run.to {
      JoinHexStart(ws);
      ParseJoined(ws, Groups([], -1));
      ParseFromGroup(JoinHex(ws));
      assert [] + ws == ws;
    } else {
      ExpandDropped(ws, run);
      ParseShortened(ws[..run.from], ws[run.to..]);
    }
  }

  lemma {:induction false} ParseShortened(a: seq<word>, b: seq<word>)
    requires |a| + |b| < 8
    ensures ParseV6(Broken(a, b)) == Expand(Groups(a + b, |a|))
  {
    if a == [] {
      ParseLeadingGap(b);
      assert Broken(a, b) == "::" + JoinHex(b) && a + b == b;
    } else {
      JoinHexStart(a);
      ParseBroken(a, b, []);
      ParseFromGroup(Broken(a, b));
      assert [] + a + b == a + b;
    }
  }

  lemma {:induction false} ParseFromGroup(s: string)
    requires s != "" && IsHex(s[0]) && ParseGroups(s, Groups([], -1)).Some?
    ensures ParseV6(s) == Expand(ParseGroups(s, Groups([], -1)).value)
  {
  }

  lemma {:induction false} ParseLeadingGap(b: seq<word>)
    requires |b| < 8
    ensures ParseV6("::" + JoinHex(b)) == Expand(Groups(b, 0))
  {
    var s := "::" + JoinHex(b);
    if b == [] {
      assert s == "::";
    } else {
      JoinHexStart(b);
      assert s[..2] == "::" && s[2..] == JoinHex(b);
      ParseJoined(b, Groups([], 0));
      assert [] + b == b;
    }
  }

  // The characters an address is printed with.
  predicate AddressChar(c: char) {
    IsHex(c) || c == '.' || c == ':'
  }

  predicate AddressText(s: string) {
    s != "" && forall i :: 0 <= i < |s| ==> AddressChar(s[i])
  }

  predicate GroupText(s: string) {
    forall i :: 0 <= i < |s| ==> IsHex(s[i]) || s[i] == ':'
  }

  lemma {:induction false} JoinHexChars(ws: seq<word>)
    ensures GroupText(JoinHex(ws))
  {
    if |ws| > 1 { JoinHexChars(ws[1..]); }
  }

  lemma {:induction false} ShowWordsChars(ws: seq<word>, run: ZeroRun)
    requires |ws| == 8 && run.from <= run.to <= 8
    ensures GroupText(ShowWords(ws, run)) && ':' in ShowWords(ws, run)
  {
    if run.from == run.to {
      JoinHexChars(ws);
      assert JoinHex(ws)[|ShowHex(ws[0])|] == ':';
    } else {
      var a, b := ws[..run.from], ws[run.to..];
      JoinHexChars(a);
      JoinHexChars(b);
      assert Broken(a, b)[|JoinHex(a)|] == ':';
    }
  }

  lemma {:induction false} ShowIsAddressText(ip: IP)
    ensures AddressText(Show(ip))
    ensures To4(ip).None? <==> ':' in Show(ip)
  {
    if To4(ip).None? {
      ShowWordsChars(Words(ip), LongestRun(Words(ip), 0, ZeroRun(0, 0)));
    }
  }

  // net.ParseIP undoes net.IP.String, up to the sixteen-byte form it returns.
  lemma {:induction false} ParseShow(ip: IP)
    ensures ParseIP(Show(ip)) == Some(if |ip| == 4 then Mapped(ip) else ip)
  {
    ShowIsAddressText(ip);
    match To4(ip)
    case Some(four) =>
      ParseShowV4(four);
      if |ip| == 16 { assert ip == V4_PREFIX + four; }
    case None =>
      var ws := Words(ip);
      ParseShowWords(ws, LongestRun(ws, 0, ZeroRun(0, 0)));
      OfWordsOfWords(ip);
  }
}
