// Thirty-two byte keys and their base64 form, section 4 of RFC 4648, read the
// way Go's base64.StdEncoding does: line breaks are skipped and the unused
// bits of the last character are not looked at.
module KeyText {
  import opened Text
  import opened Ip

  const KEY_LENGTH := 32

  type Key = k: seq<byte> | |k| == 32 witness [0, 0, 0, 0, 0, 0, 0, 0, 0, 0, 0, 0, 0, 0, 0, 0,
    0, 0, 0, 0, 0, 0, 0, 0, 0, 0, 0, 0, 0, 0, 0, 0]

  const ZERO_KEY: Key :=
    [0, 0, 0, 0, 0, 0, 0, 0, 0, 0, 0, 0, 0, 0, 0, 0,
     0, 0, 0, 0, 0, 0, 0, 0, 0, 0, 0, 0, 0, 0, 0, 0]

  // base64.StdEncoding's alphabet
  function SymbolOf(v: nat): (c: char)
    requires v < 64
  {
    if v < 26 then ((v + 65) as char)
    else if v < 52 then ((v + 71) as char)
    else if v < 62 then ((v - 4) as char)
    else if v == 62 then '+'
    else '/'
  }

  predicate IsSymbol(c: char) {
    'A' <= c <= 'Z' || 'a' <= c <= 'z' || '0' <= c <= '9' || c == '+' || c == '/'
  }

  function ValueOf(c: char): (v: nat)
    requires IsSymbol(c)
    ensures v < 64
  {
    if 'A' <= c <= 'Z' then (c as int) - 65
    else if 'a' <= c <= 'z' then (c as int) - 71
    else if '0' <= c <= '9' then (c as int) + 4
    else if c == '+' then 62
    else 63
  }

  lemma {:induction false} ValueOfSymbol(v: nat)
    requires v < 64
    ensures IsSymbol(SymbolOf(v)) && ValueOf(SymbolOf(v)) == v
  {
  }

  // Three bytes as four symbols.
  function Quad(x: byte, y: byte, z: byte): (s: string)
    ensures |s| == 4
  {
    [SymbolOf(x / 4), SymbolOf(x % 4 * 16 + y / 16), SymbolOf(y % 16 * 4 + z / 64), SymbolOf(z % 64)]
  }

  function Encode(bs: seq<byte>): (s: string) {
    if bs == [] then ""
    else if |bs| == 1 then Quad(bs[0], 0, 0)[..2] + "=="
    else if |bs| == 2 then Quad(bs[0], bs[1], 0)[..3] + "="
    else Quad(bs[0], bs[1], bs[2]) + Encode(bs[3..])
  }

  // One group of four characters and whatever follows it.
  function Decode(s: string): (r: Option<seq<byte>>) {
    if s == "" then Some([])
    else if |s| < 4 || !IsSymbol(s[0]) || !IsSymbol(s[1]) then None
    else
      var a, b := ValueOf(s[0]), ValueOf(s[1]);
      if s[2] == '=' then
        if s[3] == '=' && |s| == 4 then Some([a * 4 + b / 16]) else None
      else if !IsSymbol(s[2]) then None
      else
        var c := ValueOf(s[2]);
        if s[3] == '=' then
          if |s| == 4 then Some([a * 4 + b / 16, b % 16 * 16 + c / 4]) else None
        else if !IsSymbol(s[3]) then None
        else
          match Decode(s[4..])
          case None => None
          case Some(rest) => Some([a * 4 + b / 16, b % 16 * 16 + c / 4, c % 4 * 64 + ValueOf(s[3])] + rest)
  }

  // Three bytes as four six-bit values and back.
  lemma {:induction false} Sextets(x: byte, y: byte, z: byte)
    ensures var a, b, c, d := x / 4, x % 4 * 16 + y / 16, y % 16 * 4 + z / 64, z % 64;
            a * 4 + b / 16 == x && b % 16 * 16 + c / 4 == y && c % 4 * 64 + d == z
  {
    var b, c := x % 4 * 16 + y / 16, y % 16 * 4 + z / 64;
    assert b / 16 == x % 4 && b % 16 == y / 16;
    assert c / 4 == y % 16 && c % 4 == z / 64;
  }

  lemma {:induction false} QuadSymbols(x: byte, y: byte, z: byte)
    ensures var q := Quad(x, y, z);
            && IsSymbol(q[0]) && IsSymbol(q[1]) && IsSymbol(q[2]) && IsSymbol(q[3])
            && ValueOf(q[0]) == x / 4 && ValueOf(q[1]) == x % 4 * 16 + y / 16
            && ValueOf(q[2]) == y % 16 * 4 + z / 64 && ValueOf(q[3]) == z % 64
  {
    ValueOfSymbol(x / 4);
    ValueOfSymbol(x % 4 * 16 + y / 16);
    ValueOfSymbol(y % 16 * 4 + z / 64);
    ValueOfSymbol(z % 64);
  }

  lemma {:induction false} DecodeFour(q: string, t: string)
    requires |q| == 4 && IsSymbol(q[0]) && IsSymbol(q[1]) && IsSymbol(q[2]) && IsSymbol(q[3]) && Decode(t).Some?
    ensures
      var a, b, c, d := ValueOf(q[0]), ValueOf(q[1]), ValueOf(q[2]), ValueOf(q[3]);
      Decode(q + t) == Some([a * 4 + b / 16, b % 16 * 16 + c / 4, c % 4 * 64 + d] + Decode(t).value)
  {
    var s := q + t;
    assert s[4..] == t;
    assert s[0] == q[0] && s[1] == q[1] && s[2] == q[2] && s[3] == q[3];
  }

  lemma {:induction false} DecodeQuad(x: byte, y: byte, z: byte, t: string)
    requires Decode(t).Some?
    ensures Decode(Quad(x, y, z) + t) == Some([x, y, z] + Decode(t).value)
  {
    QuadSymbols(x, y, z);
    Sextets(x, y, z);
    DecodeFour(Quad(x, y, z), t);
  }

  lemma {:induction false} DecodePadded(x: byte, y: byte)
    ensures Decode(Quad(x, 0, 0)[..2] + "==") == Some([x])
    ensures Decode(Quad(x, y, 0)[..3] + "=") == Some([x, y])
  {
    QuadSymbols(x, 0, 0);
    Sextets(x, 0, 0);
    QuadSymbols(x, y, 0);
    Sextets(x, y, 0);
  }

  lemma {:induction false} DecodeShort(bs: seq<byte>)
    requires 1 <= |bs| <= 2
    ensures Decode(Encode(bs)) == Some(bs)
  {
    DecodePadded(bs[0], if |bs| == 1 then 0 else bs[1]);
    assert bs == if |bs| == 1 then [bs[0]] else [bs[0], bs[1]];
  }

  lemma {:induction false} DecodeOfEncode(bs: seq<byte>)
    ensures Decode(Encode(bs)) == Some(bs)
  {
    if bs == [] {
    } else if |bs| <= 2 {
      DecodeShort(bs);
    } else {
      DecodeOfEncode(bs[3..]);
      DecodeQuad(bs[0], bs[1], bs[2], Encode(bs[3..]));
      assert bs == [bs[0], bs[1], bs[2]] + bs[3..];
    }
  }

  predicate KeyChars(s: string) {
    forall i :: 0 <= i < |s| ==> IsSymbol(s[i]) || s[i] == '='
  }

  lemma {:induction false} EncodeChars(bs: seq<byte>)
    ensures KeyChars(Encode(bs))
    ensures bs != [] ==> Encode(bs) != ""
  {
    if bs != [] {
      QuadSymbols(bs[0], if |bs| > 1 then bs[1] else 0, if |bs| > 2 then bs[2] else 0);
      if |bs| > 2 { EncodeChars(bs[3..]); }
    }
  }

  // The decoder skips carriage returns and line feeds.
  function SkipBreaks(s: string): (r: string) {
    if s == "" then ""
    else if s[0] == '\r' || s[0] == '\n' then SkipBreaks(s[1..])
    else [s[0]] + SkipBreaks(s[1..])
  }

  lemma {:induction false} SkipNothing(s: string)
    requires KeyChars(s)
    ensures SkipBreaks(s) == s
  {
    if s != "" { SkipNothing(s[1..]); }
  }

  // Key.String
  function ShowKey(k: Key): (s: string) {
    Encode(k)
  }

  // parseKeyBase64
  function ParseKey(s: string): (r: Option<Key>) {
    match Decode(SkipBreaks(s))
    case None => None
    case Some(k) => if |k| == KEY_LENGTH then Some(k) else None
  }

  lemma {:induction false} ParseShowKey(k: Key)
    ensures ParseKey(ShowKey(k)) == Some(k)
    ensures KeyChars(ShowKey(k)) && ShowKey(k) != ""
  {
    EncodeChars(k);
    SkipNothing(ShowKey(k));
    DecodeOfEncode(k);
  }
}
