// Decimal numbers as Go's strconv prints and reads them.
module Decimal {
  import opened Text

  const MAX_INT64: int := 9223372036854775807

  predicate IsDigit(c: char) {
    '0' <= c <= '9'
  }

  predicate AllDigits(s: string) {
    forall i :: 0 <= i < |s| ==> IsDigit(s[i])
  }

  function Digit(d: nat): (c: char)
    requires d < 10
    ensures IsDigit(c)
  {
    ((d + 48) as char)
  }

  function DigitValue(c: char): (d: nat)
    requires IsDigit(c)
    ensures d < 10
  {
    (c as int) - 48
  }

  // The value of a run of digits.
  function NatOf(s: string): (n: nat)
    requires AllDigits(s)
  {
    if s == [] then 0 else NatOf(s[..|s| - 1]) * 10 + DigitValue(s[|s| - 1])
  }

  // strconv.Itoa for a number that is not negative.
  function Itoa(n: nat): (s: string)
    ensures |s| >= 1 && AllDigits(s)
  {
    if n < 10 then [Digit(n)] else Itoa(n / 10) + [Digit(n % 10)]
  }

  lemma {:induction false} NatOfItoa(n: nat)
    ensures NatOf(Itoa(n)) == n
  {
    if n >= 10 {
      NatOfItoa(n / 10);
      var s := Itoa(n);
      assert s[..|s| - 1] == Itoa(n / 10);
    } else {
      assert Itoa(n)[..0] == [];
    }
  }

  lemma {:induction false} ItoaInjective(m: nat, n: nat)
    requires Itoa(m) == Itoa(n)
    ensures m == n
  {
    NatOfItoa(m);
    NatOfItoa(n);
  }

  // The first digit is zero only for zero itself.
  lemma {:induction false} ItoaLeading(n: nat)
    ensures Itoa(n)[0] == '0' ==> n == 0
  {
    if n >= 10 { ItoaLeading(n / 10); }
  }

  lemma {:induction false} ItoaLength(n: nat)
    ensures n < 10 ==> |Itoa(n)| == 1
    ensures n < 1000 ==> |Itoa(n)| <= 3
    ensures n < 100000 ==> |Itoa(n)| <= 5
  {
    if n >= 10 {
      ItoaLength(n / 10);
      if n < 1000 && n >= 100 { assert n / 10 / 10 < 10; ItoaLength(n / 10 / 10); }
      if n < 100 { assert n / 10 < 10; }
      if 1000 <= n < 100000 {
        var m := n / 10 / 10;
        assert m < 1000;
        ItoaLength(m);
      }
    }
  }

  // strconv.Atoi: an optional sign and digits, within 64 bits.
  function Atoi(s: string): (r: Option<int>)
    ensures r.Some? ==> -MAX_INT64 - 1 <= r.value <= MAX_INT64
  {
    var signed := s != [] && (s[0] == '+' || s[0] == '-');
    var digits := if signed then s[1..] else s;
    if digits == [] || !AllDigits(digits) then None
    else
      var n: int := NatOf(digits);
      if signed && s[0] == '-' then
        if n <= MAX_INT64 + 1 then Some(-n) else None
      else if n <= MAX_INT64 then Some(n) else None
  }

  lemma {:induction false} AtoiOfItoa(n: nat)
    requires n <= MAX_INT64
    ensures Atoi(Itoa(n)) == Some(n)
  {
    NatOfItoa(n);
  }

  // A number option of the config file: Atoi and a range.
  function ParseRange(s: string, low: int, high: int): (r: Option<nat>)
    requires 0 <= low
    ensures r.Some? ==> low <= r.value <= high
  {
    match Atoi(s)
    case None => None
    case Some(n) => if low <= n <= high then Some(n) else None
  }

  lemma {:induction false} ParseRangeOfItoa(n: nat, low: int, high: int)
    requires 0 <= low <= n <= high <= MAX_INT64
    ensures ParseRange(Itoa(n), low, high) == Some(n)
  {
    AtoiOfItoa(n);
  }

  // strconv.ParseUint(s, 10, 32) succeeds.
  predicate IsUint32(s: string) {
    s != [] && AllDigits(s) && NatOf(s) < 0x1_0000_0000
  }
}
