// Address prefixes: masking an address, and which addresses a prefix contains
// (section 3.1 of RFC 4632: those that agree with it on the leading bits).
module Prefix {
  import opened Ip
  import opened Bitwise

  // ----- One byte -----

  function Pow2(n: nat): (r: nat)
    ensures r > 0
  {
    if n == 0 then 1 else 2 * Pow2(n - 1)
  }

  // The w-bit number whose n leading bits are ones.
  function LeadingOnes(w: nat, n: nat): (r: nat)
    requires n <= w
  {
    if n == w then Pow2(w) - 1 else 2 * LeadingOnes(w - 1, n)
  }

  lemma {:induction false} LeadingOnesBound(w: nat, n: nat)
    requires n <= w
    ensures LeadingOnes(w, n) < Pow2(w)
  {
    if n < w {
      LeadingOnesBound(w - 1, n);
    }
  }

  // A byte of net.CIDRMask.
  function MaskByte(ones: int): (r: byte) {
    var n := if ones <= 0 then 0 else if ones >= 8 then 8 else ones;
    LeadingOnesBound(8, n);
    assert Pow2(8) == 256;
    LeadingOnes(8, n)
  }

  function And8(b: byte, m: byte): (r: byte) {
    AndBound(b, m);
    And(b, m)
  }

  // Bit k of a w-bit number, counted from the leading one.
  function BitAt(b: nat, w: nat, k: nat): (r: nat)
    requires k < w
  {
    if k == w - 1 then b % 2 else BitAt(b / 2, w - 1, k)
  }

  predicate SameLeading(b: nat, c: nat, w: nat, n: nat)
    requires n <= w
  {
    forall k :: 0 <= k < n ==> BitAt(b, w, k) == BitAt(c, w, k)
  }

  lemma {:induction false} AndAllOnes(b: nat, w: nat)
    requires b < Pow2(w)
    ensures And(b, Pow2(w) - 1) == b
    decreases w
  {
    if w > 0 {
      AndAllOnes(b / 2, w - 1);
      AndBit(b / 2, Pow2(w - 1) - 1, b % 2, 1);
      assert 2 * (b / 2) + b % 2 == b;
      assert And(b % 2, 1) == b % 2;
    }
  }

  lemma {:induction false} SameLeadingHalf(b: nat, c: nat, w: nat, n: nat)
    requires n < w
    ensures SameLeading(b, c, w, n) <==> SameLeading(b / 2, c / 2, w - 1, n)
  {
    var b', c', v := b / 2, c / 2, w - 1;
    if SameLeading(b, c, w, n) {
      forall k | 0 <= k < n
        ensures BitAt(b', v, k) == BitAt(c', v, k)
      {
        assert BitAt(b, w, k) == BitAt(c, w, k);
      }
    }
    if SameLeading(b', c', v, n) {
      forall k | 0 <= k < n
        ensures BitAt(b, w, k) == BitAt(c, w, k)
      {
        assert BitAt(b', v, k) == BitAt(c', v, k);
      }
    }
  }

  lemma {:induction false} SameAllBits(b: nat, c: nat, w: nat)
    requires b < Pow2(w) && c < Pow2(w)
    ensures SameLeading(b, c, w, w) <==> b == c
    decreases w
  {
    if w > 0 {
      SameAllBits(b / 2, c / 2, w - 1);
      SameLeadingHalf(b, c, w, w - 1);
      assert SameLeading(b, c, w, w) <==> SameLeading(b, c, w, w - 1) && BitAt(b, w, w - 1) == BitAt(c, w, w - 1);
      assert b == 2 * (b / 2) + b % 2 && c == 2 * (c / 2) + c % 2;
    }
  }

  // Masked alike exactly when the leading bits agree.
  lemma {:induction false} MaskedAlike(b: nat, c: nat, w: nat, n: nat)
    requires b < Pow2(w) && c < Pow2(w) && n <= w
    ensures And(b, LeadingOnes(w, n)) == And(c, LeadingOnes(w, n)) <==> SameLeading(b, c, w, n)
    decreases w
  {
    if n == w {
      AndAllOnes(b, w);
      AndAllOnes(c, w);
      SameAllBits(b, c, w);
    } else {
      MaskedAlike(b / 2, c / 2, w - 1, n);
      SameLeadingHalf(b, c, w, n);
      AndBit(b / 2, LeadingOnes(w - 1, n), b % 2, 0);
      AndBit(c / 2, LeadingOnes(w - 1, n), c % 2, 0);
      assert 2 * (b / 2) + b % 2 == b && 2 * (c / 2) + c % 2 == c;
    }
  }

  lemma {:induction false} AndTwice(b: nat, m: nat)
    ensures And(And(b, m), m) == And(b, m)
  {
    if b != 0 && m != 0 {
      AndTwice(b / 2, m / 2);
      var h := And(b / 2, m / 2);
      var r := Both(b, m);
      AndBit(h, m / 2, r, m % 2);
      assert And(r, m % 2) == r;
      assert 2 * (m / 2) + m % 2 == m;
    }
  }

  // ----- Whole addresses -----

  // The address with all but the leading `cidr` bits cleared.
  function MaskIP(ip: seq<byte>, cidr: nat): (r: seq<byte>)
    ensures |r| == |ip|
  {
    seq(|ip|, i requires 0 <= i < |ip| => And8(ip[i], MaskByte(cidr - 8 * i)))
  }

  lemma {:induction false} MaskTwice(ip: seq<byte>, cidr: nat)
    ensures MaskIP(MaskIP(ip, cidr), cidr) == MaskIP(ip, cidr)
  {
    forall i | 0 <= i < |ip|
      ensures MaskIP(MaskIP(ip, cidr), cidr)[i] == MaskIP(ip, cidr)[i]
    {
      AndTwice(ip[i], MaskByte(cidr - 8 * i));
    }
  }

  // Bit k of an address.
  function BitOf(ip: seq<byte>, k: nat): (r: nat)
    requires k < 8 * |ip|
  {
    BitAt(ip[k / 8], 8, k % 8)
  }

  // The prefix ip/cidr contains the address.
  predicate InPrefix(ip: seq<byte>, cidr: nat, a: seq<byte>) {
    && |a| == |ip| && cidr <= 8 * |ip|
    && forall k :: 0 <= k < cidr ==> BitOf(a, k) == BitOf(ip, k)
  }

  function OnesIn(cidr: nat, i: nat): (n: nat)
    ensures n <= 8
  {
    if cidr <= 8 * i then 0 else if cidr >= 8 * i + 8 then 8 else cidr - 8 * i
  }

  lemma {:induction false} MaskedByteAlike(a: byte, b: byte, cidr: nat, i: nat)
    ensures And8(a, MaskByte(cidr - 8 * i)) == And8(b, MaskByte(cidr - 8 * i)) <==> SameLeading(a, b, 8, OnesIn(cidr, i))
  {
    assert Pow2(8) == 256;
    MaskedAlike(a, b, 8, OnesIn(cidr, i));
  }

  // Masking finds out what a prefix contains.
  lemma {:induction false} ContainsIffMaskedAlike(ip: seq<byte>, cidr: nat, a: seq<byte>)
    requires |a| == |ip| && cidr <= 8 * |ip|
    ensures MaskIP(a, cidr) == MaskIP(ip, cidr) <==> InPrefix(ip, cidr, a)
  {
    forall i | 0 <= i < |ip|
      ensures MaskIP(a, cidr)[i] == MaskIP(ip, cidr)[i] <==> SameLeading(a[i], ip[i], 8, OnesIn(cidr, i))
    {
      MaskedByteAlike(a[i], ip[i], cidr, i);
    }
    if InPrefix(ip, cidr, a) {
      forall i | 0 <= i < |ip|
        ensures MaskIP(a, cidr)[i] == MaskIP(ip, cidr)[i]
      {
        forall k | 0 <= k < OnesIn(cidr, i)
          ensures BitAt(a[i], 8, k) == BitAt(ip[i], 8, k)
        {
          assert BitOf(a, 8 * i + k) == BitOf(ip, 8 * i + k);
        }
      }
    }
    if MaskIP(a, cidr) == MaskIP(ip, cidr) {
      forall k | 0 <= k < cidr
        ensures BitOf(a, k) == BitOf(ip, k)
      {
        assert SameLeading(a[k / 8], ip[k / 8], 8, OnesIn(cidr, k / 8));
      }
    }
  }

  // A prefix and its masked form contain the same addresses.
  lemma {:induction false} MaskedPrefixContains(ip: seq<byte>, cidr: nat, a: seq<byte>)
    ensures InPrefix(MaskIP(ip, cidr), cidr, a) <==> InPrefix(ip, cidr, a)
  {
    if |a| == |ip| && cidr <= 8 * |ip| {
      ContainsIffMaskedAlike(ip, cidr, a);
      ContainsIffMaskedAlike(MaskIP(ip, cidr), cidr, a);
      MaskTwice(ip, cidr);
    }
  }
}
