// Bitwise AND of natural numbers, as net.IP.Mask and the filter engine apply it.
module Bitwise {

  function Both(x: nat, y: nat): (r: nat) {
    if x % 2 == 1 && y % 2 == 1 then 1 else 0
  }

  function And(a: nat, b: nat): (r: nat) {
    if a == 0 || b == 0 then 0
    else 2 * And(a / 2, b / 2) + Both(a, b)
  }

  lemma {:induction false} AndBound(a: nat, b: nat)
    ensures And(a, b) <= a && And(a, b) <= b
  {
    if a != 0 && b != 0 {
      AndBound(a / 2, b / 2);
    }
  }

  lemma {:induction false} AndBit(a: nat, b: nat, x: nat, y: nat)
    requires x < 2 && y < 2
    ensures And(2 * a + x, 2 * b + y) == 2 * And(a, b) + And(x, y)
  {
    assert (2 * a + x) / 2 == a && (2 * b + y) / 2 == b;
    assert And(x, y) == Both(x, y) == Both(2 * a + x, 2 * b + y);
  }

  lemma {:induction false} AndCrumbs(a: nat, b: nat, x1: nat, y1: nat, x0: nat, y0: nat)
    requires x1 < 2 && y1 < 2 && x0 < 2 && y0 < 2
    ensures And(2 * (2 * a + x1) + x0, 2 * (2 * b + y1) + y0) == 4 * And(a, b) + And(2 * x1 + x0, 2 * y1 + y0)
  {
    AndBit(2 * a + x1, 2 * b + y1, x0, y0);
    AndBit(a, b, x1, y1);
    AndBit(x1, y1, x0, y0);
  }

  lemma {:induction false} AndCrumb(a: nat, b: nat, x: nat, y: nat)
    requires x < 4 && y < 4
    ensures And(4 * a + x, 4 * b + y) == 4 * And(a, b) + And(x, y)
  {
    AndCrumbs(a, b, x / 2, y / 2, x % 2, y % 2);
    assert 2 * (2 * a + x / 2) + x % 2 == 4 * a + x && 2 * (2 * b + y / 2) + y % 2 == 4 * b + y;
    assert 2 * (x / 2) + x % 2 == x && 2 * (y / 2) + y % 2 == y;
  }

  lemma {:induction false} AndNibbles(a: nat, b: nat, x1: nat, y1: nat, x0: nat, y0: nat)
    requires x1 < 4 && y1 < 4 && x0 < 4 && y0 < 4
    ensures And(4 * (4 * a + x1) + x0, 4 * (4 * b + y1) + y0) == 16 * And(a, b) + And(4 * x1 + x0, 4 * y1 + y0)
  {
    AndCrumb(4 * a + x1, 4 * b + y1, x0, y0);
    AndCrumb(a, b, x1, y1);
    AndCrumb(x1, y1, x0, y0);
  }

  lemma {:induction false} AndNibble(a: nat, b: nat, x: nat, y: nat)
    requires x < 16 && y < 16
    ensures And(16 * a + x, 16 * b + y) == 16 * And(a, b) + And(x, y)
  {
    AndNibbles(a, b, x / 4, y / 4, x % 4, y % 4);
    assert 4 * (4 * a + x / 4) + x % 4 == 16 * a + x && 4 * (4 * b + y / 4) + y % 4 == 16 * b + y;
    assert 4 * (x / 4) + x % 4 == x && 4 * (y / 4) + y % 4 == y;
  }

  // The low byte is masked apart from what stands above it.
  lemma {:induction false} AndBytes(a: nat, b: nat, x1: nat, y1: nat, x0: nat, y0: nat)
    requires x1 < 16 && y1 < 16 && x0 < 16 && y0 < 16
    ensures And(16 * (16 * a + x1) + x0, 16 * (16 * b + y1) + y0) == 256 * And(a, b) + And(16 * x1 + x0, 16 * y1 + y0)
  {
    AndNibble(16 * a + x1, 16 * b + y1, x0, y0);
    AndNibble(a, b, x1, y1);
    AndNibble(x1, y1, x0, y0);
  }

  lemma {:induction false} AndByte(a: nat, b: nat, x: nat, y: nat)
    requires x < 256 && y < 256
    ensures And(256 * a + x, 256 * b + y) == 256 * And(a, b) + And(x, y)
  {
    AndBytes(a, b, x / 16, y / 16, x % 16, y % 16);
    assert 16 * (16 * a + x / 16) + x % 16 == 256 * a + x && 16 * (16 * b + y / 16) + y % 16 == 256 * b + y;
    assert 16 * (x / 16) + x % 16 == x && 16 * (y / 16) + y % 16 == y;
  }
}
