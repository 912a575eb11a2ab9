/** Integer division and products, in steps small enough for the solver. */
module Arithmetic {

  lemma MulLess(a: int, b: int, c: int)
    requires c > 0 && a * c < b * c
    ensures a < b
  {
  }

  lemma MulMono(a: int, b: int, c: int)
    requires c >= 0 && a <= b
    ensures a * c <= b * c
  {
  }

  lemma DivModUnique(x: int, d: int, q: int, r: int)
    requires d > 0 && 0 <= r < d && x == q * d + r
    ensures x / d == q && x % d == r
  {
    var q', r' := x / d, x % d;
    assert x == q' * d + r';
    if q < q' {
      MulMono(q + 1, q', d);
    } else if q' < q {
      MulMono(q' + 1, q, d);
    }
  }

  lemma ModShift(x: int, y: int, d: int, k: int)
    requires d > 0 && x == y + k * d
    ensures x % d == y % d
  {
    DivModUnique(x, d, y / d + k, y % d);
  }

  lemma ModOfProduct(x: int, p: int, more: int)
    requires p > 0 && p * more > 0
    ensures x % (p * more) % p == x % p
  {
    var q, r := x / (p * more), x % (p * more);
    assert x == q * (p * more) + r;
    ModShift(x, r, p, q * more) by {
      assert q * (p * more) == (q * more) * p;
    }
  }

  function CeilDiv(a: nat, b: nat): nat
    requires b > 0
  {
    (a + b - 1) / b
  }

  lemma CeilDivCovers(x: nat, block: nat)
    requires block > 0
    ensures x <= CeilDiv(x, block) * block < x + block
  {
  }
}
