/** Two more ways in which the operators round a size up to a power of two: smearing bits
    (operators/normalization/softmax/softmax_op.cpp, lines 36-45) and doubling
    (operators/normalization/rms_norm/rms_norm_op.cpp, lines 48-49). Both agree with pow2_ceil. */
module PowersOfTwo {
  import opened Arithmetic
  import opened KeySchema

  // Bitwise or of non-negative numbers.
  function Or(a: nat, b: nat): nat {
    if a == 0 then b
    else 2 * Or(a / 2, b / 2) + if a % 2 == 1 || b % 2 == 1 then 1 else 0
  }

  lemma {:induction false} OrBounds(a: nat, b: nat, k: nat)
    requires a < Pow2(k) && b < Pow2(k)
    ensures Or(a, b) < Pow2(k) && Or(a, b) >= a && Or(a, b) >= b
  {
    if a > 0 {
      OrBounds(a / 2, b / 2, k - 1);
    }
  }

  // High bits stay where they are when the other number has none of them.
  lemma {:induction false} OrHigh(high: nat, low: nat, b: nat, t: nat)
    requires low < Pow2(t) && b < Pow2(t)
    ensures Or(high * Pow2(t) + low, b) >= high * Pow2(t) + b
  {
    if t == 0 {
      assert Pow2(0) == 1;
      OrAtLeast(high * Pow2(t) + low, b);
    } else {
      var a, p := high * Pow2(t) + low, Pow2(t - 1);
      assert high * Pow2(t) == 2 * (high * p);
      assert a / 2 == high * p + low / 2;
      if a > 0 {
        OrHigh(high, low / 2, b / 2, t - 1);
      }
    }
  }

  lemma {:induction false} OrAtLeast(a: nat, b: nat)
    ensures Or(a, b) >= a
  {
    if a > 0 {
      OrAtLeast(a / 2, b / 2);
    }
  }

  lemma {:induction false} Pow2Adds(a: nat, b: nat)
    ensures Pow2(a + b) == Pow2(a) * Pow2(b)
  {
    if a > 0 {
      Pow2Adds(a - 1, b);
      assert 2 * (Pow2(a - 1) * Pow2(b)) == 2 * Pow2(a - 1) * Pow2(b);
    } else {
      assert Pow2(0) == 1;
    }
  }

  // The low end of the numbers of `bits` bits whose top k bits are all ones.
  function Rest(bits: nat, k: nat): nat {
    if k <= bits then bits - k else 0
  }

  predicate TopOnes(n: nat, bits: nat, k: nat) {
    Pow2(bits) - Pow2(Rest(bits, k)) <= n < Pow2(bits)
  }

  lemma ShiftBounds(n: nat, p: nat, q: nat, r: nat)
    requires p > 0 && r <= q && (q - r) * p <= n < q * p
    ensures q - r <= n / p < q
  {
    var d, m := n / p, n % p;
    assert n == d * p + m;
    if d < q - r {
      MulMono(d + 1, q - r, p);
    } else if d >= q {
      MulMono(q, d, p);
    }
  }

  lemma ShiftParts(n: nat, p: nat, q: nat, r: nat, whole: nat, rest: nat)
    requires p > 0 && r <= q && whole == p * q && rest <= p * r && whole - rest <= n < whole
    ensures q - r <= n / p < q
  {
    assert (q - r) * p == p * q - p * r && q * p == p * q;
    ShiftBounds(n, p, q, r);
  }

  lemma RestShifted(k: nat, t: nat)
    ensures Pow2(t) <= Pow2(k) * Pow2(Rest(t, k)) && Pow2(Rest(t, k)) <= Pow2(t)
  {
    if t >= k {
      Pow2Adds(k, t - k);
      Pow2Monotone(t - k, t);
    } else {
      Pow2Monotone(t, k);
    }
  }

  // Shifted right by k, the k leading ones of n are the leading ones of what is left of it.
  lemma ShiftedOnes(n: nat, k: nat, t: nat)
    requires TopOnes(n, k + t, k)
    ensures TopOnes(n / Pow2(k), t, k)
  {
    Pow2Adds(k, t);
    RestShifted(k, t);
    ShiftParts(n, Pow2(k), Pow2(t), Pow2(Rest(t, k)), Pow2(k + t), Pow2(t));
  }

  lemma OrParts(n: nat, s: nat, p: nat, t: nat, whole: nat)
    requires p > 0 && whole == p * Pow2(t) && whole - Pow2(t) <= n < whole && s < Pow2(t)
    ensures Or(n, s) >= whole - Pow2(t) + s
  {
    OneLess(p, Pow2(t));
    OrHigh(p - 1, n - (p - 1) * Pow2(t), s, t);
  }

  lemma OneLess(p: int, q: int)
    ensures (p - 1) * q == p * q - q
  {
  }

  // Or-ing the shifted number into the low bits.
  lemma OrLow(n: nat, s: nat, k: nat, t: nat)
    requires TopOnes(n, k + t, k) && TopOnes(s, t, k)
    ensures Or(n, s) >= Pow2(k + t) - Pow2(Rest(k + t, 2 * k))
  {
    Pow2Adds(k, t);
    OrParts(n, s, Pow2(k), t, Pow2(k + t));
  }

  lemma OrOnes(n: nat, s: nat, bits: nat, k: nat)
    requires TopOnes(n, bits, k) && s < Pow2(bits) && (k <= bits ==> TopOnes(s, bits - k, k))
    ensures TopOnes(Or(n, s), bits, 2 * k)
  {
    OrBounds(n, s, bits);
    if k <= bits {
      OrLow(n, s, k, bits - k);
    }
  }

  // n >> k
  function Shr(n: nat, k: nat): nat {
    QuotientSmaller(n, Pow2(k));
    n / Pow2(k)
  }

  lemma ShrSmaller(n: nat, k: nat)
    ensures Shr(n, k) <= n
  {
    QuotientSmaller(n, Pow2(k));
  }

  lemma ShrOnes(n: nat, bits: nat, k: nat)
    requires TopOnes(n, bits, k) && k <= bits
    ensures TopOnes(Shr(n, k), bits - k, k)
  {
    ShiftedOnes(n, k, bits - k);
  }

  lemma ShrSmall(n: nat, bits: nat, k: nat)
    requires TopOnes(n, bits, k)
    ensures Shr(n, k) < Pow2(bits)
  {
    ShrSmaller(n, k);
  }

  /** One smearing step doubles the number of leading ones. */
  lemma Smear(n: nat, bits: nat, k: nat)
    requires TopOnes(n, bits, k)
    ensures TopOnes(Or(n, Shr(n, k)), bits, 2 * k)
  {
    ShrSmall(n, bits, k);
    if k <= bits {
      ShrOnes(n, bits, k);
      OrOnes(n, Shr(n, k), bits, k);
    } else {
      OrOnes(n, Shr(n, k), bits, k);
    }
  }

  lemma QuotientSmaller(n: nat, p: nat)
    requires p > 0
    ensures 0 <= n / p <= n
  {
    var q, r := n / p, n % p;
    assert n == q * p + r;
    if q < 0 {
      MulMono(q, -1, p);
    } else {
      MulMono(1, p, q);
    }
  }

  lemma SmearEnds(n: nat, bits: nat, k: nat)
    requires TopOnes(n, bits, k) && bits <= k
    ensures n == Pow2(bits) - 1
  {
    assert Pow2(0) == 1;
  }

  // n |= n >> k
  method SmearStep(n: nat, k: nat, ghost bits: nat) returns (r: nat)
    requires TopOnes(n, bits, k)
    ensures TopOnes(r, bits, 2 * k)
  {
    Smear(n, bits, k);
    r := Or(n, Shr(n, k));
  }

  /** next_power_of_2: the same power of two as pow2_ceil for every n from 1 to 2^62, the least one that
      is not below n. */
  method NextPowerOf2(n: int) returns (r: int)
    requires 1 <= n <= 0x4000_0000_0000_0000
    ensures r == Pow2Ceil(n) && LeastPow2(r, n)
  {
    ghost var bits := BitLength(n - 1);
    SmallBits(n);
    LeadingOne(n - 1);
    var m: nat := n - 1;
    m := SmearStep(m, 1, bits);
    m := SmearStep(m, 2, bits);
    m := SmearStep(m, 4, bits);
    m := SmearStep(m, 8, bits);
    m := SmearStep(m, 16, bits);
    m := SmearStep(m, 32, bits);
    SmearEnds(m, bits, 64);
    r := m + 1;
    Pow2CeilIsLeast(n);
  }

  lemma LeadingOne(m: nat)
    ensures TopOnes(m, BitLength(m), 1)
  {
    if m > 0 {
      BitLengthBounds(m);
    } else {
      assert BitLength(0) == 0 && Pow2(0) == 1;
    }
  }

  lemma SmallBits(n: int)
    requires 1 <= n <= 0x4000_0000_0000_0000
    ensures BitLength(n - 1) <= 62 && Pow2Ceil(n) == Pow2(BitLength(n - 1))
  {
    Pow2At62();
    if n > 1 {
      BitLengthBounds(n - 1);
      if BitLength(n - 1) > 62 {
        Pow2Monotone(62, BitLength(n - 1) - 1);
      }
    } else {
      assert BitLength(0) == 0 && Pow2(0) == 1;
    }
  }

  /** The doubling loop: the same power again. */
  method DoublingBlockSize(n: int) returns (size: int)
    requires n <= 0x4000_0000_0000_0000
    ensures n >= 1 ==> size == Pow2Ceil(n)
    ensures n < 1 ==> size == 1
  {
    size := 1;
    ghost var k: nat := 0;
    while size < n
      invariant size == Pow2(k) && (k > 0 ==> Pow2(k - 1) < n)
      decreases n - size
    {
      size := size * 2;
      k := k + 1;
    }
    SqueezedIsLeast(k, n);
    if n >= 1 {
      Pow2CeilIsLeast(n);
      LeastPow2Unique(size, Pow2Ceil(n), n);
    }
  }
}
