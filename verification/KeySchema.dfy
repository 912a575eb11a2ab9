/** Key columns of a tuned table: the four normalisation strategies and their arithmetic
    (src/tuned_config.cpp, lines 73-91 and 317-338). */
module KeySchema {

  datatype Strategy = Default | Log | Align32 | Align32Ceil

  const INT64_MAX: int := 0x7FFF_FFFF_FFFF_FFFF
  const POW2_LIMIT: int := 0x4000_0000_0000_0000

  function Pow2(k: nat): (p: nat)
    ensures p >= 1
  {
    if k == 0 then 1 else 2 * Pow2(k - 1)
  }

  // 64 - clz(n): how many bits n needs.
  function BitLength(n: nat): nat {
    if n == 0 then 0 else 1 + BitLength(n / 2)
  }

  // The result of pow2_ceil; beyond 62 bits the source gives the value back unchanged.
  function Pow2Ceil(value: int): int {
    if value <= 1 then 1
    else
      var bits := BitLength(value - 1);
      if bits >= 63 then value else Pow2(bits)
  }

  // Both branches of the source: C++ division truncates, so the negative one is a ceiling too.
  function CeilDiv32(value: int): int {
    if value >= 0 then (value + 31) / 32 else -((-value) / 32)
  }

  function NormalizeDim(strategy: Strategy, value: int): int {
    match strategy
    case Default => value
    case Log => if value <= 0 then value else Pow2Ceil(value)
    case Align32 =>
      if value == 0 then 0
      else if value < 0 then value
      else if value < 32 then Pow2Ceil(value)
      else CeilDiv32(value) * 32
    case Align32Ceil => CeilDiv32(value) * 32
  }

  function Normalize(columns: seq<Strategy>, dims: seq<int>): (r: seq<int>)
    requires |columns| == |dims|
    ensures |r| == |dims|
  {
    seq(|dims|, i requires 0 <= i < |dims| => NormalizeDim(columns[i], dims[i]))
  }

  ghost predicate IsPow2(p: int) {
    exists k: nat :: p == Pow2(k)
  }

  // p is the least power of two that is at least n.
  ghost predicate LeastPow2(p: int, n: int) {
    && IsPow2(p) && p >= n
    && forall q :: IsPow2(q) && q >= n ==> p <= q
  }

  lemma {:induction false} BitLengthBounds(n: nat)
    requires n > 0
    ensures BitLength(n) > 0 && Pow2(BitLength(n) - 1) <= n < Pow2(BitLength(n))
  {
    if n / 2 > 0 {
      BitLengthBounds(n / 2);
    } else {
      assert BitLength(n) == 1 + BitLength(0);
    }
  }

  lemma {:induction false} Pow2Monotone(a: nat, b: nat)
    requires a <= b
    ensures Pow2(a) <= Pow2(b)
    ensures a < b ==> 2 * Pow2(a) <= Pow2(b)
    decreases b
  {
    if a < b {
      Pow2Monotone(a, b - 1);
    }
  }

  // A number squeezed between two neighbouring powers has the upper one as its ceiling.
  lemma SqueezedIsLeast(k: nat, n: int)
    requires n <= Pow2(k) && (k > 0 ==> Pow2(k - 1) < n)
    ensures LeastPow2(Pow2(k), n)
  {
    forall q | IsPow2(q) && q >= n
      ensures Pow2(k) <= q
    {
      var j: nat :| q == Pow2(j);
      if j < k {
        Pow2Monotone(j, k - 1);
      } else {
        Pow2Monotone(k, j);
      }
    }
  }

  lemma Pow2At62()
    ensures Pow2(62) == POW2_LIMIT
  {
    assert Pow2(10) == 1024;
    assert Pow2(20) == 0x10_0000;
    assert Pow2(30) == 0x4000_0000;
    assert Pow2(40) == 0x100_0000_0000;
    assert Pow2(50) == 0x4_0000_0000_0000;
    assert Pow2(60) == 0x1000_0000_0000_0000;
  }

  /** For 1 <= value <= 2^62, pow2_ceil is the least power of two that is not below value. */
  lemma Pow2CeilIsLeast(value: int)
    requires 1 <= value <= POW2_LIMIT
    ensures LeastPow2(Pow2Ceil(value), value)
  {
    if value == 1 {
      SqueezedIsLeast(0, 1);
    } else {
      var bits := BitLength(value - 1);
      BitLengthBounds(value - 1);
      Pow2At62();
      if bits >= 63 {
        Pow2Monotone(62, bits - 1);
      }
      SqueezedIsLeast(bits, value);
    }
  }

  lemma LeastPow2Unique(p: int, q: int, n: int)
    requires LeastPow2(p, n) && LeastPow2(q, n)
    ensures p == q
  {
  }

  // Below the cut-off the result is a power of two between value and 2^62.
  lemma Pow2CeilShape(value: int) returns (bits: nat)
    requires value > 1 && BitLength(value - 1) < 63
    ensures 1 <= bits <= 62 && Pow2Ceil(value) == Pow2(bits)
    ensures value <= Pow2(bits) <= Pow2(62)
    ensures 2 <= Pow2(bits)
  {
    bits := BitLength(value - 1);
    BitLengthBounds(value - 1);
    Pow2Monotone(bits, 62);
    Pow2Monotone(1, bits);
  }

  lemma Pow2CeilOfPow2(bits: nat)
    requires 1 <= bits <= 62
    ensures Pow2Ceil(Pow2(bits)) == Pow2(bits)
  {
    PredecessorBits(bits);
    Pow2Monotone(1, bits);
  }

  lemma Pow2CeilBounds(value: int)
    requires value >= 1
    ensures value <= Pow2Ceil(value)
    ensures Pow2Ceil(Pow2Ceil(value)) == Pow2Ceil(value)
    ensures value <= INT64_MAX ==> Pow2Ceil(value) <= INT64_MAX
  {
    if value > 1 && BitLength(value - 1) < 63 {
      var bits := Pow2CeilShape(value);
      Pow2CeilOfPow2(bits);
      Pow2At62();
    }
  }

  lemma Pow2CeilBelow32(value: int)
    requires 1 <= value <= 32
    ensures Pow2Ceil(value) <= 32
  {
    if value > 1 {
      var bits := BitLength(value - 1);
      BitLengthBounds(value - 1);
      assert Pow2(5) == 32;
      if bits > 5 {
        Pow2Monotone(5, bits - 1);
        assert false;
      }
      Pow2Monotone(bits, 5);
    }
  }

  lemma {:induction false} PredecessorBits(k: nat)
    ensures BitLength(Pow2(k) - 1) == k
  {
    if k > 0 {
      PredecessorBits(k - 1);
      assert (Pow2(k) - 1) / 2 == Pow2(k - 1) - 1;
    }
  }

  /** Normalising twice changes nothing, for every strategy and every value; the loader relies on
      it when it looks a stored (already normalised) key up again. */
  lemma NormalizeIdempotent(strategy: Strategy, value: int)
    ensures NormalizeDim(strategy, NormalizeDim(strategy, value)) == NormalizeDim(strategy, value)
  {
    if value >= 1 {
      Pow2CeilBounds(value);
      if value < 32 && strategy == Align32 {
        Pow2CeilBelow32(value);
        var p := Pow2Ceil(value);
        assert p == 32 ==> CeilDiv32(p) * 32 == 32;
      }
    }
  }

  /** Normalising stays inside int64, except where the source's own `value + 31` would overflow. */
  lemma NormalizeFitsInt64(strategy: Strategy, value: int)
    requires -INT64_MAX <= value <= INT64_MAX - 31
    ensures -INT64_MAX <= NormalizeDim(strategy, value) <= INT64_MAX
  {
    if value >= 1 {
      Pow2CeilBounds(value);
    }
  }

  /** A normalised dimension of at least one never shrinks: a row always covers the raw shape. */
  lemma NormalizeCovers(strategy: Strategy, value: int)
    ensures value <= NormalizeDim(strategy, value)
    ensures strategy in {Align32, Align32Ceil} && value >= 32 ==> NormalizeDim(strategy, value) < value + 32
  {
    if value >= 1 {
      Pow2CeilBounds(value);
    }
  }

  // ---- what each strategy does

  predicate Multiple32(p: int) {
    p % 32 == 0
  }

  // p is the least multiple of 32 that is at least n.
  ghost predicate LeastMultiple32(p: int, n: int) {
    && Multiple32(p) && p >= n
    && forall q :: Multiple32(q) && q >= n ==> p <= q
  }

  // What a strategy promises about the normalised form r of a value; past 2^62 the log one gives up.
  ghost predicate NormalForm(strategy: Strategy, value: int, r: int) {
    match strategy
    case Default => r == value
    case Log => if 1 <= value <= POW2_LIMIT then LeastPow2(r, value) else r == value
    case Align32 =>
      if value <= 0 then r == value else if value < 32 then LeastPow2(r, value) else LeastMultiple32(r, value)
    case Align32Ceil => LeastMultiple32(r, value)
  }

  // Truncating division rounds the negative ones up too.
  lemma CeilDiv32IsLeast(value: int)
    ensures LeastMultiple32(CeilDiv32(value) * 32, value)
  {
    var p := CeilDiv32(value) * 32;
    assert p % 32 == 0 && value <= p < value + 32;
  }

  lemma Pow2CeilGivesUp(value: int)
    requires value > POW2_LIMIT
    ensures Pow2Ceil(value) == value
  {
    var bits := BitLength(value - 1);
    BitLengthBounds(value - 1);
    Pow2At62();
    if bits < 63 {
      Pow2Monotone(bits, 62);
      assert false;
    }
  }

  /** Each strategy gives its normal form and nothing else, for every value. */
  lemma NormalizeDimIs(strategy: Strategy, value: int, r: int)
    ensures r == NormalizeDim(strategy, value) <==> NormalForm(strategy, value, r)
  {
    CeilDiv32IsLeast(value);
    if 1 <= value <= POW2_LIMIT {
      Pow2CeilIsLeast(value);
    } else if value > POW2_LIMIT {
      Pow2CeilGivesUp(value);
    }
  }

  /** A key is normalised column by column, each by its own strategy. */
  lemma NormalizeIs(columns: seq<Strategy>, dims: seq<int>, r: seq<int>)
    requires |columns| == |dims|
    ensures r == Normalize(columns, dims) <==>
              |r| == |dims| && forall i :: 0 <= i < |dims| ==> NormalForm(columns[i], dims[i], r[i])
  {
    forall i | 0 <= i < |dims| && i < |r|
      ensures r[i] == Normalize(columns, dims)[i] <==> NormalForm(columns[i], dims[i], r[i])
    {
      NormalizeDimIs(columns[i], dims[i], r[i]);
    }
  }

  lemma NormalizeSeqIdempotent(columns: seq<Strategy>, dims: seq<int>)
    requires |columns| == |dims|
    ensures Normalize(columns, Normalize(columns, dims)) == Normalize(columns, dims)
  {
    forall i | 0 <= i < |dims|
      ensures Normalize(columns, Normalize(columns, dims))[i] == Normalize(columns, dims)[i]
    {
      NormalizeIdempotent(columns[i], dims[i]);
    }
  }
}
