/** Packed kernel parameters (include/triton_jit/triton_jit_function.h, lines 47-92): values of C types,
    their little-endian bytes, and the buffer that lays them out with natural alignment. */
module ParameterBuffer {
  import opened Arithmetic
  import opened Numerals
  import opened PackedLayout

  // The C types that arguments have; each one's alignment equals its size.
  datatype CType = CBool | CInt | CUint | CLong | CUlong | CFloat | CDouble | CPointer

  function Size(t: CType): (n: nat)
    ensures CellSize(n)
  {
    match t
    case CBool => 1
    case CInt => 4
    case CUint => 4
    case CFloat => 4
    case _ => 8
  }

  function Pow256(k: nat): (p: nat)
    ensures p > 0
  {
    if k == 0 then 1 else 256 * Pow256(k - 1)
  }

  // A value is its bit pattern.
  datatype Value = Value(ctype: CType, bits: nat) {
    predicate Valid() {
      bits < Pow256(Size(ctype))
    }

    function Bytes(): (s: seq<byte>)
      ensures |s| == Size(ctype)
    {
      ToBytes(bits, Size(ctype))
    }
  }

  // Two's complement.
  function Bits(x: int, k: nat): (n: nat)
    ensures n < Pow256(k)
  {
    x % Pow256(k)
  }

  function Signed(n: nat, k: nat): int {
    if 2 * n < Pow256(k) then n else n - Pow256(k)
  }

  function ToBytes(n: nat, k: nat): (s: seq<byte>)
    ensures |s| == k
  {
    if k == 0 then [] else [n % 256] + ToBytes(n / 256, k - 1)
  }

  function FromBytes(s: seq<byte>): nat {
    if s == [] then 0 else s[0] + 256 * FromBytes(s[1..])
  }

  lemma {:induction false} BytesRoundTrip(n: nat, k: nat)
    requires n < Pow256(k)
    ensures FromBytes(ToBytes(n, k)) == n
  {
    if k > 0 {
      BytesRoundTrip(n / 256, k - 1);
      assert ToBytes(n, k)[1..] == ToBytes(n / 256, k - 1);
    }
  }

  // The low bytes of a number are the number's remainder.
  lemma {:induction false} LowBytes(n: nat, k: nat, j: nat)
    requires j <= k
    ensures ToBytes(n, k)[..j] == ToBytes(n % Pow256(j), j)
  {
    if j > 0 {
      var p := Pow256(j - 1);
      LowBytes(n / 256, k - 1, j - 1);
      Digits(n, p);
      assert ToBytes(n, k)[..j] == [n % 256] + ToBytes(n / 256, k - 1)[..j - 1];
    }
  }

  lemma Digits(n: nat, p: nat)
    requires p > 0
    ensures n % (256 * p) % 256 == n % 256
    ensures n % (256 * p) / 256 == n / 256 % p
  {
    var q, r := n / 256 / p, n / 256 % p;
    var low := r * 256 + n % 256;
    assert n / 256 == q * p + r;
    assert n == q * (256 * p) + low by {
      assert q * (256 * p) == 256 * (q * p);
    }
    assert low < 256 * p;
    DivModUnique(n, 256 * p, q, low);
  }

  /** A signed number is read back from as many low bytes as it fits into, whatever the width it was
      stored with: an int64 in int32 range may be read as an i32. */
  lemma SignedReadsBack(x: int, stored: nat, read: nat)
    requires 0 < read <= stored && 0 <= 2 * x + Pow256(read) && 2 * x < Pow256(read)
    ensures Signed(FromBytes(ToBytes(Bits(x, stored), stored)[..read]), read) == x
  {
    var n := Bits(x, stored);
    LowBytes(n, stored, read);
    var low := n % Pow256(read);
    BytesRoundTrip(low, read);
    LowBits(x, stored, read);
    if x >= 0 {
      DivModUnique(x, Pow256(read), 0, x);
    } else {
      DivModUnique(x, Pow256(read), -1, x + Pow256(read));
    }
  }

  lemma {:induction false} PowSplits(a: nat, b: nat)
    ensures Pow256(a + b) == Pow256(a) * Pow256(b)
  {
    if b > 0 {
      PowSplits(a, b - 1);
      assert Pow256(a) * (256 * Pow256(b - 1)) == 256 * (Pow256(a) * Pow256(b - 1));
    } else {
      assert Pow256(b) == 1;
    }
  }

  lemma LowBits(x: int, stored: nat, read: nat)
    requires read <= stored
    ensures Bits(x, stored) % Pow256(read) == x % Pow256(read)
  {
    PowSplits(read, stored - read);
    ModOfProduct(x, Pow256(read), Pow256(stored - read));
  }

  // ---- the buffer

  // What a list of values looks like in memory, cell by cell.
  function AsCells(values: seq<Value>): (cells: seq<seq<byte>>)
    ensures |cells| == |values| && Cells(cells)
    ensures forall i :: 0 <= i < |values| ==> cells[i] == values[i].Bytes()
  {
    seq(|values|, i requires 0 <= i < |values| => values[i].Bytes())
  }

  lemma OneMoreValue(values: seq<Value>, v: Value)
    ensures Image([], AsCells(values + [v])) == Appended(Image([], AsCells(values)), v.Bytes())
    ensures Offsets([], AsCells(values + [v]))
         == Offsets([], AsCells(values)) + [NextMultiple(|Image([], AsCells(values))|, Size(v.ctype))]
  {
    OneMoreCell([], AsCells(values), v.Bytes());
    assert AsCells(values + [v]) == AsCells(values) + [v.Bytes()];
  }

  class Buffer {
    var buff: seq<byte>
    var cursor: nat
    var offsets: seq<nat>
    ghost var values: seq<Value>

    ghost predicate Valid()
      reads this
    {
      buff == Image([], AsCells(values)) && cursor == |buff| && offsets == Offsets([], AsCells(values))
    }

    constructor ()
      ensures Valid() && values == []
    {
      buff, cursor, offsets, values := [], 0, [], [];
    }

    method PushArg(v: Value)
      requires Valid()
      modifies this
      ensures Valid() && values == old(values) + [v]
    {
      OneMoreValue(values, v);
      var offset := NextMultiple(cursor, Size(v.ctype));
      offsets := offsets + [offset];
      buff := Appended(buff, v.Bytes());
      cursor := offset + Size(v.ctype);
      values := values + [v];
    }

    /** get_ptrs: pointers are indices into the buffer; each one leads to its value's bytes. */
    method GetPtrs() returns (ptrs: seq<nat>)
      requires Valid()
      ensures |ptrs| == |values|
      ensures forall i :: 0 <= i < |values| ==>
                && ptrs[i] + Size(values[i].ctype) <= |buff|
                && buff[ptrs[i]..ptrs[i] + Size(values[i].ctype)] == values[i].Bytes()
    {
      ptrs := offsets;
      forall i | 0 <= i < |values|
        ensures ptrs[i] + Size(values[i].ctype) <= |buff|
        ensures buff[ptrs[i]..ptrs[i] + Size(values[i].ctype)] == values[i].Bytes()
      {
        CellSits([], AsCells(values), i);
      }
    }
  }
}
