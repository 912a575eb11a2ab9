/** The tiled matrix product (operators/matmul/mm/mm.py, lines 26-77, launched over the grid of
    operators/matmul/mm/mm_op.cpp, lines 53-65), over exact reals. A tensor is a flat memory and its
    strides; a block value is a function of its lane indices. */
module Matmul {
  import opened Arithmetic
  import opened TileSchedule

  type Block<T> = (int, int) -> T

  // The kernel's scalar arguments.
  datatype Args = Args(
    m: nat, n: nat, k: nat,
    strideAm: int, strideAk: int, strideBk: int, strideBn: int, strideCm: int, strideCn: int,
    blockM: nat, blockN: nat, blockK: nat, groupM: nat)
  {
    predicate Valid() {
      blockM > 0 && blockN > 0 && blockK > 0 && groupM > 0
    }

    function A(i: int, q: int): int {
      i * strideAm + q * strideAk
    }

    function B(q: int, j: int): int {
      q * strideBk + j * strideBn
    }

    function C(i: int, j: int): int {
      i * strideCm + j * strideCn
    }

    predicate InC(i: int, j: int) {
      0 <= i < m && 0 <= j < n
    }

    function Tiles(): Grid
      requires Valid()
    {
      Grid(CeilDiv(m, blockM), CeilDiv(n, blockN), groupM)
    }

    // The part of C that the tile starting at (row, col) covers.
    predicate InTile(row: int, col: int, i: int, j: int) {
      InC(i, j) && row <= i < row + blockM && col <= j < col + blockN
    }

    // Whether a program computes an element.
    predicate Owns(pid: nat, i: int, j: int)
      requires Valid() && Tiles().Valid() && pid < Tiles().Size()
    {
      InC(i, j) && TileOf(Tiles(), pid) == (i / blockM, j / blockN)
    }

    // Every element of A and B has its place in memory.
    ghost predicate Reads(a: seq<real>, b: seq<real>) {
      && (forall i, q :: 0 <= i < m && 0 <= q < k ==> 0 <= A(i, q) < |a|)
      && (forall q, j :: 0 <= q < k && 0 <= j < n ==> 0 <= B(q, j) < |b|)
    }

    // Every element of C has a place of its own.
    ghost predicate Writes(length: nat) {
      && (forall i, j :: InC(i, j) ==> 0 <= C(i, j) < length)
      && (forall i, j, i', j' :: InC(i, j) && InC(i', j') && C(i, j) == C(i', j') ==> i == i' && j == j')
    }

    ghost predicate IsC(x: int) {
      exists i, j :: InC(i, j) && C(i, j) == x
    }
  }

  function Sum(f: int -> real, n: nat): real {
    if n == 0 then 0.0 else Sum(f, n - 1) + f(n - 1)
  }

  // A[i, q] * B[q, j], and nothing beyond the last q.
  function Term(g: Args, a: seq<real>, b: seq<real>, i: int, j: int): (f: int -> real)
    requires g.InC(i, j) && g.Reads(a, b)
    ensures forall q :: f(q) == if 0 <= q < g.k then a[g.A(i, q)] * b[g.B(q, j)] else 0.0
  {
    q => if 0 <= q < g.k then a[g.A(i, q)] * b[g.B(q, j)] else 0.0
  }

  // The definition of the product.
  function Product(g: Args, a: seq<real>, b: seq<real>, i: int, j: int): real
    requires g.InC(i, j) && g.Reads(a, b)
  {
    Sum(Term(g, a, b, i, j), g.k)
  }

  // Contiguous row-major tensors, as the operator allocates them.
  ghost predicate Contiguous(g: Args, a: seq<real>, b: seq<real>, length: nat) {
    && g.strideAm == g.k && g.strideAk == 1 && g.strideBk == g.n && g.strideBn == 1
    && g.strideCm == g.n && g.strideCn == 1
    && |a| == g.m * g.k && |b| == g.k * g.n && length == g.m * g.n
  }

  lemma InRowMajor(row: int, col: int, rows: int, cols: int)
    requires 0 <= row < rows && 0 <= col < cols
    ensures 0 <= row * cols + col < rows * cols
    ensures (row * cols + col) / cols == row && (row * cols + col) % cols == col
  {
    MulMono(0, row, cols);
    MulMono(row + 1, rows, cols);
    DivModUnique(row * cols + col, cols, row, col);
  }

  /** For these the launch has all it asks for, and the product is the one of the textbook: term q is element q
      of row i of A times element q of column j of B. */
  lemma ContiguousProduct(g: Args, a: seq<real>, b: seq<real>, length: nat, i: int, j: int, q: nat)
    requires Contiguous(g, a, b, length) && g.InC(i, j) && q < g.k
    ensures g.Reads(a, b) && g.Writes(length) && g.C(i, j) == i * g.n + j
    ensures 0 <= i * g.k + q < |a| && 0 <= q * g.n + j < |b|
    ensures Term(g, a, b, i, j)(q) == a[i * g.k + q] * b[q * g.n + j]
  {
    ContiguousPlaces(g, a, b, length);
    InRowMajor(i, q, g.m, g.k);
    InRowMajor(q, j, g.k, g.n);
    assert g.A(i, q) == i * g.k + q && g.B(q, j) == q * g.n + j;
  }

  lemma ContiguousPlaces(g: Args, a: seq<real>, b: seq<real>, length: nat)
    requires Contiguous(g, a, b, length)
    ensures g.Reads(a, b) && g.Writes(length)
  {
    forall i, q | 0 <= i < g.m && 0 <= q < g.k
      ensures 0 <= g.A(i, q) < |a|
    {
      InRowMajor(i, q, g.m, g.k);
    }
    forall q, j | 0 <= q < g.k && 0 <= j < g.n
      ensures 0 <= g.B(q, j) < |b|
    {
      InRowMajor(q, j, g.k, g.n);
    }
    forall i, j | g.InC(i, j)
      ensures 0 <= g.C(i, j) < length && g.C(i, j) / g.n == i && g.C(i, j) % g.n == j
    {
      InRowMajor(i, j, g.m, g.n);
    }
  }

  lemma {:induction false} SumShift(f: int -> real, h: int -> real, from: nat, n: nat)
    requires forall q :: 0 <= q < n ==> h(q) == f(from + q)
    ensures Sum(f, from + n) == Sum(f, from) + Sum(h, n)
  {
    if n > 0 {
      SumShift(f, h, from, n - 1);
      assert h(n - 1) == f(from + (n - 1));
    }
  }

  lemma {:induction false} SumZeroTail(f: int -> real, from: nat, n: nat)
    requires from <= n && forall q :: from <= q < n ==> f(q) == 0.0
    ensures Sum(f, n) == Sum(f, from)
    decreases n
  {
    if from < n {
      SumZeroTail(f, from, n - 1);
    }
  }

  // tl.load with a mask and `other=0.0`; lanes outside the block do not matter.
  function Load(mem: seq<real>, ptrs: Block<int>, mask: Block<bool>, rows: nat, cols: nat): (v: Block<real>)
    requires forall r, c :: 0 <= r < rows && 0 <= c < cols && mask(r, c) ==> 0 <= ptrs(r, c) < |mem|
    ensures forall r, c :: 0 <= r < rows && 0 <= c < cols ==>
                             v(r, c) == if mask(r, c) then mem[ptrs(r, c)] else 0.0
  {
    (r, c) => if 0 <= r < rows && 0 <= c < cols && mask(r, c) then mem[ptrs(r, c)] else 0.0
  }

  // tl.dot of a (rows x depth) and a (depth x cols) block, one lane of it.
  function Dot(x: Block<real>, y: Block<real>, depth: nat, r: int, c: int): real {
    Sum(q => x(r, q) * y(q, c), depth)
  }

  // tl.store with a mask: all lanes at once.
  method Store(mem: array<real>, ptrs: Block<int>, v: Block<real>, mask: Block<bool>, rows: nat, cols: nat)
    requires forall r, c :: 0 <= r < rows && 0 <= c < cols && mask(r, c) ==> 0 <= ptrs(r, c) < mem.Length
    requires forall r, c, r', c' ::
               (&& 0 <= r < rows && 0 <= c < cols && mask(r, c)
                && 0 <= r' < rows && 0 <= c' < cols && mask(r', c')
                && ptrs(r, c) == ptrs(r', c')) ==> r == r' && c == c'
    modifies mem
    ensures forall r, c :: 0 <= r < rows && 0 <= c < cols && mask(r, c) ==> mem[ptrs(r, c)] == v(r, c)
    ensures forall x :: 0 <= x < mem.Length
                        && (forall r, c :: 0 <= r < rows && 0 <= c < cols && mask(r, c) ==> ptrs(r, c) != x)
                        ==> mem[x] == old(mem[x])
  {
    forall r, c | 0 <= r < rows && 0 <= c < cols && mask(r, c) {
      mem[ptrs(r, c)] := v(r, c);
    }
  }

  // One pass of the K loop adds the next blockK terms; lanes past the end of K add nothing.
  lemma DotIsNextTerms(g: Args, a: seq<real>, b: seq<real>, i: int, j: int, from: nat,
                       x: Block<real>, y: Block<real>, r: int, s: int)
    requires g.InC(i, j) && g.Reads(a, b)
    requires forall q :: 0 <= q < g.blockK ==> x(r, q) == if from + q < g.k then a[g.A(i, from + q)] else 0.0
    requires forall q :: 0 <= q < g.blockK ==> y(q, s) == if from + q < g.k then b[g.B(from + q, j)] else 0.0
    ensures Sum(Term(g, a, b, i, j), from) + Dot(x, y, g.blockK, r, s)
         == Sum(Term(g, a, b, i, j), from + g.blockK)
  {
    SumShift(Term(g, a, b, i, j), q => x(r, q) * y(q, s), from, g.blockK);
  }

  // The rows of A and columns of B that a tile reads, wrapped at the edges (lines 54-55).
  function OffsAm(g: Args, pidM: int, r: int): (i: int)
    requires g.m > 0
    ensures 0 <= i < g.m
  {
    (pidM * g.blockM + r) % g.m
  }

  function OffsBn(g: Args, pidN: int, s: int): (j: int)
    requires g.n > 0
    ensures 0 <= j < g.n
  {
    (pidN * g.blockN + s) % g.n
  }

  // The pointer blocks stand at column (row) `from` of A (B).
  ghost predicate PointAt(g: Args, pidM: int, pidN: int, from: int, aPtrs: Block<int>, bPtrs: Block<int>)
    requires g.m > 0 && g.n > 0
  {
    && (forall r, q :: aPtrs(r, q) == g.A(OffsAm(g, pidM, r), from + q))
    && (forall q, s :: bPtrs(q, s) == g.B(from + q, OffsBn(g, pidN, s)))
  }

  // The accumulator holds the sums of the first `upto` terms.
  ghost predicate Holds(g: Args, a: seq<real>, b: seq<real>, pidM: int, pidN: int, upto: nat, acc: Block<real>)
    requires g.m > 0 && g.n > 0 && g.Reads(a, b)
  {
    forall r, s :: 0 <= r < g.blockM && 0 <= s < g.blockN ==>
      acc(r, s) == Sum(Term(g, a, b, OffsAm(g, pidM, r), OffsBn(g, pidN, s)), upto)
  }

  // Line 65: one load of A, masked where K ends.
  function LoadA(g: Args, pidM: int, a: seq<real>, b: seq<real>, from: nat, remaining: int,
                 aPtrs: Block<int>): (x: Block<real>)
    requires g.m > 0 && g.n > 0 && g.Reads(a, b) && remaining == g.k - from
    requires forall r, q :: aPtrs(r, q) == g.A(OffsAm(g, pidM, r), from + q)
    ensures forall r, q :: 0 <= r < g.blockM && 0 <= q < g.blockK ==>
              x(r, q) == if from + q < g.k then a[g.A(OffsAm(g, pidM, r), from + q)] else 0.0
  {
    assert forall r, q :: 0 <= q < remaining ==> 0 <= aPtrs(r, q) < |a| by {
      forall r, q | 0 <= q < remaining
        ensures 0 <= aPtrs(r, q) < |a|
      {
        assert 0 <= g.A(OffsAm(g, pidM, r), from + q) < |a|;
      }
    }
    Load(a, aPtrs, (r, q) => q < remaining, g.blockM, g.blockK)
  }

  // Line 66: one load of B.
  function LoadB(g: Args, pidN: int, a: seq<real>, b: seq<real>, from: nat, remaining: int,
                 bPtrs: Block<int>): (y: Block<real>)
    requires g.m > 0 && g.n > 0 && g.Reads(a, b) && remaining == g.k - from
    requires forall q, s :: bPtrs(q, s) == g.B(from + q, OffsBn(g, pidN, s))
    ensures forall q, s :: 0 <= q < g.blockK && 0 <= s < g.blockN ==>
              y(q, s) == if from + q < g.k then b[g.B(from + q, OffsBn(g, pidN, s))] else 0.0
  {
    assert forall q, s :: 0 <= q < remaining ==> 0 <= bPtrs(q, s) < |b| by {
      forall q, s | 0 <= q < remaining
        ensures 0 <= bPtrs(q, s) < |b|
      {
        assert 0 <= g.B(from + q, OffsBn(g, pidN, s)) < |b|;
      }
    }
    Load(b, bPtrs, (q, s) => q < remaining, g.blockK, g.blockN)
  }

  lemma NextTerms(g: Args, pidM: int, pidN: int, a: seq<real>, b: seq<real>, from: nat,
                  x: Block<real>, y: Block<real>, r: int, s: int)
    requires g.m > 0 && g.n > 0 && g.Reads(a, b) && 0 <= r < g.blockM && 0 <= s < g.blockN
    requires forall r, q :: 0 <= r < g.blockM && 0 <= q < g.blockK ==>
               x(r, q) == if from + q < g.k then a[g.A(OffsAm(g, pidM, r), from + q)] else 0.0
    requires forall q, s :: 0 <= q < g.blockK && 0 <= s < g.blockN ==>
               y(q, s) == if from + q < g.k then b[g.B(from + q, OffsBn(g, pidN, s))] else 0.0
    ensures var f := Term(g, a, b, OffsAm(g, pidM, r), OffsBn(g, pidN, s));
            Sum(f, from) + Dot(x, y, g.blockK, r, s) == Sum(f, from + g.blockK)
  {
    DotIsNextTerms(g, a, b, OffsAm(g, pidM, r), OffsBn(g, pidN, s), from, x, y, r, s);
  }

  // The accumulating lines of the K loop (65-67).
  method AddTerms(g: Args, pidM: int, pidN: int, a: seq<real>, b: seq<real>, ghost from: nat, remaining: int,
                  aPtrs: Block<int>, bPtrs: Block<int>, acc: Block<real>) returns (accumulator: Block<real>)
    requires g.Valid() && g.m > 0 && g.n > 0 && g.Reads(a, b) && remaining == g.k - from
    requires PointAt(g, pidM, pidN, from, aPtrs, bPtrs) && Holds(g, a, b, pidM, pidN, from, acc)
    ensures Holds(g, a, b, pidM, pidN, from + g.blockK, accumulator)
  {
    var x := LoadA(g, pidM, a, b, g.k - remaining, remaining, aPtrs);
    var y := LoadB(g, pidN, a, b, g.k - remaining, remaining, bPtrs);
    accumulator := (r, s) => acc(r, s) + Dot(x, y, g.blockK, r, s);
    forall r, s | 0 <= r < g.blockM && 0 <= s < g.blockN
      ensures accumulator(r, s)
           == Sum(Term(g, a, b, OffsAm(g, pidM, r), OffsBn(g, pidN, s)), from + g.blockK)
    {
      NextTerms(g, pidM, pidN, a, b, from, x, y, r, s);
    }
  }

  lemma Shifted(from: int, q: int, block: int, stride: int)
    ensures (from + q) * stride + block * stride == (from + block + q) * stride
  {
  }

  lemma Advanced(g: Args, pidM: int, pidN: int, from: int,
                 aOld: Block<int>, bOld: Block<int>, aPtrs: Block<int>, bPtrs: Block<int>)
    requires g.m > 0 && g.n > 0 && PointAt(g, pidM, pidN, from, aOld, bOld)
    requires forall r, q :: aPtrs(r, q) == aOld(r, q) + g.blockK * g.strideAk
    requires forall q, s :: bPtrs(q, s) == bOld(q, s) + g.blockK * g.strideBk
    ensures PointAt(g, pidM, pidN, from + g.blockK, aPtrs, bPtrs)
  {
    forall r, q
      ensures aPtrs(r, q) == g.A(OffsAm(g, pidM, r), from + g.blockK + q)
    {
      Shifted(from, q, g.blockK, g.strideAk);
    }
    forall q, s
      ensures bPtrs(q, s) == g.B(from + g.blockK + q, OffsBn(g, pidN, s))
    {
      Shifted(from, q, g.blockK, g.strideBk);
    }
  }

  /** The K loop (lines 54-69): lane (r, s) of the accumulator is the whole product of row
      (pidM * blockM + r) % m of A and column (pidN * blockN + s) % n of B. */
  method Accumulate(g: Args, pidM: int, pidN: int, a: seq<real>, b: seq<real>) returns (accumulator: Block<real>)
    requires g.Valid() && g.m > 0 && g.n > 0 && g.Reads(a, b)
    ensures forall r, s :: 0 <= r < g.blockM && 0 <= s < g.blockN ==>
              accumulator(r, s) == Product(g, a, b, OffsAm(g, pidM, r), OffsBn(g, pidN, s))
  {
    var aPtrs: Block<int> := (r, q) => OffsAm(g, pidM, r) * g.strideAm + q * g.strideAk;
    var bPtrs: Block<int> := (q, s) => q * g.strideBk + OffsBn(g, pidN, s) * g.strideBn;
    accumulator := (r, s) => 0.0;
    var steps := CeilDiv(g.k, g.blockK);
    for t := 0 to steps
      invariant t * g.blockK >= 0
      invariant PointAt(g, pidM, pidN, t * g.blockK, aPtrs, bPtrs)
      invariant Holds(g, a, b, pidM, pidN, t * g.blockK, accumulator)
    {
      accumulator := AddTerms(g, pidM, pidN, a, b, t * g.blockK, g.k - t * g.blockK, aPtrs, bPtrs, accumulator);
      var aOld, bOld := aPtrs, bPtrs;
      aPtrs := (r, q) => aOld(r, q) + g.blockK * g.strideAk;
      bPtrs := (q, s) => bOld(q, s) + g.blockK * g.strideBk;
      Advanced(g, pidM, pidN, t * g.blockK, aOld, bOld, aPtrs, bPtrs);
      assert (t + 1) * g.blockK == t * g.blockK + g.blockK;
    }
    CeilDivCovers(g.k, g.blockK);
    HoldsAll(g, a, b, pidM, pidN, steps * g.blockK, accumulator);
  }

  lemma HoldsAll(g: Args, a: seq<real>, b: seq<real>, pidM: int, pidN: int, upto: nat, acc: Block<real>)
    requires g.m > 0 && g.n > 0 && g.Reads(a, b)
    requires upto >= g.k && Holds(g, a, b, pidM, pidN, upto, acc)
    ensures forall r, s :: 0 <= r < g.blockM && 0 <= s < g.blockN ==>
              acc(r, s) == Product(g, a, b, OffsAm(g, pidM, r), OffsBn(g, pidN, s))
  {
    forall r, s | 0 <= r < g.blockM && 0 <= s < g.blockN
      ensures acc(r, s) == Product(g, a, b, OffsAm(g, pidM, r), OffsBn(g, pidN, s))
    {
      SumZeroTail(Term(g, a, b, OffsAm(g, pidM, r), OffsBn(g, pidN, s)), g.k, upto);
    }
  }

  // Lines 73-77: the masked store of the tile whose first element is (row, col).
  method StoreTile(g: Args, row: nat, col: nat, v: Block<real>, c: array<real>)
    requires g.Writes(c.Length)
    modifies c
    ensures forall i, j :: g.InTile(row, col, i, j) ==> c[g.C(i, j)] == v(i - row, j - col)
    ensures forall i, j :: g.InC(i, j) && !g.InTile(row, col, i, j) ==> c[g.C(i, j)] == old(c[g.C(i, j)])
    ensures forall x :: 0 <= x < c.Length && !g.IsC(x) ==> c[x] == old(c[x])
  {
    var ptrs: Block<int> := (r, s) => g.C(row + r, col + s);
    var mask: Block<bool> := (r, s) => row + r < g.m && col + s < g.n;
    Store(c, ptrs, v, mask, g.blockM, g.blockN);
    forall i, j | g.InTile(row, col, i, j)
      ensures c[g.C(i, j)] == v(i - row, j - col)
    {
      assert mask(i - row, j - col) && ptrs(i - row, j - col) == g.C(i, j);
    }
  }

  lemma TileBounds(i: int, block: int, pid: int)
    requires block > 0
    ensures i / block == pid <==> pid * block <= i < pid * block + block
  {
    if pid * block <= i < pid * block + block {
      DivModUnique(i, block, pid, i - pid * block);
    }
  }

  // An element of the tile was not wrapped when it was loaded.
  lemma NotWrapped(g: Args, pidM: int, pidN: int, i: int, j: int)
    requires g.InTile(pidM * g.blockM, pidN * g.blockN, i, j)
    ensures OffsAm(g, pidM, i - pidM * g.blockM) == i && OffsBn(g, pidN, j - pidN * g.blockN) == j
  {
    DivModUnique(i, g.m, 0, i);
    DivModUnique(j, g.n, 0, j);
  }

  /** One program of the launch: it writes every element it owns with its product, and nothing else. */
  method Kernel(g: Args, pid: nat, a: seq<real>, b: seq<real>, c: array<real>)
    requires g.Valid() && g.Tiles().Valid() && pid < g.Tiles().Size()
    requires g.Reads(a, b) && g.Writes(c.Length)
    modifies c
    ensures forall i, j :: g.Owns(pid, i, j) ==> c[g.C(i, j)] == Product(g, a, b, i, j)
    ensures forall i, j :: g.InC(i, j) && !g.Owns(pid, i, j) ==> c[g.C(i, j)] == old(c[g.C(i, j)])
    ensures forall x :: 0 <= x < c.Length && !g.IsC(x) ==> c[x] == old(c[x])
  {
    assert g.m > 0 && g.n > 0;
    PidOfTile(g.Tiles(), pid);
    var (pidM, pidN) := TileOf(g.Tiles(), pid);
    var accumulator := Accumulate(g, pidM, pidN, a, b);
    var row, col := pidM * g.blockM, pidN * g.blockN;
    forall i, j | g.InTile(row, col, i, j)
      ensures accumulator(i - row, j - col) == Product(g, a, b, i, j)
    {
      NotWrapped(g, pidM, pidN, i, j);
    }
    forall i, j | g.InC(i, j)
      ensures g.Owns(pid, i, j) <==> g.InTile(row, col, i, j)
    {
      TileBounds(i, g.blockM, pidM);
      TileBounds(j, g.blockN, pidN);
    }
    NonNegative(pidM, g.blockM);
    NonNegative(pidN, g.blockN);
    StoreTile(g, row, col, accumulator, c);
  }

  lemma NonNegative(a: int, b: int)
    requires a >= 0 && b >= 0
    ensures a * b >= 0
  {
  }

  lemma GridOfElement(g: Args, i: int, j: int)
    requires g.Valid() && g.InC(i, j)
    ensures g.Tiles().Valid() && 0 <= i / g.blockM < g.Tiles().rows && 0 <= j / g.blockN < g.Tiles().cols
  {
    CeilDivCovers(g.m, g.blockM);
    CeilDivCovers(g.n, g.blockN);
    MulLess(i / g.blockM, g.Tiles().rows, g.blockM);
    MulLess(j / g.blockN, g.Tiles().cols, g.blockN);
  }

  /** Every element of C is stored by exactly one program of the grid. */
  lemma OneOwner(g: Args, i: int, j: int)
    requires g.Valid() && g.InC(i, j)
    ensures g.Tiles().Valid() && 0 <= i / g.blockM < g.Tiles().rows && 0 <= j / g.blockN < g.Tiles().cols
    ensures var owner := PidOf(g.Tiles(), i / g.blockM, j / g.blockN);
            && 0 <= owner < g.Tiles().Size()
            && forall pid: nat :: pid < g.Tiles().Size() ==> (g.Owns(pid, i, j) <==> pid == owner)
  {
    GridOfElement(g, i, j);
    var grid := g.Tiles();
    TileOfPid(grid, i / g.blockM, j / g.blockN);
    forall pid: nat | pid < grid.Size() && g.Owns(pid, i, j)
      ensures pid == PidOf(grid, i / g.blockM, j / g.blockN)
    {
      PidOfTile(grid, pid);
    }
  }

  // Some order in which a grid of `size` programs may run.
  ghost predicate Covers(order: seq<nat>, size: nat) {
    && (forall t :: 0 <= t < |order| ==> order[t] < size)
    && (forall p: nat :: p < size ==> p in order)
  }

  // Once every program of the grid is among those that ran, every element has been stored.
  ghost predicate Done(g: Args, order: seq<nat>, upto: nat, i: int, j: int)
    requires g.Valid() && upto <= |order| && Covers(order, g.Tiles().Size())
  {
    g.InC(i, j) && g.Tiles().Valid() && exists t :: 0 <= t < upto && g.Owns(order[t], i, j)
  }

  lemma AllDone(g: Args, order: seq<nat>, i: int, j: int)
    requires g.Valid() && g.InC(i, j) && Covers(order, g.Tiles().Size())
    ensures Done(g, order, |order|, i, j)
  {
    OneOwner(g, i, j);
    var owner: nat := PidOf(g.Tiles(), i / g.blockM, j / g.blockN);
    assert owner in order;
    var t :| 0 <= t < |order| && order[t] == owner;
    assert g.Owns(order[t], i, j);
  }

  lemma GridNotEmpty(g: Args, pid: nat)
    requires g.Valid() && pid < g.Tiles().Size()
    ensures g.Tiles().Valid()
  {
  }

  /** The launch: whatever the order in which the programs of the grid run, C ends up as the matrix
      product and no other memory has changed; for every size, block, group and stride. */
  method Launch(g: Args, a: seq<real>, b: seq<real>, c: array<real>, order: seq<nat>)
    requires g.Valid() && g.Reads(a, b) && g.Writes(c.Length)
    requires Covers(order, g.Tiles().Size())
    modifies c
    ensures forall i, j :: g.InC(i, j) ==> c[g.C(i, j)] == Product(g, a, b, i, j)
    ensures forall x :: 0 <= x < c.Length && !g.IsC(x) ==> c[x] == old(c[x])
  {
    for t := 0 to |order|
      invariant forall i, j :: Done(g, order, t, i, j) ==> c[g.C(i, j)] == Product(g, a, b, i, j)
      invariant forall x :: 0 <= x < c.Length && !g.IsC(x) ==> c[x] == old(c[x])
    {
      GridNotEmpty(g, order[t]);
      Kernel(g, order[t], a, b, c);
    }
    forall i, j | g.InC(i, j)
      ensures c[g.C(i, j)] == Product(g, a, b, i, j)
    {
      AllDone(g, order, i, j);
    }
  }
}
