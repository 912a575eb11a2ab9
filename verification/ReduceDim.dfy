/** Reductions along one dimension: argmax_dim_kernel (operators/reduce/argmax/argmax.py, lines 70-108)
    over flat memory, with any number of trailing elements, and max_dim_kernel
    (operators/reduce/max/max.py, lines 82-114), which keeps one running maximum per lane. */
module ReduceDim {
  import opened Arithmetic
  import opened Softmax
  import opened Reduce

  // ---- argmax along the middle dimension of an m x n x k tensor

  // The tensor's sizes and the blocks of the launch.
  datatype Shape = Shape(m: nat, n: nat, k: nat, blockM: nat, blockN: nat) {
    ghost predicate Valid() {
      blockM > 0 && blockN > 0 && k > 0
    }

    function Offset(row: int, i: int, col: int): int {
      row * n * k + i * k + col
    }
  }

  // The memory holds the tensor, and no NaN.
  ghost predicate Holds(g: Shape, inp: seq<Value>) {
    NumberRow(inp) && |inp| == g.m * g.n * g.k
  }

  lemma OffsetInside(g: Shape, row: nat, i: nat, col: nat)
    requires row < g.m && i < g.n && col < g.k
    ensures 0 <= g.Offset(row, i, col) < g.m * g.n * g.k
  {
    var line := row * g.n + i;
    assert g.Offset(row, i, col) == line * g.k + col by {
      assert (row * g.n + i) * g.k == row * g.n * g.k + i * g.k;
    }
    assert (row + 1) * g.n == row * g.n + g.n;
    MulMono(row + 1, g.m, g.n);
    MulMono(0, row, g.n);
    assert (line + 1) * g.k == line * g.k + g.k;
    MulMono(line + 1, g.m * g.n, g.k);
    MulMono(0, line, g.k);
  }

  function Element(g: Shape, inp: seq<Value>, row: nat, i: nat, col: nat): Value
    requires |inp| == g.m * g.n * g.k && row < g.m && i < g.n && col < g.k
  {
    OffsetInside(g, row, i, col);
    inp[g.Offset(row, i, col)]
  }

  // The n elements that are compared with each other for one output.
  function Line(g: Shape, inp: seq<Value>, row: nat, col: nat): (s: seq<Value>)
    requires |inp| == g.m * g.n * g.k && row < g.m && col < g.k
    ensures |s| == g.n && forall i :: 0 <= i < g.n ==> s[i] == Element(g, inp, row, i, col)
  {
    seq(g.n, i requires 0 <= i < g.n => Element(g, inp, row, i, col))
  }

  // Lanes beyond the last row are masked off.
  function Lines(g: Shape, inp: seq<Value>, first: nat, col: nat): (lanes: Matrix)
    requires |inp| == g.m * g.n * g.k && col < g.k
    ensures |lanes| == g.blockM
    ensures forall r :: 0 <= r < g.blockM ==> lanes[r] == if first + r < g.m then Line(g, inp, first + r, col) else []
  {
    seq(g.blockM, r requires 0 <= r < g.blockM => if first + r < g.m then Line(g, inp, first + r, col) else [])
  }

  lemma LineNumbers(g: Shape, inp: seq<Value>, row: nat, col: nat)
    requires Holds(g, inp) && row < g.m && col < g.k
    ensures NumberRow(Line(g, inp, row, col))
  {
    forall i | 0 <= i < g.n
      ensures !Element(g, inp, row, i, col).NaN?
    {
      OffsetInside(g, row, i, col);
    }
  }

  lemma LinesLoadable(g: Shape, inp: seq<Value>, first: nat, col: nat)
    requires Holds(g, inp) && col < g.k
    ensures Loadable(Lines(g, inp, first, col), g.n)
  {
    var lanes := Lines(g, inp, first, col);
    forall r | 0 <= r < |lanes|
      ensures NumberRow(lanes[r]) && |lanes[r]| <= g.n
    {
      if first + r < g.m {
        LineNumbers(g, inp, first + r, col);
      }
    }
  }

  // Output position `at` belongs to row at / k and trailing element at % k.
  ghost predicate Right(g: Shape, inp: seq<Value>, at: nat, index: int)
    requires g.Valid() && |inp| == g.m * g.n * g.k
  {
    at / g.k < g.m && index == ArgMaxOf(Masked(Line(g, inp, at / g.k, at % g.k)), g.n)
  }

  predicate InBlock(g: Shape, pid: nat, at: nat)
    requires g.Valid()
  {
    at / g.k / g.blockM == pid
  }

  lemma RowOfOutput(g: Shape, at: nat)
    requires g.Valid() && at < g.m * g.k
    ensures at / g.k < g.m
  {
    MulLess(at / g.k, g.m, g.k);
  }

  lemma OutputOfRow(g: Shape, row: nat, col: nat)
    requires g.Valid() && row < g.m && col < g.k
    ensures 0 <= row * g.k + col < g.m * g.k
    ensures (row * g.k + col) / g.k == row && (row * g.k + col) % g.k == col
  {
    MulMono(0, row, g.k);
    MulMono(row + 1, g.m, g.k);
    DivModUnique(row * g.k + col, g.k, row, col);
  }

  // tl.store with a mask, along one column of the output.
  method StoreColumn(out: array<int>, ptrs: Lanes<int>, v: seq<int>, count: nat)
    requires count <= |v| && forall r :: 0 <= r < count ==> 0 <= ptrs(r) < out.Length
    requires forall r, r' :: 0 <= r < count && 0 <= r' < count && ptrs(r) == ptrs(r') ==> r == r'
    modifies out
    ensures forall r :: 0 <= r < count ==> out[ptrs(r)] == v[r]
    ensures forall at :: 0 <= at < out.Length && (forall r :: 0 <= r < count ==> ptrs(r) != at) ==>
              out[at] == old(out[at])
  {
    forall r | 0 <= r < count {
      out[ptrs(r)] := v[r];
    }
  }

  // Between the two states, exactly the block's outputs for trailing elements lo to hi were stored.
  ghost predicate Stored(g: Shape, inp: seq<Value>, pid: nat, lo: nat, hi: nat, before: seq<int>, after: seq<int>)
    requires g.Valid() && |inp| == g.m * g.n * g.k
  {
    && |before| == |after| == g.m * g.k
    && forall at: nat :: at < |after| ==>
         if InBlock(g, pid, at) && lo <= at % g.k < hi then Right(g, inp, at, after[at]) else after[at] == before[at]
  }

  lemma StoredThen(g: Shape, inp: seq<Value>, pid: nat, lo: nat, mid: nat, hi: nat, a: seq<int>, b: seq<int>,
                   c: seq<int>)
    requires g.Valid() && |inp| == g.m * g.n * g.k && lo <= mid <= hi
    requires Stored(g, inp, pid, lo, mid, a, b) && Stored(g, inp, pid, mid, hi, b, c)
    ensures Stored(g, inp, pid, lo, hi, a, c)
  {
    forall at: nat | at < |c|
      ensures if InBlock(g, pid, at) && lo <= at % g.k < hi then Right(g, inp, at, c[at]) else c[at] == a[at]
    {
      if !(mid <= at % g.k < hi) {
        assert c[at] == b[at];
      }
    }
  }

  // The outputs of the block's rows for one trailing element.
  function Ptrs(g: Shape, first: nat, col: nat): (ptrs: Lanes<int>)
    ensures forall r :: ptrs(r) == (first + r) * g.k + col
  {
    r => (first + r) * g.k + col
  }

  // How many of the block's lanes are not masked off.
  function StoredLanes(g: Shape, first: nat): nat {
    if first >= g.m then 0 else if g.m - first < g.blockM then g.m - first else g.blockM
  }

  lemma PtrsInside(g: Shape, first: nat, col: nat, r: nat)
    requires g.Valid() && col < g.k && r < StoredLanes(g, first)
    ensures var at := Ptrs(g, first, col)(r);
            0 <= at < g.m * g.k && at / g.k == first + r && at % g.k == col
  {
    OutputOfRow(g, first + r, col);
  }

  // An output of the block is the output of one of its lanes.
  lemma LaneOfOutput(g: Shape, pid: nat, first: nat, at: nat)
    requires g.Valid() && at < g.m * g.k && first == pid * g.blockM
    ensures InBlock(g, pid, at) <==> first <= at / g.k < first + g.blockM
    ensures InBlock(g, pid, at) ==> at / g.k - first < StoredLanes(g, first)
    ensures Ptrs(g, first, at % g.k)(at / g.k - first) == at
  {
    RowOfOutput(g, at);
    var row := at / g.k;
    assert row == row / g.blockM * g.blockM + row % g.blockM;
    if first <= row < first + g.blockM {
      DivModUnique(row, g.blockM, pid, row - first);
    }
  }

  // The masked store that ends one round of the loop over the trailing elements.
  method StoreRound(g: Shape, ghost inp: seq<Value>, pid: nat, col: nat, indices: seq<int>, out: array<int>)
    requires g.Valid() && |inp| == g.m * g.n * g.k && col < g.k && out.Length == g.m * g.k
    requires |indices| == g.blockM
    requires forall r :: 0 <= r < g.blockM && pid * g.blockM + r < g.m ==>
               indices[r] == ArgMaxOf(Masked(Line(g, inp, pid * g.blockM + r, col)), g.n)
    modifies out
    ensures Stored(g, inp, pid, col, col + 1, old(out[..]), out[..])
  {
    var first := pid * g.blockM;
    var ptrs, count := Ptrs(g, first, col), StoredLanes(g, first);
    forall r | 0 <= r < count
      ensures 0 <= ptrs(r) < out.Length && ptrs(r) / g.k == first + r && ptrs(r) % g.k == col
    {
      PtrsInside(g, first, col, r);
    }
    ghost var before := out[..];
    StoreColumn(out, ptrs, indices, count);
    forall at: nat | at < out.Length
      ensures if InBlock(g, pid, at) && col <= at % g.k < col + 1 then Right(g, inp, at, out[at])
                else out[at] == before[at]
    {
      RowOfOutput(g, at);
      LaneOfOutput(g, pid, first, at);
      if InBlock(g, pid, at) && at % g.k == col {
        assert out[ptrs(at / g.k - first)] == indices[at / g.k - first];
      }
    }
  }

  /** argmax_dim_kernel for one program: exactly the outputs of its block of rows are stored, each with
      the least index of its line's maximum. */
  method ArgMaxDimKernel(g: Shape, inp: seq<Value>, pid: nat, out: array<int>)
    requires g.Valid() && Holds(g, inp) && out.Length == g.m * g.k
    modifies out
    ensures Stored(g, inp, pid, 0, g.k, old(out[..]), out[..])
  {
    ghost var start := out[..];
    MulMono(0, pid, g.blockM);
    for col := 0 to g.k
      invariant Stored(g, inp, pid, 0, col, start, out[..])
    {
      ghost var before := out[..];
      LinesLoadable(g, inp, pid * g.blockM, col);
      var values, indices := ScanRows(Lines(g, inp, pid * g.blockM, col), g.n, g.blockN);
      StoreRound(g, inp, pid, col, indices, out);
      StoredThen(g, inp, pid, 0, col, col + 1, start, before, out[..]);
    }
  }

  // The output belongs to a block of one of these programs.
  ghost predicate InBlocks(g: Shape, pids: set<nat>, at: nat)
    requires g.Valid()
  {
    at / g.k / g.blockM in pids
  }

  // Between the two states, exactly the outputs of these programs' blocks were stored.
  ghost predicate Ran(g: Shape, inp: seq<Value>, pids: set<nat>, before: seq<int>, after: seq<int>)
    requires g.Valid() && |inp| == g.m * g.n * g.k
  {
    && |before| == |after| == g.m * g.k
    && forall at: nat :: at < |after| ==>
         if InBlocks(g, pids, at) then Right(g, inp, at, after[at]) else after[at] == before[at]
  }

  lemma RanThen(g: Shape, inp: seq<Value>, pids: set<nat>, pid: nat, a: seq<int>, b: seq<int>, c: seq<int>)
    requires g.Valid() && |inp| == g.m * g.n * g.k && Ran(g, inp, pids, a, b) && Stored(g, inp, pid, 0, g.k, b, c)
    ensures Ran(g, inp, pids + {pid}, a, c)
  {
    forall at: nat | at < |c|
      ensures if InBlocks(g, pids + {pid}, at) then Right(g, inp, at, c[at]) else c[at] == a[at]
    {
      if !InBlock(g, pid, at) {
        assert c[at] == b[at];
      }
    }
  }

  // Any programs, in any order.
  method RunPrograms(g: Shape, inp: seq<Value>, out: array<int>, order: seq<nat>) returns (ghost pids: set<nat>)
    requires g.Valid() && Holds(g, inp) && out.Length == g.m * g.k
    modifies out
    ensures forall pid :: pid in pids <==> pid in order
    ensures Ran(g, inp, pids, old(out[..]), out[..])
  {
    pids := {};
    for t := 0 to |order|
      invariant forall pid :: pid in pids <==> pid in order[..t]
      invariant Ran(g, inp, pids, old(out[..]), out[..])
    {
      ghost var before := out[..];
      ArgMaxDimKernel(g, inp, order[t], out);
      RanThen(g, inp, pids, order[t], old(out[..]), before, out[..]);
      pids := pids + {order[t]};
    }
    assert order[..|order|] == order;
  }

  lemma BlockOfOutput(g: Shape, at: nat)
    requires g.Valid() && at < g.m * g.k
    ensures at / g.k / g.blockM < CeilDiv(g.m, g.blockM)
  {
    RowOfOutput(g, at);
    QuotientBelow(at / g.k, g.m, g.blockM);
  }

  lemma AllInBlocks(g: Shape, pids: set<nat>, at: nat)
    requires g.Valid() && at < g.m * g.k
    requires forall pid: nat :: pid < CeilDiv(g.m, g.blockM) ==> pid in pids
    ensures InBlocks(g, pids, at)
  {
    BlockOfOutput(g, at);
  }

  /** The launch over ceil(m / blockM) programs in any order: every output is the least index at which
      its line attains its maximum, for all sizes and blocks. */
  method ArgMaxDim(g: Shape, inp: seq<Value>, out: array<int>, order: seq<nat>)
    requires g.Valid() && Holds(g, inp) && out.Length == g.m * g.k
    requires forall pid: nat :: pid < CeilDiv(g.m, g.blockM) ==> pid in order
    modifies out
    ensures forall at: nat :: at < out.Length ==> Right(g, inp, at, out[at])
  {
    ghost var pids := RunPrograms(g, inp, out, order);
    forall at: nat | at < out.Length
      ensures Right(g, inp, at, out[..][at])
    {
      AllInBlocks(g, pids, at);
    }
  }

  // ---- the launch grid of the Python wrapper

  const GRID_CAP: nat := 4096

  // argmax.py, lines 173-176: one program per block of rows, but never more than the cap; the kernel
  // itself does not loop over blocks.
  function WrapperGrid(g: Shape): nat
    requires g.Valid()
  {
    if CeilDiv(g.m, g.blockM) < GRID_CAP then CeilDiv(g.m, g.blockM) else GRID_CAP
  }

  // Output `at` belongs to one of the first 4096 blocks of rows.
  predicate Capped(g: Shape, at: nat)
    requires g.Valid()
  {
    at / g.k / g.blockM < GRID_CAP
  }

  lemma CappedInBlocks(g: Shape, pids: set<nat>, at: nat)
    requires g.Valid() && at < g.m * g.k
    requires forall pid: nat :: pid in pids <==> pid < WrapperGrid(g)
    ensures InBlocks(g, pids, at) <==> Capped(g, at)
  {
    BlockOfOutput(g, at);
  }

  /** The wrapper's launch: exactly the outputs of rows in the first 4096 blocks are computed, all of them
      right; the others keep what the memory held. */
  method ArgMaxWrapper(g: Shape, inp: seq<Value>, out: array<int>, order: seq<nat>)
    requires g.Valid() && Holds(g, inp) && out.Length == g.m * g.k
    requires forall pid: nat :: pid in order <==> pid < WrapperGrid(g)
    modifies out
    ensures forall at: nat :: at < out.Length ==>
              if Capped(g, at) then Right(g, inp, at, out[at]) else out[at] == old(out[at])
  {
    ghost var before := out[..];
    ghost var pids := RunPrograms(g, inp, out, order);
    forall at: nat | at < out.Length
      ensures if Capped(g, at) then Right(g, inp, at, out[..][at]) else out[..][at] == before[at]
    {
      CappedInBlocks(g, pids, at);
    }
  }

  /** So the wrapper computes every output exactly when there are at most 4096 blocks of rows. */
  lemma WrapperCovers(g: Shape)
    requires g.Valid()
    ensures (forall at: nat :: at < g.m * g.k ==> Capped(g, at)) <==> CeilDiv(g.m, g.blockM) <= GRID_CAP
  {
    if CeilDiv(g.m, g.blockM) <= GRID_CAP {
      forall at: nat | at < g.m * g.k
        ensures Capped(g, at)
      {
        BlockOfOutput(g, at);
      }
    } else {
      var row := GRID_CAP * g.blockM;
      CeilDivCovers(g.m, g.blockM);
      MulMono(GRID_CAP + 1, CeilDiv(g.m, g.blockM), g.blockM);
      DivModUnique(row, g.blockM, GRID_CAP, 0);
      OutputOfRow(g, row, 0);
      var at: nat := row * g.k;
      assert at < g.m * g.k && !Capped(g, at);
    }
  }

  // ---- max along the last dimension

  // The lanes of one row after `start` columns: together they have seen all of them.
  ghost predicate Kept(s: seq<Value>, start: nat, acc: Lanes<Value>, blockN: nat) {
    Inputs(acc) && MaxOf(acc, blockN) == MaxOf(Masked(s), start)
  }

  function Bottom(): (acc: Lanes<Value>)
    ensures forall c :: acc(c) == NegInf
  {
    c => NegInf
  }

  // tl.maximum, lane by lane.
  function Maxima(a: Lanes<Value>, b: Lanes<Value>): (r: Lanes<Value>)
    ensures forall c :: r(c) == Max(a(c), b(c))
  {
    c => Max(a(c), b(c))
  }

  lemma KeptAtFirst(s: seq<Value>, blockN: nat)
    ensures Kept(s, 0, Bottom(), blockN)
  {
    MaxTail(Bottom(), 0, blockN);
  }

  lemma KeptNext(s: seq<Value>, start: nat, acc: Lanes<Value>, blockN: nat)
    requires NumberRow(s) && Kept(s, start, acc, blockN)
    ensures Kept(s, start + blockN, Maxima(acc, TileOf(s, start)), blockN)
  {
    MaxMerge(acc, TileOf(s, start), Maxima(acc, TileOf(s, start)), blockN);
    MaxShift(Masked(s), TileOf(s, start), start, blockN);
  }

  // One block of rows: lines 103-112.
  method RowMaxima(lanes: Matrix, n: nat, blockN: nat) returns (values: seq<Value>)
    requires Loadable(lanes, n) && blockN > 0
    ensures |values| == |lanes|
    ensures forall r :: 0 <= r < |lanes| ==> values[r] == MaxOf(Masked(lanes[r]), n)
  {
    var acc: seq<Lanes<Value>> := seq(|lanes|, _ => Bottom());
    var off := 0;
    forall r | 0 <= r < |lanes|
      ensures Kept(lanes[r], 0, acc[r], blockN)
    {
      KeptAtFirst(lanes[r], blockN);
    }
    while off < n
      invariant 0 <= off && |acc| == |lanes|
      invariant forall r :: 0 <= r < |lanes| ==> Kept(lanes[r], off, acc[r], blockN)
    {
      var before := acc;
      acc := seq(|lanes|, r requires 0 <= r < |lanes| => Maxima(before[r], TileOf(lanes[r], off)));
      forall r | 0 <= r < |lanes|
        ensures Kept(lanes[r], off + blockN, acc[r], blockN)
      {
        KeptNext(lanes[r], off, before[r], blockN);
      }
      off := off + blockN;
    }
    values := seq(|lanes|, r requires 0 <= r < |lanes| => MaxOf(acc[r], blockN));
    forall r | 0 <= r < |lanes|
      ensures values[r] == MaxOf(Masked(lanes[r]), n)
    {
      MaxTail(Masked(lanes[r]), n, off);
    }
  }

  ghost predicate Maximal(x: Matrix, n: nat, out: seq<Value>, m: nat)
    requires m < |x| && m < |out|
  {
    out[m] == MaxOf(Masked(x[m]), n)
  }

  // Exactly the rows in `done` have received their maximum since the array held `before`.
  ghost predicate MaximaOf(x: Matrix, n: nat, before: seq<Value>, after: seq<Value>, done: set<nat>)
    requires |before| == |after| == |x|
  {
    forall m: nat :: m < |x| ==> if m in done then Maximal(x, n, after, m) else after[m] == before[m]
  }

  lemma MaximaThen(x: Matrix, n: nat, a: seq<Value>, b: seq<Value>, c: seq<Value>, first: set<nat>, second: set<nat>)
    requires |a| == |b| == |c| == |x| && MaximaOf(x, n, a, b, first) && MaximaOf(x, n, b, c, second)
    ensures MaximaOf(x, n, a, c, first + second)
  {
    forall m: nat | m < |x|
      ensures if m in first + second then Maximal(x, n, c, m) else c[m] == a[m]
    {
      if m !in second {
        assert c[m] == b[m];
      }
    }
  }

  // One worker's step w: its block of rows is stored, nothing else.
  method MaxStep(x: Matrix, n: nat, blockM: nat, blockN: nat, pid: nat, w: nat, workers: nat, out: array<Value>)
    requires Shaped(x, n) && blockM > 0 && blockN > 0 && out.Length == |x|
    modifies out
    ensures MaximaOf(x, n, old(out[..]), out[..], HandledIn(pid, w, workers, blockM, |x|))
  {
    MulMono(0, w, workers);
    MulMono(0, pid + w * workers, blockM);
    var first := (pid + w * workers) * blockM;
    var values := RowMaxima(Block(x, first, blockM), n, blockN);
    forall r | 0 <= r < blockM && first + r < out.Length {
      out[first + r] := values[r];
    }
    forall m: nat | m < |x| && Handles(pid, w, workers, blockM, m)
      ensures Maximal(x, n, out[..], m)
    {
      assert out[first + (m - first)] == values[m - first];
      assert Block(x, first, blockM)[m - first] == x[m];
    }
  }

  /** max_dim_kernel for one worker: exactly its rows receive their maximum. */
  method MaxDimKernel(inp: seq<Value>, rows: nat, n: nat, blockM: nat, blockN: nat, pid: nat, workers: nat,
                      out: array<Value>)
    requires |inp| == rows * n && NumberRow(inp) && blockM > 0 && blockN > 0 && pid < workers && out.Length == rows
    modifies out
    ensures MaximaOf(RowsOf(inp, rows, n), n, old(out[..]), out[..], RowsOfWorker(pid, workers, blockM, rows))
  {
    var x := RowsOf(inp, rows, n);
    RowsShaped(inp, rows, n);
    HandledNone(pid, workers, blockM, rows);
    for w := 0 to CeilDiv(CeilDiv(rows, blockM), workers)
      invariant MaximaOf(x, n, old(out[..]), out[..], HandledBefore(pid, w, workers, blockM, rows))
    {
      ghost var before := out[..];
      MaxStep(x, n, blockM, blockN, pid, w, workers, out);
      HandledNext(pid, w, workers, blockM, rows);
      MaximaThen(x, n, old(out[..]), before, out[..], HandledBefore(pid, w, workers, blockM, rows),
                 HandledIn(pid, w, workers, blockM, rows));
    }
    HandledAll(pid, workers, blockM, rows);
  }

  /** The launch, workers in any order: every row has its maximum. */
  method MaxDim(inp: seq<Value>, rows: nat, n: nat, blockM: nat, blockN: nat, workers: nat, order: seq<nat>,
                out: array<Value>)
    requires |inp| == rows * n && NumberRow(inp) && blockM > 0 && blockN > 0 && workers > 0 && out.Length == rows
    requires forall p: nat :: p in order <==> p < workers
    modifies out
    ensures forall m: nat :: m < rows ==> out[m] == MaxOf(Masked(RowOf(inp, rows, n, m)), n)
  {
    ghost var x, done: set<nat> := RowsOf(inp, rows, n), {};
    for t := 0 to |order|
      invariant MaximaOf(x, n, old(out[..]), out[..], done)
      invariant forall k :: 0 <= k < t ==> RowsOfWorker(order[k], workers, blockM, rows) <= done
    {
      ghost var before := out[..];
      assert order[t] in order;
      MaxDimKernel(inp, rows, n, blockM, blockN, order[t], workers, out);
      MaximaThen(x, n, old(out[..]), before, out[..], done, RowsOfWorker(order[t], workers, blockM, rows));
      done := done + RowsOfWorker(order[t], workers, blockM, rows);
    }
    forall m: nat | m < rows
      ensures out[m] == MaxOf(Masked(RowOf(inp, rows, n, m)), n)
    {
      var p: nat := m / blockM % workers;
      assert m in RowsOfWorker(p, workers, blockM, rows);
      assert p in order;
      assert Maximal(x, n, out[..], m);
    }
  }
}
