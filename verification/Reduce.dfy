/** Maximum and argmax reductions (operators/reduce/max/max.py, lines 81-160, and
    operators/reduce/argmax/argmax.py, lines 32-67 and 173-176): worker-strided blocks of rows, blocked
    scans of a row, and the two-pass reduction of a whole tensor. */
module Reduce {
  import opened Arithmetic
  import opened Softmax

  predicate Less(a: Value, b: Value) {
    Le(a, b) && a != b
  }

  // tl.argmax: ties go to the left.
  function ArgMaxOf(f: Lanes<Value>, n: nat): (i: nat)
    ensures n > 0 ==> i < n
    ensures n == 0 ==> i == 0
  {
    if n <= 1 then 0
    else
      var a := ArgMaxOf(f, n - 1);
      if Less(f(a), f(n - 1)) then n - 1 else a
  }

  /** The definition: the least index that attains the maximum. */
  lemma {:induction false} ArgMaxIsLeast(f: Lanes<Value>, n: nat)
    requires n > 0 && Inputs(f)
    ensures f(ArgMaxOf(f, n)) == MaxOf(f, n)
    ensures forall i :: 0 <= i < ArgMaxOf(f, n) ==> f(i) != MaxOf(f, n)
  {
    if n == 1 {
      assert MaxOf(f, 1) == Max(MaxOf(f, 0), f(0));
    } else {
      ArgMaxIsLeast(f, n - 1);
      if Less(f(ArgMaxOf(f, n - 1)), f(n - 1)) {
        forall i | 0 <= i < n - 1
          ensures f(i) != MaxOf(f, n)
        {
          MaxBounds(f, n - 1, i);
        }
      }
    }
  }

  lemma LeastIsUnique(f: Lanes<Value>, n: nat, i: nat)
    requires n > 0 && Inputs(f) && i < n && f(i) == MaxOf(f, n)
    requires forall k :: 0 <= k < i ==> f(k) != MaxOf(f, n)
    ensures i == ArgMaxOf(f, n)
  {
    ArgMaxIsLeast(f, n);
  }

  /** Scanning one more block: the running index moves only for a strictly greater block maximum. */
  lemma ArgMaxMerge(f: Lanes<Value>, h: Lanes<Value>, from: nat, n: nat)
    requires n > 0 && Inputs(f) && Inputs(h) && forall c :: 0 <= c < n ==> h(c) == f(from + c)
    ensures ArgMaxOf(f, from + n)
         == if Less(MaxOf(f, from), MaxOf(h, n)) then from + ArgMaxOf(h, n) else ArgMaxOf(f, from)
    ensures MaxOf(f, from + n) == if Less(MaxOf(f, from), MaxOf(h, n)) then MaxOf(h, n) else MaxOf(f, from)
  {
    MaxShift(f, h, from, n);
    MaxNumber(f, from);
    MaxNumber(h, n);
    if Less(MaxOf(f, from), MaxOf(h, n)) {
      MergedRight(f, h, from, n);
    } else {
      MergedLeft(f, h, from, n);
    }
  }

  lemma MergedRight(f: Lanes<Value>, h: Lanes<Value>, from: nat, n: nat)
    requires n > 0 && Inputs(f) && Inputs(h) && forall c :: 0 <= c < n ==> h(c) == f(from + c)
    requires MaxOf(f, from + n) == MaxOf(h, n) && Less(MaxOf(f, from), MaxOf(h, n))
    ensures ArgMaxOf(f, from + n) == from + ArgMaxOf(h, n)
  {
    ArgMaxIsLeast(h, n);
    forall k | 0 <= k < from + ArgMaxOf(h, n)
      ensures f(k) != MaxOf(f, from + n)
    {
      if k < from {
        MaxBounds(f, from, k);
      } else {
        assert f(k) == h(k - from);
      }
    }
    LeastIsUnique(f, from + n, from + ArgMaxOf(h, n));
  }

  lemma MergedLeft(f: Lanes<Value>, h: Lanes<Value>, from: nat, n: nat)
    requires n > 0 && Inputs(f) && Inputs(h) && forall c :: 0 <= c < n ==> h(c) == f(from + c)
    requires MaxOf(f, from + n) == MaxOf(f, from) && !Less(MaxOf(f, from), MaxOf(h, n))
    ensures ArgMaxOf(f, from + n) == ArgMaxOf(f, from)
  {
    if from > 0 {
      ArgMaxIsLeast(f, from);
      LeastIsUnique(f, from + n, ArgMaxOf(f, from));
    } else {
      MaxBounds(h, n, 0);
      assert f(0) == h(0);
      LeastIsUnique(f, from + n, 0);
    }
  }

  // ---- which worker handles which row

  // Blocks of rows are dealt out to workers in turn: block w * workers + pid goes to worker pid.
  predicate Handles(pid: nat, w: nat, workers: nat, blockM: nat, m: int) {
    (pid + w * workers) * blockM <= m < (pid + w * workers) * blockM + blockM
  }

  lemma QuotientBelow(x: nat, total: nat, d: nat)
    requires d > 0 && x < total
    ensures 0 <= x / d < CeilDiv(total, d)
  {
    CeilDivCovers(total, d);
    var q, r := x / d, x % d;
    assert x == q * d + r;
    if q < 0 {
      MulMono(q, -1, d);
    }
    MulLess(q, CeilDiv(total, d), d);
  }

  // Both forms of "row m is in block w * workers + pid".
  lemma HandlesIs(m: nat, blockM: nat, workers: nat, pid: nat, w: nat)
    requires blockM > 0 && workers > 0 && pid < workers
    ensures Handles(pid, w, workers, blockM, m) <==> m / blockM == pid + w * workers
  {
    var block := pid + w * workers;
    assert m == m / blockM * blockM + m % blockM;
    if Handles(pid, w, workers, blockM, m) {
      DivModUnique(m, blockM, block, m - block * blockM);
    }
  }

  /** Every row belongs to exactly one block of exactly one worker, and that worker's loop reaches it. */
  lemma OneWorker(m: nat, rows: nat, blockM: nat, workers: nat, pid: nat, w: nat)
    requires blockM > 0 && workers > 0 && m < rows && pid < workers
    ensures Handles(pid, w, workers, blockM, m) <==> pid == m / blockM % workers && w == m / blockM / workers
    ensures m / blockM / workers < CeilDiv(CeilDiv(rows, blockM), workers)
  {
    QuotientBelow(m, rows, blockM);
    QuotientBelow(m / blockM, CeilDiv(rows, blockM), workers);
    HandlesIs(m, blockM, workers, pid, w);
    InTurn(m / blockM, workers, pid, w);
  }

  lemma InTurn(block: nat, workers: nat, pid: nat, w: nat)
    requires workers > 0 && pid < workers
    ensures block == pid + w * workers <==> pid == block % workers && w == block / workers
  {
    if block == pid + w * workers {
      DivModUnique(block, workers, w, pid);
    }
    assert block == block / workers * workers + block % workers;
  }

  // ---- the kernels

  // A matrix by rows, all of them n long.
  type Matrix = seq<seq<Value>>

  ghost predicate Shaped(x: Matrix, n: nat) {
    forall m :: 0 <= m < |x| ==> |x[m]| == n && forall i :: 0 <= i < n ==> !x[m][i].NaN?
  }

  lemma RowInside(rows: nat, n: nat, m: nat)
    requires m < rows
    ensures 0 <= m * n && m * n + n <= rows * n
  {
    MulMono(0, m, n);
    MulMono(m + 1, rows, n);
  }

  // Row m of a contiguous tensor: the elements at m * n + column.
  function RowOf(inp: seq<Value>, rows: nat, n: nat, m: nat): (row: seq<Value>)
    requires |inp| == rows * n && m < rows
    ensures |row| == n
  {
    RowInside(rows, n, m);
    inp[m * n..m * n + n]
  }

  function RowsOf(inp: seq<Value>, rows: nat, n: nat): (x: Matrix)
    requires |inp| == rows * n
    ensures |x| == rows && forall m :: 0 <= m < rows ==> x[m] == RowOf(inp, rows, n, m)
  {
    seq(rows, m requires 0 <= m < rows => RowOf(inp, rows, n, m))
  }

  lemma RowsShaped(inp: seq<Value>, rows: nat, n: nat)
    requires |inp| == rows * n && NumberRow(inp)
    ensures Shaped(RowsOf(inp, rows, n), n)
  {
    forall m, i | 0 <= m < rows && 0 <= i < n
      ensures !RowsOf(inp, rows, n)[m][i].NaN?
    {
      RowInside(rows, n, m);
      assert RowOf(inp, rows, n, m)[i] == inp[m * n + i];
    }
  }

  // A row as masked loads see it: -inf outside.
  function Masked(s: seq<Value>): (x: Lanes<Value>)
    ensures forall i :: x(i) == if 0 <= i < |s| then s[i] else NegInf
  {
    i => if 0 <= i < |s| then s[i] else NegInf
  }

  // tl.load of one row's part of a block.
  function TileOf(s: seq<Value>, start: nat): (tile: Lanes<Value>)
    ensures forall c :: tile(c) == if 0 <= start + c < |s| then s[start + c] else NegInf
  {
    c => if 0 <= start + c < |s| then s[start + c] else NegInf
  }

  // One row after its first `upto` columns.
  predicate RowScanned(s: seq<Value>, upto: nat, value: Value, index: int) {
    value == MaxOf(Masked(s), upto) && index == ArgMaxOf(Masked(s), upto)
  }

  lemma {:induction false} TailKeeps(f: Lanes<Value>, n: nat, more: nat)
    requires n <= more && Inputs(f) && forall i :: n <= i < more ==> f(i) == NegInf
    ensures MaxOf(f, more) == MaxOf(f, n) && ArgMaxOf(f, more) == ArgMaxOf(f, n)
    decreases more
  {
    MaxNumber(f, n);
    if n < more {
      TailKeeps(f, n, more - 1);
    }
  }

  // Lines 154-156 for one row.
  function NextValue(value: Value, s: seq<Value>, start: nat, blockN: nat): Value {
    var localMax := MaxOf(TileOf(s, start), blockN);
    if Less(value, localMax) then localMax else value
  }

  function NextIndex(value: Value, index: int, s: seq<Value>, start: nat, blockN: nat): int {
    if Less(value, MaxOf(TileOf(s, start), blockN)) then start + ArgMaxOf(TileOf(s, start), blockN) else index
  }

  ghost predicate NumberRow(s: seq<Value>) {
    forall i :: 0 <= i < |s| ==> !s[i].NaN?
  }

  /** One tile of one row. */
  lemma RowStep(s: seq<Value>, start: nat, blockN: nat, value: Value, index: int)
    requires NumberRow(s) && blockN > 0 && RowScanned(s, start, value, index)
    ensures RowScanned(s, start + blockN, NextValue(value, s, start, blockN), NextIndex(value, index, s, start, blockN))
  {
    ArgMaxMerge(Masked(s), TileOf(s, start), start, blockN);
  }

  lemma RowEnds(s: seq<Value>, upto: nat, value: Value, index: int)
    requires NumberRow(s) && |s| <= upto && RowScanned(s, upto, value, index)
    ensures forall n: nat :: |s| <= n <= upto ==> RowScanned(s, n, value, index)
  {
    forall n: nat | |s| <= n <= upto
      ensures RowScanned(s, n, value, index)
    {
      TailKeeps(Masked(s), n, upto);
    }
  }

  // A block of rows, lane by lane.
  ghost predicate Scanned(lanes: Matrix, upto: nat, values: seq<Value>, indices: seq<int>) {
    && |values| == |lanes| && |indices| == |lanes|
    && forall r :: 0 <= r < |lanes| ==> RowScanned(lanes[r], upto, values[r], indices[r])
  }

  ghost predicate Loadable(lanes: Matrix, n: nat) {
    forall r :: 0 <= r < |lanes| ==> NumberRow(lanes[r]) && |lanes[r]| <= n
  }

  /** Lines 139-156: the scan of a block of rows in blocks of blockN columns. */
  method ScanRows(lanes: Matrix, n: nat, blockN: nat) returns (values: seq<Value>, indices: seq<int>)
    requires Loadable(lanes, n) && blockN > 0
    ensures Scanned(lanes, n, values, indices)
  {
    values := seq(|lanes|, _ => NegInf);
    indices := seq(|lanes|, _ => 0);
    var start := 0;
    while start < n
      invariant 0 <= start && Scanned(lanes, start, values, indices)
    {
      var before, places := values, indices;
      values := seq(|lanes|, r requires 0 <= r < |lanes| => NextValue(before[r], lanes[r], start, blockN));
      indices := seq(|lanes|, r requires 0 <= r < |lanes| => NextIndex(before[r], places[r], lanes[r], start, blockN));
      forall r | 0 <= r < |lanes|
        ensures RowScanned(lanes[r], start + blockN, values[r], indices[r])
      {
        RowStep(lanes[r], start, blockN, before[r], places[r]);
      }
      start := start + blockN;
    }
    forall r | 0 <= r < |lanes|
      ensures RowScanned(lanes[r], n, values[r], indices[r])
    {
      RowEnds(lanes[r], start, values[r], indices[r]);
    }
  }

  // A row's stored results are right.
  ghost predicate RowDone(x: Matrix, n: nat, vals: seq<Value>, idx: seq<int>, m: nat)
    requires m < |x| && m < |vals| && m < |idx|
  {
    RowScanned(x[m], n, vals[m], idx[m])
  }

  // The rows of a block; lanes beyond the last row are masked off altogether.
  function Block(x: Matrix, first: nat, blockM: nat): (lanes: Matrix)
    ensures |lanes| == blockM
    ensures forall r :: 0 <= r < blockM ==> lanes[r] == if first + r < |x| then x[first + r] else []
  {
    seq(blockM, r requires 0 <= r < blockM => if first + r < |x| then x[first + r] else [])
  }

  // Lines 158-160: the masked stores of one block of rows.
  method StoreRows(ghost x: Matrix, ghost n: nat, first: nat, blockM: nat,
                   values: seq<Value>, indices: seq<int>, outVals: array<Value>, outIdx: array<int>)
    requires outVals.Length == |x| && outIdx.Length == |x|
    requires Scanned(Block(x, first, blockM), n, values, indices)
    modifies outVals, outIdx
    ensures forall m :: first <= m < first + blockM && m < |x| ==> RowDone(x, n, outVals[..], outIdx[..], m)
    ensures forall m :: 0 <= m < |x| && !(first <= m < first + blockM) ==>
              outVals[m] == old(outVals[m]) && outIdx[m] == old(outIdx[m])
  {
    forall r | 0 <= r < blockM && first + r < outVals.Length {
      outVals[first + r] := values[r];
    }
    forall r | 0 <= r < blockM && first + r < outIdx.Length {
      outIdx[first + r] := indices[r];
    }
    forall m | first <= m < first + blockM && m < |x|
      ensures RowDone(x, n, outVals[..], outIdx[..], m)
    {
      var r := m - first;
      assert outVals[first + r] == values[r] && outIdx[first + r] == indices[r];
      assert Block(x, first, blockM)[r] == x[m];
    }
  }

  // The rows that worker pid handles in step w, and in all its steps before.
  function HandledIn(pid: nat, w: nat, workers: nat, blockM: nat, rows: nat): set<nat> {
    set m: nat | m < rows && Handles(pid, w, workers, blockM, m)
  }

  function HandledBefore(pid: nat, w: nat, workers: nat, blockM: nat, rows: nat): set<nat>
    requires blockM > 0 && workers > 0
  {
    set m: nat | m < rows && m / blockM % workers == pid && m / blockM / workers < w
  }

  // All rows of worker pid.
  function RowsOfWorker(pid: nat, workers: nat, blockM: nat, rows: nat): set<nat>
    requires blockM > 0 && workers > 0
  {
    set m: nat | m < rows && m / blockM % workers == pid
  }

  lemma HandledNext(pid: nat, w: nat, workers: nat, blockM: nat, rows: nat)
    requires blockM > 0 && workers > 0 && pid < workers
    ensures HandledBefore(pid, w + 1, workers, blockM, rows)
         == HandledBefore(pid, w, workers, blockM, rows) + HandledIn(pid, w, workers, blockM, rows)
  {
    forall m: nat | m < rows
      ensures m in HandledBefore(pid, w + 1, workers, blockM, rows) <==>
              m in HandledBefore(pid, w, workers, blockM, rows) || m in HandledIn(pid, w, workers, blockM, rows)
    {
      OneWorker(m, rows, blockM, workers, pid, w);
    }
  }

  /** A worker's loop reaches all its rows. */
  lemma HandledAll(pid: nat, workers: nat, blockM: nat, rows: nat)
    requires blockM > 0 && workers > 0 && pid < workers
    ensures HandledBefore(pid, CeilDiv(CeilDiv(rows, blockM), workers), workers, blockM, rows)
         == RowsOfWorker(pid, workers, blockM, rows)
  {
    forall m: nat | m < rows
      ensures m / blockM / workers < CeilDiv(CeilDiv(rows, blockM), workers)
    {
      OneWorker(m, rows, blockM, workers, pid, 0);
    }
  }

  // Exactly the rows in `done` have been stored since the arrays held vals0 and idx0.
  ghost predicate Progress(x: Matrix, n: nat, vals0: seq<Value>, idx0: seq<int>, vals: seq<Value>, idx: seq<int>,
                           done: set<nat>)
    requires |vals0| == |vals| == |idx0| == |idx| == |x|
  {
    forall m: nat :: m < |vals| ==>
      if m in done then RowDone(x, n, vals, idx, m) else vals[m] == vals0[m] && idx[m] == idx0[m]
  }

  lemma ProgressThen(x: Matrix, n: nat, vals0: seq<Value>, idx0: seq<int>, vals1: seq<Value>, idx1: seq<int>,
                     vals2: seq<Value>, idx2: seq<int>, first: set<nat>, second: set<nat>)
    requires |vals0| == |idx0| == |vals1| == |idx1| == |vals2| == |idx2| == |x|
    requires Progress(x, n, vals0, idx0, vals1, idx1, first) && Progress(x, n, vals1, idx1, vals2, idx2, second)
    ensures Progress(x, n, vals0, idx0, vals2, idx2, first + second)
  {
    forall m: nat | m < |x|
      ensures if m in first + second then RowDone(x, n, vals2, idx2, m)
              else vals2[m] == vals0[m] && idx2[m] == idx0[m]
    {
      if m !in second {
        assert vals2[m] == vals1[m] && idx2[m] == idx1[m];
      }
    }
  }

  // Lines 135-160: the block of rows that worker pid handles in step w.
  method Step(x: Matrix, n: nat, blockM: nat, blockN: nat, pid: nat, w: nat, workers: nat,
              outVals: array<Value>, outIdx: array<int>)
    requires Shaped(x, n) && blockM > 0 && blockN > 0
    requires outVals.Length == |x| && outIdx.Length == |x|
    modifies outVals, outIdx
    ensures Progress(x, n, old(outVals[..]), old(outIdx[..]), outVals[..], outIdx[..],
                     HandledIn(pid, w, workers, blockM, |x|))
  {
    MulMono(0, w, workers);
    MulMono(0, pid + w * workers, blockM);
    var first := (pid + w * workers) * blockM;
    var values, indices := ScanRows(Block(x, first, blockM), n, blockN);
    StoreRows(x, n, first, blockM, values, indices, outVals, outIdx);
  }

  // One more step on top of those before.
  method NextStep(x: Matrix, n: nat, blockM: nat, blockN: nat, pid: nat, w: nat, workers: nat,
                  outVals: array<Value>, outIdx: array<int>, ghost vals0: seq<Value>, ghost idx0: seq<int>)
    requires Shaped(x, n) && blockM > 0 && blockN > 0 && pid < workers
    requires outVals.Length == outIdx.Length == |vals0| == |idx0| == |x|
    requires Progress(x, n, vals0, idx0, outVals[..], outIdx[..], HandledBefore(pid, w, workers, blockM, |x|))
    modifies outVals, outIdx
    ensures Progress(x, n, vals0, idx0, outVals[..], outIdx[..], HandledBefore(pid, w + 1, workers, blockM, |x|))
  {
    ghost var vals, idx := outVals[..], outIdx[..];
    Step(x, n, blockM, blockN, pid, w, workers, outVals, outIdx);
    HandledNext(pid, w, workers, blockM, |x|);
    ProgressThen(x, n, vals0, idx0, vals, idx, outVals[..], outIdx[..],
                 HandledBefore(pid, w, workers, blockM, |x|), HandledIn(pid, w, workers, blockM, |x|));
  }

  /** max_with_indices_kernel for one worker: exactly its rows receive their maximum and the least index
      attaining it; no other row changes. */
  method MaxWithIndices(inp: seq<Value>, rows: nat, n: nat, blockM: nat, blockN: nat, pid: nat, workers: nat,
                        outVals: array<Value>, outIdx: array<int>)
    requires |inp| == rows * n && NumberRow(inp) && blockM > 0 && blockN > 0 && pid < workers
    requires outVals.Length == rows && outIdx.Length == rows
    modifies outVals, outIdx
    ensures Progress(RowsOf(inp, rows, n), n, old(outVals[..]), old(outIdx[..]), outVals[..], outIdx[..],
                     RowsOfWorker(pid, workers, blockM, rows))
  {
    ghost var vals0, idx0 := outVals[..], outIdx[..];
    var x := RowsOf(inp, rows, n);
    RowsShaped(inp, rows, n);
    HandledNone(pid, workers, blockM, rows);
    for w := 0 to CeilDiv(CeilDiv(rows, blockM), workers)
      invariant Progress(x, n, vals0, idx0, outVals[..], outIdx[..], HandledBefore(pid, w, workers, blockM, rows))
    {
      NextStep(x, n, blockM, blockN, pid, w, workers, outVals, outIdx, vals0, idx0);
    }
    HandledAll(pid, workers, blockM, rows);
  }

  lemma HandledNone(pid: nat, workers: nat, blockM: nat, rows: nat)
    requires blockM > 0 && workers > 0
    ensures HandledBefore(pid, 0, workers, blockM, rows) == {}
  {
  }

  /** The whole launch, workers in any order: every row has its maximum and the least index attaining it. */
  method Launch(inp: seq<Value>, rows: nat, n: nat, blockM: nat, blockN: nat, workers: nat, order: seq<nat>,
                outVals: array<Value>, outIdx: array<int>)
    requires |inp| == rows * n && NumberRow(inp) && blockM > 0 && blockN > 0 && workers > 0
    requires outVals.Length == rows && outIdx.Length == rows
    requires forall p: nat :: p in order <==> p < workers
    modifies outVals, outIdx
    ensures forall m: nat :: m < rows ==>
              var row := Masked(RowOf(inp, rows, n, m));
              outVals[m] == MaxOf(row, n) && outIdx[m] == ArgMaxOf(row, n)
  {
    ghost var x, done: set<nat> := RowsOf(inp, rows, n), {};
    for t := 0 to |order|
      invariant Progress(x, n, old(outVals[..]), old(outIdx[..]), outVals[..], outIdx[..], done)
      invariant forall k :: 0 <= k < t ==> RowsOfWorker(order[k], workers, blockM, rows) <= done
    {
      ghost var vals, idx := outVals[..], outIdx[..];
      assert order[t] in order;
      MaxWithIndices(inp, rows, n, blockM, blockN, order[t], workers, outVals, outIdx);
      ProgressThen(x, n, old(outVals[..]), old(outIdx[..]), vals, idx, outVals[..], outIdx[..],
                   done, RowsOfWorker(order[t], workers, blockM, rows));
      done := done + RowsOfWorker(order[t], workers, blockM, rows);
    }
    forall m: nat | m < rows
      ensures RowScanned(x[m], n, outVals[m], outIdx[m])
    {
      var p: nat := m / blockM % workers;
      assert m in RowsOfWorker(p, workers, blockM, rows);
      assert p in order;
    }
  }

  // ---- the argmax of a whole tensor, in two passes

  // The blocks of the first pass, each as it is loaded.
  function BlockMax(s: seq<Value>, size: nat, b: int): Value {
    if b < 0 then NegInf else MaxOf(TileOf(s, b * size), size)
  }

  function BlockMaxima(s: seq<Value>, size: nat): Lanes<Value> {
    b => BlockMax(s, size, b)
  }

  // The global index that the first pass stores for a block.
  function BlockBest(s: seq<Value>, size: nat, b: nat): int {
    b * size + ArgMaxOf(TileOf(s, b * size), size)
  }

  // The first `blocks` blocks, which end at `end`, determine maximum and index up to there.
  ghost predicate Passed(s: seq<Value>, size: nat, blocks: nat, end: nat) {
    && MaxOf(Masked(s), end) == MaxOf(BlockMaxima(s, size), blocks)
    && ArgMaxOf(Masked(s), end) == BlockBest(s, size, ArgMaxOf(BlockMaxima(s, size), blocks))
  }

  /** Maxima of blocks determine the maximum; the first best block holds the first best element. */
  lemma {:induction false} TwoPasses(s: seq<Value>, size: nat, blocks: nat, end: nat)
    requires NumberRow(s) && size > 0 && blocks > 0 && end == blocks * size
    ensures Passed(s, size, blocks, end)
  {
    if blocks == 1 {
      OnePass(s, size);
    } else {
      assert end - size == (blocks - 1) * size;
      MulMono(0, blocks - 1, size);
      TwoPasses(s, size, blocks - 1, end - size);
      OneMoreBlock(s, size, blocks - 1, end - size);
    }
  }

  lemma OneMoreBlock(s: seq<Value>, size: nat, blocks: nat, end: nat)
    requires NumberRow(s) && size > 0 && blocks > 0 && end == blocks * size && Passed(s, size, blocks, end)
    ensures Passed(s, size, blocks + 1, end + size)
  {
    var g := BlockMaxima(s, size);
    BlocksAreNumbers(s, size);
    ArgMaxIsLeast(g, blocks);
    MaxNumber(g, blocks);
    assert g(blocks) == MaxOf(TileOf(s, end), size);
    ArgMaxMerge(Masked(s), TileOf(s, end), end, size);
    LastStep(g, blocks);
  }

  lemma LastStep(g: Lanes<Value>, n: nat)
    requires n > 0 && Inputs(g) && g(ArgMaxOf(g, n)) == MaxOf(g, n)
    ensures MaxOf(g, n + 1) == if Less(MaxOf(g, n), g(n)) then g(n) else MaxOf(g, n)
    ensures ArgMaxOf(g, n + 1) == if Less(MaxOf(g, n), g(n)) then n else ArgMaxOf(g, n)
  {
    MaxNumber(g, n);
  }

  lemma OnePass(s: seq<Value>, size: nat)
    requires NumberRow(s) && size > 0
    ensures Passed(s, size, 1, size)
  {
    BlocksAreNumbers(s, size);
    FirstBlock(BlockMaxima(s, size));
    MaxAgree(Masked(s), TileOf(s, 0), size);
    SameArgMax(Masked(s), TileOf(s, 0), size);
  }

  lemma FirstBlock(g: Lanes<Value>)
    requires Inputs(g)
    ensures MaxOf(g, 1) == g(0) && ArgMaxOf(g, 1) == 0
  {
    assert MaxOf(g, 1) == Max(MaxOf(g, 0), g(0));
  }

  lemma BlocksAreNumbers(s: seq<Value>, size: nat)
    requires NumberRow(s)
    ensures Inputs(BlockMaxima(s, size))
  {
    forall b
      ensures !BlockMaxima(s, size)(b).NaN?
    {
      if b >= 0 {
        MaxNumber(TileOf(s, b * size), size);
      }
    }
  }

  // argmax_kernel_1 for one block.
  method ArgMaxKernel1(s: seq<Value>, size: nat, pid: nat, midValue: array<Value>, midIndex: array<int>)
    requires pid < midValue.Length && pid < midIndex.Length
    modifies midValue, midIndex
    ensures midValue[pid] == BlockMax(s, size, pid)
    ensures midIndex[pid] == BlockBest(s, size, pid)
    ensures forall b :: 0 <= b < midValue.Length && b != pid ==> midValue[b] == old(midValue[b])
    ensures forall b :: 0 <= b < midIndex.Length && b != pid ==> midIndex[b] == old(midIndex[b])
  {
    var inpVal := TileOf(s, pid * size);
    var maxVal, maxIndex := MaxOf(inpVal, size), ArgMaxOf(inpVal, size);
    midValue[pid] := maxVal;
    midIndex[pid] := maxIndex + pid * size;
  }

  // argmax_kernel_2: the block is loaded masked, up to a power of two at least as large.
  method ArgMaxKernel2(midValue: array<Value>, midIndex: array<int>, blockMid: nat) returns (out: int)
    requires 0 < midValue.Length == midIndex.Length <= blockMid
    requires NumberRow(midValue[..])
    ensures var mid := Masked(midValue[..]);
            ArgMaxOf(mid, midValue.Length) < midValue.Length && out == midIndex[ArgMaxOf(mid, midValue.Length)]
  {
    var midVal := Masked(midValue[..]);
    TailKeeps(midVal, midValue.Length, blockMid);
    out := midIndex[ArgMaxOf(midVal, blockMid)];
  }

  // The launch of the first pass.
  method FirstPass(s: seq<Value>, size: nat, midValue: array<Value>, midIndex: array<int>)
    requires midValue.Length == midIndex.Length
    modifies midValue, midIndex
    ensures forall b :: 0 <= b < midValue.Length ==> midValue[b] == BlockMax(s, size, b)
    ensures forall b :: 0 <= b < midValue.Length ==> midIndex[b] == BlockBest(s, size, b)
  {
    for pid := 0 to midValue.Length
      invariant forall b :: 0 <= b < pid ==> midValue[b] == BlockMax(s, size, b)
      invariant forall b :: 0 <= b < pid ==> midIndex[b] == BlockBest(s, size, b)
    {
      ArgMaxKernel1(s, size, pid, midValue, midIndex);
    }
  }

  /** argmax over a whole tensor: the least global index of the maximum, for every size and block size. */
  method ArgMax(s: seq<Value>, size: nat, blockMid: nat) returns (out: int)
    requires s != [] && NumberRow(s) && size > 0 && CeilDiv(|s|, size) <= blockMid
    ensures 0 <= out < |s| && s[out] == MaxOf(Masked(s), |s|)
    ensures forall i :: 0 <= i < out ==> s[i] != MaxOf(Masked(s), |s|)
  {
    var midSize := CeilDiv(|s|, size);
    CeilDivCovers(|s|, size);
    var midValue := new Value[midSize](_ => NegInf);
    var midIndex := new int[midSize](_ => 0);
    FirstPass(s, size, midValue, midIndex);
    BlocksAreNumbers(s, size);
    out := ArgMaxKernel2(midValue, midIndex, blockMid);
    SameArgMax(Masked(midValue[..]), BlockMaxima(s, size), midSize);
    PassesFind(s, size);
    ArgMaxIsLeast(Masked(s), |s|);
  }

  lemma PassesFind(s: seq<Value>, size: nat)
    requires s != [] && NumberRow(s) && size > 0
    ensures BlockBest(s, size, ArgMaxOf(BlockMaxima(s, size), CeilDiv(|s|, size))) == ArgMaxOf(Masked(s), |s|)
  {
    var blocks := CeilDiv(|s|, size);
    CeilDivCovers(|s|, size);
    TwoPasses(s, size, blocks, blocks * size);
    TailKeeps(Masked(s), |s|, blocks * size);
  }

  lemma {:induction false} SameArgMax(f: Lanes<Value>, g: Lanes<Value>, n: nat)
    requires forall i :: 0 <= i < n ==> f(i) == g(i)
    ensures ArgMaxOf(f, n) == ArgMaxOf(g, n)
  {
    if n > 1 {
      SameArgMax(f, g, n - 1);
    }
  }
}
