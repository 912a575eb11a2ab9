/** Memory images: cells laid one after the other, each at the next multiple of its own size. Both the
    parameter buffer and the NPU argument block are such images. */
module PackedLayout {
  import opened Numerals

  // Every C type in these images has one of these sizes, and is aligned to it.
  predicate CellSize(n: nat) {
    n == 1 || n == 4 || n == 8
  }

  // get_next_multiple_of and align_to: the first multiple of `step` at or after `pos`.
  function NextMultiple(pos: nat, step: nat): (r: nat)
    requires CellSize(step)
    ensures pos <= r < pos + step
  {
    if step == 1 then pos else if step == 4 then (pos + 3) / 4 * 4 else (pos + 7) / 8 * 8
  }

  /** Both formulas of the source: divide and multiply, or add and mask. */
  lemma NextMultipleIs(pos: nat, step: nat)
    requires CellSize(step)
    ensures NextMultiple(pos, step) % step == 0
    ensures NextMultiple(pos, step) == (pos + step - 1) / step * step
    ensures NextMultiple(pos, step) == pos + step - 1 - (pos + step - 1) % step
  {
    if step == 1 {
      assert pos % 1 == 0 && pos / 1 == pos;
    } else if step == 4 {
      NextMultipleOf4(pos);
    } else {
      NextMultipleOf8(pos);
    }
  }

  lemma NextMultipleOf4(pos: nat)
    ensures (pos + 3) / 4 * 4 % 4 == 0 && (pos + 3) / 4 * 4 == pos + 3 - (pos + 3) % 4
  {
  }

  lemma NextMultipleOf8(pos: nat)
    ensures (pos + 7) / 8 * 8 % 8 == 0 && (pos + 7) / 8 * 8 == pos + 7 - (pos + 7) % 8
  {
  }

  function Zeros(n: nat): (s: seq<byte>)
    ensures |s| == n
  {
    seq(n, _ => 0)
  }

  predicate Cells(cells: seq<seq<byte>>) {
    forall i :: 0 <= i < |cells| ==> CellSize(|cells[i]|)
  }

  // Room up to the cell's alignment, then the cell.
  function Appended(s: seq<byte>, cell: seq<byte>): (r: seq<byte>)
    requires CellSize(|cell|)
    ensures |r| == NextMultiple(|s|, |cell|) + |cell| && s <= r
  {
    s + Zeros(NextMultiple(|s|, |cell|) - |s|) + cell
  }

  // The cells after whatever `start` holds already.
  function Image(start: seq<byte>, cells: seq<seq<byte>>): (s: seq<byte>)
    requires Cells(cells)
    ensures |s| >= |start| && s[..|start|] == start
  {
    if cells == [] then start
    else
      Appended(Image(start, cells[..|cells| - 1]), cells[|cells| - 1])
  }

  function Offsets(start: seq<byte>, cells: seq<seq<byte>>): (r: seq<nat>)
    requires Cells(cells)
    ensures |r| == |cells|
  {
    if cells == [] then []
    else
      var front := cells[..|cells| - 1];
      Offsets(start, front) + [NextMultiple(|Image(start, front)|, |cells[|cells| - 1]|)]
  }

  // Cell i is aligned, intact, and after everything before it.
  ghost predicate Sits(start: seq<byte>, cells: seq<seq<byte>>, i: nat)
    requires Cells(cells) && i < |cells|
  {
    var at, n := Offsets(start, cells)[i], |cells[i]|;
    && at % n == 0
    && at + n <= |Image(start, cells)|
    && Image(start, cells)[at..at + n] == cells[i]
    && (if i == 0 then |start| else Offsets(start, cells)[i - 1] + |cells[i - 1]|) <= at
  }

  /** One more cell: what pushing does to an image. */
  lemma OneMoreCell(start: seq<byte>, cells: seq<seq<byte>>, cell: seq<byte>)
    requires Cells(cells) && CellSize(|cell|)
    ensures Image(start, cells + [cell]) == Appended(Image(start, cells), cell)
    ensures Offsets(start, cells + [cell])
         == Offsets(start, cells) + [NextMultiple(|Image(start, cells)|, |cell|)]
  {
    assert (cells + [cell])[..|cells|] == cells;
  }

  lemma ImageLength(start: seq<byte>, cells: seq<seq<byte>>)
    requires Cells(cells) && cells != []
    ensures |Image(start, cells)| == Offsets(start, cells)[|cells| - 1] + |cells[|cells| - 1]|
  {
  }

  lemma LastSits(start: seq<byte>, cells: seq<seq<byte>>)
    requires Cells(cells) && cells != []
    ensures Sits(start, cells, |cells| - 1)
  {
    var front, cell := cells[..|cells| - 1], cells[|cells| - 1];
    var at := NextMultiple(|Image(start, front)|, |cell|);
    NextMultipleIs(|Image(start, front)|, |cell|);
    var head := Image(start, front) + Zeros(at - |Image(start, front)|);
    assert Image(start, cells) == head + cell;
    assert Offsets(start, cells)[|cells| - 1] == at;
    if front != [] {
      ImageLength(start, front);
      assert Offsets(start, cells)[|front| - 1] == Offsets(start, front)[|front| - 1];
    }
  }

  /** An image holds every cell intact: aligned, at its own offset, after the previous one. */
  lemma {:induction false} CellSits(start: seq<byte>, cells: seq<seq<byte>>, i: nat)
    requires Cells(cells) && i < |cells|
    ensures Sits(start, cells, i)
  {
    if i == |cells| - 1 {
      LastSits(start, cells);
    } else {
      var front := cells[..|cells| - 1];
      CellSits(start, front, i);
      SitsLonger(start, front, cells, i);
    }
  }

  lemma SitsLonger(start: seq<byte>, front: seq<seq<byte>>, cells: seq<seq<byte>>, i: nat)
    requires Cells(cells) && cells != [] && front == cells[..|cells| - 1] && i < |front| && Sits(start, front, i)
    ensures Sits(start, cells, i)
  {
    var at, n := Offsets(start, front)[i], |cells[i]|;
    SameSlice(Image(start, front), Image(start, cells), at, n);
    assert Offsets(start, cells)[i] == Offsets(start, front)[i];
  }

  lemma SameSlice(part: seq<byte>, whole: seq<byte>, at: nat, n: nat)
    requires part <= whole && at + n <= |part|
    ensures whole[at..at + n] == part[at..at + n]
  {
  }
}
