/** The grouped tile schedule of the matrix product (operators/matmul/mm/mm.py, lines 44-52): which
    program works on which tile of the output. */
module TileSchedule {
  import opened Arithmetic

  // ---- the schedule: program ids to tiles

  // num_pid_m, num_pid_n and GROUP_M.
  datatype Grid = Grid(rows: nat, cols: nat, group: nat) {
    predicate Valid() {
      rows > 0 && cols > 0 && group > 0
    }

    function Size(): nat {
      rows * cols
    }

    // Row tiles in the group that starts at row tile `first`; the last group may be short.
    function GroupRows(first: int): int {
      if rows - first < group then rows - first else group
    }

    function Span(): nat {
      group * cols
    }
  }

  // The group a program works in starts inside the grid.
  lemma GroupInside(g: Grid, pid: nat)
    requires g.Valid() && pid < g.Size()
    ensures g.Span() > 0
    ensures 0 <= pid / g.Span() * g.group < g.rows
  {
    var span := g.Span();
    assert span > 0 by { MulMono(1, g.group, g.cols); }
    var id := pid / span;
    assert id * span == id * g.group * g.cols;
    MulLess(id * g.group, g.rows, g.cols);
  }

  // Lines 47-52: pid to (pid_m, pid_n). The row index rotates with the whole pid, not with the
  // position inside the group.
  function TileOf(g: Grid, pid: nat): (int, int)
    requires g.Valid() && pid < g.Size()
  {
    GroupInside(g, pid);
    TileInGroup(pid, g.Span(), pid / g.Span() * g.group, g.GroupRows(pid / g.Span() * g.group))
  }

  function TileInGroup(pid: int, span: int, first: int, size: int): (int, int)
    requires span > 0 && size > 0
  {
    (first + pid % size, pid % span / size)
  }

  // The program that works on a tile.
  function PidOf(g: Grid, m: int, n: int): int
    requires g.Valid() && 0 <= m < g.rows && 0 <= n < g.cols
  {
    var id := m / g.group;
    PidInGroup(m - id * g.group, n, id * g.Span(), g.GroupRows(id * g.group))
  }

  function PidInGroup(row: int, n: int, start: int, size: int): int
    requires size > 0
  {
    start + n * size + (row - start) % size
  }

  // A group of `size` row tiles has exactly size * cols programs left before the grid ends.
  lemma GroupExtent(g: Grid, id: nat)
    requires g.Valid() && id * g.group < g.rows
    ensures var size := g.GroupRows(id * g.group);
            && size >= 1 && size * g.cols <= g.Span()
            && (size * g.cols == g.Span() || id * g.Span() + size * g.cols == g.Size())
            && (size == g.group || size == g.rows - id * g.group) && id * g.group + size <= g.rows
            && id * g.Span() + size * g.cols <= g.Size()
  {
    var first := id * g.group;
    var size := g.GroupRows(first);
    MulMono(size, g.group, g.cols);
    assert id * (g.group * g.cols) == first * g.cols;
    assert first * g.cols + size * g.cols == (first + size) * g.cols;
    MulMono(first + size, g.rows, g.cols);
  }

  lemma TileInside(g: Grid, pid: nat)
    requires g.Valid() && pid < g.Size()
    ensures 0 <= TileOf(g, pid).0 < g.rows && 0 <= TileOf(g, pid).1 < g.cols
  {
    GroupInside(g, pid);
    var id := pid / g.Span();
    var first := id * g.group;
    GroupExtent(g, id);
    TileRange(pid, id, g.Span(), first, g.GroupRows(first), g.cols, g.Size());
  }

  lemma TileRange(pid: int, id: int, span: int, first: int, size: int, cols: int, total: int)
    requires span > 0 && size > 0 && 0 <= pid < total && id == pid / span
    requires size * cols == span || id * span + size * cols == total
    ensures 0 <= TileInGroup(pid, span, first, size).0 - first < size
    ensures 0 <= TileInGroup(pid, span, first, size).1 < cols
  {
    var local := pid % span;
    assert pid == id * span + local;
    assert local < size * cols;
    assert local == local / size * size + local % size;
    MulLess(local / size, cols, size);
    if local / size < 0 {
      MulMono(local / size, -1, size);
    }
  }

  // The rotation undoes itself: a group position and a remainder of the whole pid give the pid back.
  lemma PidOfTileInGroup(pid: int, id: int, span: int, first: int, size: int)
    requires span > 0 && size > 0 && id == pid / span
    ensures var (m, n) := TileInGroup(pid, span, first, size);
            PidInGroup(m - first, n, id * span, size) == pid
  {
    var start, local := id * span, pid % span;
    assert pid == start + local;
    ModShift(local, pid % size - start, size, pid / size);
  }

  // And the other way round: the position of remainder `row` in column n leads to that remainder.
  lemma TileOfPidInGroup(row: int, n: int, id: int, span: int, first: int, size: int, cols: int)
    requires 0 <= row < size && 0 <= n < cols && size * cols <= span
    ensures var pid := PidInGroup(row, n, id * span, size);
            && pid / span == id
            && id * span <= pid < id * span + size * cols
            && TileInGroup(pid, span, first, size) == (first + row, n)
  {
    var start := id * span;
    MulMono(n + 1, cols, size);
    MulMono(0, n, size);
    var r, q := (row - start) % size, (row - start) / size;
    var local := n * size + r;
    DivModUnique(local, size, n, r);
    assert local < (n + 1) * size;
    DivModUnique(start + local, span, id, local);
    assert row - start == q * size + r;
    assert (n - q) * size == n * size - q * size;
    ModShift(start + local, row, size, n - q);
    DivModUnique(row, size, 0, row);
  }

  /** Every program has its own tile: the tile names the program. */
  lemma PidOfTile(g: Grid, pid: nat)
    requires g.Valid() && pid < g.Size()
    ensures 0 <= TileOf(g, pid).0 < g.rows && 0 <= TileOf(g, pid).1 < g.cols
    ensures PidOf(g, TileOf(g, pid).0, TileOf(g, pid).1) == pid
  {
    TileInside(g, pid);
    GroupInside(g, pid);
    var id := pid / g.Span();
    var first := id * g.group;
    var size := g.GroupRows(first);
    GroupOfRow(first, pid % size, g.group, id);
    PidOfTileInGroup(pid, id, g.Span(), first, size);
  }

  lemma GroupOfRow(first: int, row: int, group: int, id: int)
    requires first == id * group && 0 <= row < group
    ensures (first + row) / group == id
  {
    DivModUnique(first + row, group, id, row);
  }

  // A row tile's place in its group.
  lemma RowInGroup(m: int, group: int, rows: int)
    requires group > 0 && 0 <= m < rows
    ensures var first := m / group * group;
            m / group >= 0 && 0 <= first <= m && m - first < group && m - first < rows - first
  {
  }

  lemma PidRange(row: int, n: int, id: int, span: int, size: int, cols: int, total: int)
    requires 0 <= row < size && 0 <= n < cols && size * cols <= span
    requires 0 <= id * span && id * span + size * cols <= total
    ensures 0 <= PidInGroup(row, n, id * span, size) < total
  {
    TileOfPidInGroup(row, n, id, span, 0, size, cols);
  }

  lemma PidInside(g: Grid, m: nat, n: nat)
    requires g.Valid() && m < g.rows && n < g.cols
    ensures 0 <= PidOf(g, m, n) < g.Size()
  {
    var id := m / g.group;
    RowInGroup(m, g.group, g.rows);
    GroupExtent(g, id);
    MulMono(0, id, g.Span());
    PidRange(m - id * g.group, n, id, g.Span(), g.GroupRows(id * g.group), g.cols, g.Size());
  }

  lemma PidGroup(g: Grid, m: nat, n: nat)
    requires g.Valid() && m < g.rows && n < g.cols
    ensures g.Span() > 0 && PidOf(g, m, n) / g.Span() == m / g.group
    ensures var first := m / g.group * g.group;
            TileInGroup(PidOf(g, m, n), g.Span(), first, g.GroupRows(first)) == (m, n)
  {
    var first := m / g.group * g.group;
    RowInGroup(m, g.group, g.rows);
    GroupExtent(g, m / g.group);
    MulMono(1, g.GroupRows(first), g.cols);
    TileOfPidInGroup(m - first, n, m / g.group, g.Span(), first, g.GroupRows(first), g.cols);
  }

  lemma GroupOfTile(g: Grid, pid: nat)
    requires g.Valid() && pid < g.Size()
    ensures g.Span() > 0 && TileOf(g, pid).0 / g.group == pid / g.Span()
  {
    GroupInside(g, pid);
    var first := pid / g.Span() * g.group;
    GroupOfRow(first, pid % g.GroupRows(first), g.group, pid / g.Span());
  }

  lemma ColumnsRise(p: int, q: int, size: int)
    requires size > 0 && p <= q
    ensures p / size <= q / size
  {
    if q / size < p / size {
      MulMono(q / size + 1, p / size, size);
    }
  }

  lemma ColumnsOfGroup(p: int, q: int, span: int, size: int)
    requires span > 0 && size > 0 && p <= q && p / span == q / span
    ensures p % span / size <= q % span / size
  {
    assert p == p / span * span + p % span && q == q / span * span + q % span;
    ColumnsRise(p % span, q % span, size);
  }

  /** The schedule is grouped: programs finish one group of row tiles before the next, and inside a group one
      column before the next, so neighbouring programs share tiles of A and B. */
  lemma GroupByGroup(g: Grid, p: nat, q: nat)
    requires g.Valid() && p < q < g.Size()
    ensures TileOf(g, p).0 / g.group <= TileOf(g, q).0 / g.group
    ensures TileOf(g, p).0 / g.group == TileOf(g, q).0 / g.group ==> TileOf(g, p).1 <= TileOf(g, q).1
  {
    GroupOfTile(g, p);
    GroupOfTile(g, q);
    GroupInside(g, p);
    GroupInside(g, q);
    ColumnsRise(p, q, g.Span());
    if p / g.Span() == q / g.Span() {
      ColumnsOfGroup(p, q, g.Span(), g.GroupRows(p / g.Span() * g.group));
    }
  }

  /** Every tile has a program: together with PidOfTile, the schedule is a bijection from the grid
      of programs onto the grid of tiles, short last group included. */
  lemma TileOfPid(g: Grid, m: nat, n: nat)
    requires g.Valid() && m < g.rows && n < g.cols
    ensures 0 <= PidOf(g, m, n) < g.Size()
    ensures TileOf(g, PidOf(g, m, n)) == (m, n)
  {
    PidInside(g, m, n);
    PidGroup(g, m, n);
  }
}
