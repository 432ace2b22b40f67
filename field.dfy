/** The playing field of field.py: the grid of cells with their visit counters, the walls of
    a bunker, and the time-based decay of visit counters. The `pygame.Rect` of each cell is
    display geometry and is not modelled. */
module Field {
  import opened Wrappers
  import opened Coords
  import opened PyNum

  /** One grid cell: its identifier and its visit bookkeeping (`None` is Python's `None`). */
  datatype Cell = Cell(id: int, visitCount: nat, lastVisit: Option<real>, lastDecrement: Option<real>)

  /** Row-major identifiers of distinct cells differ. */
  lemma RowMajorIdsDistinct(p: Pos, q: Pos, rows: int, cols: int)
    requires InGrid(p, rows, cols) && InGrid(q, rows, cols) && p != q
    ensures p.0 * cols + p.1 != q.0 * cols + q.1
  {
    if p.0 < q.0 {
      assert q.0 * cols >= (p.0 + 1) * cols;
    } else if q.0 < p.0 {
      assert p.0 * cols >= (q.0 + 1) * cols;
    }
  }

  /** A row-major identifier lies in `0 .. rows*cols - 1`. */
  lemma RowMajorIdInRange(p: Pos, rows: int, cols: int)
    requires InGrid(p, rows, cols)
    ensures 0 <= p.0 * cols + p.1 < rows * cols
  {
    assert p.0 * cols + p.1 < (p.0 + 1) * cols;
    assert (p.0 + 1) * cols <= rows * cols;
  }

  /** `create_grid`: one cell per `(row, col)` of the `rows x cols` grid, numbered row by row,
      with no visits recorded yet. */
  method CreateGrid(rows: nat, cols: nat) returns (grid: map<Pos, Cell>)
    ensures forall p :: p in grid <==> InGrid(p, rows, cols)
    ensures forall p :: p in grid ==> grid[p].id == p.0 * cols + p.1 && 0 <= grid[p].id < rows * cols
    ensures forall p, q :: p in grid && q in grid && p != q ==> grid[p].id != grid[q].id
    ensures forall p :: p in grid ==>
              grid[p].visitCount == 0 && grid[p].lastVisit == None && grid[p].lastDecrement == None
  {
    grid := map[];
    var row := 0;
    while row < rows
      invariant 0 <= row <= rows
      invariant forall p :: p in grid <==> InGrid(p, row, cols)
      invariant forall p :: p in grid ==> grid[p] == Cell(p.0 * cols + p.1, 0, None, None)
    {
      var col := 0;
      while col < cols
        invariant 0 <= col <= cols
        invariant forall p :: p in grid <==> InGrid(p, row, cols) || (p.0 == row && 0 <= p.1 < col)
        invariant forall p :: p in grid ==> grid[p] == Cell(p.0 * cols + p.1, 0, None, None)
      {
        var cellId := row * cols + col;
        grid := grid[(row, col) := Cell(cellId, 0, None, None)];
        col := col + 1;
      }
      row := row + 1;
    }
    forall p | p in grid ensures 0 <= grid[p].id < rows * cols {
      RowMajorIdInRange(p, rows, cols);
    }
    forall p, q | p in grid && q in grid && p != q ensures grid[p].id != grid[q].id {
      RowMajorIdsDistinct(p, q, rows, cols);
    }
  }

  /** A cell of the outer ring of the `size x size` square whose top-left corner is `topLeft`. */
  predicate OnBorder(p: Pos, topLeft: Pos, size: int) {
    var endRow := topLeft.0 + size - 1;
    var endCol := topLeft.1 + size - 1;
    && topLeft.0 <= p.0 < topLeft.0 + size
    && topLeft.1 <= p.1 < topLeft.1 + size
    && (p.0 == topLeft.0 || p.0 == endRow || p.1 == topLeft.1 || p.1 == endCol)
  }

  /** First column of the opening, centred: `start_col + (size - opening_width) // 2`
      (Python's floor division, which agrees with Dafny's for the divisor 2). */
  function OpeningStart(topLeft: Pos, size: int, openingWidth: int): int {
    topLeft.1 + (size - openingWidth) / 2
  }

  /** The row that holds the opening: the first row for "top", the last for "bottom",
      none for any other side. */
  function OpeningRow(topLeft: Pos, size: int, openingSide: string): Option<int> {
    if openingSide == "top" then Some(topLeft.0)
    else if openingSide == "bottom" then Some(topLeft.0 + size - 1)
    else None
  }

  predicate InOpening(p: Pos, topLeft: Pos, size: int, openingSide: string, openingWidth: int) {
    var start := OpeningStart(topLeft, size, openingWidth);
    && OpeningRow(topLeft, size, openingSide).Some?
    && p.0 == OpeningRow(topLeft, size, openingSide).value
    && start <= p.1 < start + openingWidth
  }

  /** `create_bunker`: exactly the border cells of the square that are not in the opening. */
  method CreateBunker(topLeft: Pos, size: int, openingSide: string, openingWidth: int)
    returns (bunkerWalls: set<Pos>)
    ensures forall p :: p in bunkerWalls <==>
              OnBorder(p, topLeft, size) && !InOpening(p, topLeft, size, openingSide, openingWidth)
  {
    bunkerWalls := {};
    var (startRow, startCol) := topLeft;
    var endRow := startRow + size - 1;
    var endCol := startCol + size - 1;

    var row := startRow;
    while row < startRow + size
      invariant startRow <= row
      invariant size > 0 ==> row <= startRow + size
      invariant forall p :: p in bunkerWalls <==> OnBorder(p, topLeft, size) && p.0 < row
    {
      var col := startCol;
      while col < startCol + size
        invariant startCol <= col <= startCol + size
        invariant forall p :: p in bunkerWalls <==>
                    OnBorder(p, topLeft, size) && (p.0 < row || (p.0 == row && p.1 < col))
      {
        if row == startRow || row == endRow || col == startCol || col == endCol {
          bunkerWalls := bunkerWalls + {(row, col)};
        }
        col := col + 1;
      }
      row := row + 1;
    }

    var openingStart := startCol + (size - openingWidth) / 2;
    if openingSide == "top" || openingSide == "bottom" {
      var openRow := if openingSide == "top" then startRow else endRow;
      var c := openingStart;
      while c < openingStart + openingWidth
        invariant openingStart <= c
        invariant openingWidth > 0 ==> c <= openingStart + openingWidth
        invariant openingWidth <= 0 ==> c == openingStart
        invariant forall p :: p in bunkerWalls <==>
                    OnBorder(p, topLeft, size) && !(p.0 == openRow && openingStart <= p.1 < c)
      {
        bunkerWalls := bunkerWalls - {(openRow, c)};
        c := c + 1;
      }
      assert OpeningRow(topLeft, size, openingSide) == Some(openRow);
      assert OpeningStart(topLeft, size, openingWidth) == openingStart;
    }
  }

  /** The decrement loop of `update_cell_visits`: while a whole `step` has passed since the
      last decrement and visits remain, drop one visit and advance the decrement time by
      `step`. Gives the remaining count and the new decrement time: the loop never adds
      visits, advances the time by exactly one `step` per visit removed, and stops only when
      no visit is left or less than a `step` remains. */
  function Drain(count: nat, lastDecrement: real, now: real, step: real): (r: (nat, real))
    requires step > 0.0
    ensures r.0 <= count
    ensures r.1 == lastDecrement + (count - r.0) as real * step
    ensures r.0 == 0 || now - r.1 < step
    decreases count
  {
    if count > 0 && now - lastDecrement >= step then Drain(count - 1, lastDecrement + step, now, step)
    else (count, lastDecrement)
  }

  /** Whole multiples of `step` that fit in `now - from` (zero when `now` is earlier). */
  function ElapsedSteps(from: real, now: real, step: real): nat
    requires step > 0.0
  {
    if now - from < 0.0 then 0 else ((now - from) / step).Floor
  }

  /** The number of visits removed is the number of whole steps that fit between the last
      decrement and `now`, capped by the count. */
  lemma {:induction false} DrainRemovesElapsedSteps(count: nat, lastDecrement: real, now: real, step: real)
    requires step > 0.0
    ensures Drain(count, lastDecrement, now, step).0 == count - Min(count, ElapsedSteps(lastDecrement, now, step))
    decreases count
  {
    if count > 0 && now - lastDecrement >= step {
      DrainRemovesElapsedSteps(count - 1, lastDecrement + step, now, step);
      ElapsedStepsShift(lastDecrement, now, step);
    } else if count > 0 {
      ElapsedStepsNone(lastDecrement, now, step);
    }
  }

  lemma ElapsedStepsShift(from: real, now: real, step: real)
    requires step > 0.0 && now - from >= step
    ensures ElapsedSteps(from, now, step) == ElapsedSteps(from + step, now, step) + 1
  {
    var y := (now - (from + step)) / step;
    QuotientShift(now - from, step);
    assert now - (from + step) == (now - from) - step;
    assert (now - from) / step == y + 1.0;
    FloorShift(y);
    QuotientNonNegative(now - (from + step), step);
  }

  lemma ElapsedStepsNone(from: real, now: real, step: real)
    requires step > 0.0 && now - from < step
    ensures ElapsedSteps(from, now, step) == 0
  {
    if now - from >= 0.0 {
      QuotientBelowOne(now - from, step);
    }
  }

  lemma QuotientShift(a: real, s: real)
    requires s > 0.0
    ensures (a - s) / s == a / s - 1.0
  {
    assert (a - s) / s == a / s - s / s;
  }

  lemma QuotientBelowOne(a: real, s: real)
    requires s > 0.0 && a < s
    ensures a / s < 1.0
  {
  }

  lemma QuotientNonNegative(a: real, s: real)
    requires s > 0.0 && a >= 0.0
    ensures a / s >= 0.0
  {
  }

  lemma FloorShift(y: real)
    ensures (y + 1.0).Floor == y.Floor + 1
  {
  }

  /** One cell after `update_cell_visits` at clock reading `now`. A visited cell left alone
      for at least `60 / speed` seconds starts decaying from the last visit plus `60 / speed`
      (or from its last decrement) and loses one visit per `30 / speed` seconds; all other
      cells are unchanged. The count drops by the number of whole `30 / speed` steps between
      the decay start and `now`, and never below zero. */
  function Decayed(c: Cell, now: real, speed: real): (r: Cell)
    requires speed > 0.0
    ensures r.id == c.id && r.lastVisit == c.lastVisit
    ensures r.visitCount <= c.visitCount
    ensures c.visitCount == 0 || c.lastVisit.None? || now - c.lastVisit.value < 60.0 / speed ==> r == c
    ensures c.visitCount > 0 && c.lastVisit.Some? && now - c.lastVisit.value >= 60.0 / speed ==>
              && r.lastDecrement.Some?
              && r.lastDecrement.value == DecayStart(c, speed) + (c.visitCount - r.visitCount) as real * (30.0 / speed)
              && (r.visitCount == 0 || now - r.lastDecrement.value < 30.0 / speed)
    ensures c.visitCount > 0 && c.lastVisit.Some? && now - c.lastVisit.value >= 60.0 / speed ==>
              r.visitCount == c.visitCount - Min(c.visitCount, ElapsedSteps(DecayStart(c, speed), now, 30.0 / speed))
  {
    if c.visitCount > 0 && c.lastVisit.Some? && now - c.lastVisit.value >= 60.0 / speed then
      DrainRemovesElapsedSteps(c.visitCount, DecayStart(c, speed), now, 30.0 / speed);
      var drained := Drain(c.visitCount, DecayStart(c, speed), now, 30.0 / speed);
      c.(visitCount := drained.0, lastDecrement := Some(drained.1))
    else c
  }

  /** Where the decrement clock of a decaying cell starts: its last decrement, or, on the
      first decay, the last visit plus `60 / speed`. */
  function DecayStart(c: Cell, speed: real): real
    requires speed > 0.0 && c.lastVisit.Some?
  {
    if c.lastDecrement.None? then c.lastVisit.value + 60.0 / speed else c.lastDecrement.value
  }

  /** The per-cell body of `update_cell_visits`, with its `while` loop. */
  method DecayCell(cell: Cell, now: real, speed: real) returns (c: Cell)
    requires speed > 0.0
    ensures c == Decayed(cell, now, speed)
  {
    c := cell;
    if c.visitCount > 0 && c.lastVisit.Some? {
      if now - c.lastVisit.value >= 60.0 / speed {
        if c.lastDecrement.None? {
          c := c.(lastDecrement := Some(c.lastVisit.value + 60.0 / speed));
        }
        var step := 30.0 / speed;
        while now - c.lastDecrement.value >= step && c.visitCount > 0
          invariant c.lastDecrement.Some? && c.id == cell.id && c.lastVisit == cell.lastVisit
          invariant Drain(c.visitCount, c.lastDecrement.value, now, step)
                    == Drain(cell.visitCount, DecayStart(cell, speed), now, step)
          decreases c.visitCount
        {
          c := c.(visitCount := c.visitCount - 1, lastDecrement := Some(c.lastDecrement.value + step));
        }
      }
    }
  }

  /** `update_cell_visits(grid, speed_factor)` at clock reading `now`: every cell decays as
      `Decayed` says; the set of cells is unchanged. */
  method UpdateCellVisits(grid: map<Pos, Cell>, now: real, speed: real) returns (updated: map<Pos, Cell>)
    requires speed > 0.0
    ensures updated.Keys == grid.Keys
    ensures forall p :: p in grid ==> updated[p] == Decayed(grid[p], now, speed)
  {
    updated := grid;
    var todo := grid.Keys;
    while todo != {}
      invariant todo <= grid.Keys && updated.Keys == grid.Keys
      invariant forall p :: p in grid ==> updated[p] == if p in todo then grid[p] else Decayed(grid[p], now, speed)
      decreases todo
    {
      var p :| p in todo;
      var c := DecayCell(grid[p], now, speed);
      updated := updated[p := c];
      todo := todo - {p};
    }
  }
}
