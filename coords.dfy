/** Grid coordinates and the four unit moves of the agent (settings.py, character.py). */
module Coords {
  /** A cell as `(row, col)`. */
  type Pos = (int, int)
  /** A move as `(d_row, d_col)`, the key type of `move_weights`. */
  type Delta = (int, int)

  /** `GRID_ROWS` and `GRID_COLS` of settings.py. */
  const GridRows: int := 100
  const GridCols: int := 100

  const Right: Delta := (0, 1)
  const Left: Delta := (0, -1)
  const Down: Delta := (1, 0)
  const Up: Delta := (-1, 0)

  /** The four moves in the insertion order of `move_weights` (and of the action list in main.py). */
  const Moves: seq<Delta> := [Right, Left, Down, Up]
  const MoveSet: set<Delta> := {Right, Left, Down, Up}

  function Step(p: Pos, d: Delta): Pos {
    (p.0 + d.0, p.1 + d.1)
  }

  /** The range check `0 <= row < rows and 0 <= col < cols`; with `GridRows` and `GridCols`
      it is the bounds test of `move`. */
  predicate InGrid(p: Pos, rows: int, cols: int) {
    0 <= p.0 < rows && 0 <= p.1 < cols
  }

  /** Position of a move in `Moves`. */
  function MoveIndex(d: Delta): (i: nat)
    requires d in MoveSet
    ensures i < |Moves| && Moves[i] == d
  {
    if d == Right then 0 else if d == Left then 1 else if d == Down then 2 else 3
  }

  /** No move stays in place, and two different moves from one cell reach different cells:
      so at most one move from any cell lands on a given neighbour. */
  lemma StepInjective(p: Pos, d: Delta, e: Delta)
    requires d in MoveSet && e in MoveSet
    ensures Step(p, d) != p
    ensures Step(p, d) == Step(p, e) ==> d == e
  {
  }
}
