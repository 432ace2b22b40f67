/** Mine placement (mines.py). Drawing, the explosion animation and its sound are display
    and audio and are not modelled. */
module Mines {
  import opened Coords
  import Field
  import Sampling

  /** `generate_mines(grid, walls, house_pos, num_mines)`: the free cells are the grid cells
      that are neither a wall nor the house; the count is clamped to their number, and the
      random sample is any subset of that size. */
  method GenerateMines(grid: map<Pos, Field.Cell>, walls: set<Pos>, housePos: Pos, numMines: nat)
    returns (mines: set<Pos>)
    ensures mines <= grid.Keys
    ensures mines !! walls
    ensures housePos !in mines
    ensures var available := set p | p in grid && p !in walls && p != housePos;
            |mines| == if numMines > |available| then |available| else numMines
  {
    var availablePositions := set p | p in grid && p !in walls && p != housePos;
    var count := numMines;
    if count > |availablePositions| {
      count := |availablePositions|;
    }
    ghost var sample := Sampling.SubsetOfSize(availablePositions, count);
    mines :| mines <= availablePositions && |mines| == count;
  }
}
