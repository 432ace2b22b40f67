/** Flower placement (food.py). Drawing, the eating animation and its sound are display
    and audio and are not modelled. */
module Food {
  import opened Coords
  import Field
  import Sampling

  /** `generate_flowers(grid, walls, house_pos, mines_positions, num_flowers)`: as for mines,
      but the free cells also exclude every mine. */
  method GenerateFlowers(grid: map<Pos, Field.Cell>, walls: set<Pos>, housePos: Pos,
                         minesPositions: set<Pos>, numFlowers: nat)
    returns (flowers: set<Pos>)
    ensures flowers <= grid.Keys
    ensures flowers !! walls && flowers !! minesPositions
    ensures housePos !in flowers
    ensures var available := set p | p in grid && p !in walls && p !in minesPositions && p != housePos;
            |flowers| == if numFlowers > |available| then |available| else numFlowers
  {
    var availablePositions := set p | p in grid && p !in walls && p !in minesPositions && p != housePos;
    var count := numFlowers;
    if count > |availablePositions| {
      count := |availablePositions|;
    }
    ghost var sample := Sampling.SubsetOfSize(availablePositions, count);
    flowers :| flowers <= availablePositions && |flowers| == count;
  }
}
