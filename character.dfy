/** The Pac-Man agent of character.py: a position, a four-entry move-weight vector, the
    timers of one life and the history of the moves taken in it. Clock readings
    (`time.time()`) are passed in as `now`; random draws are parameters or
    nondeterministic choices. */
module Character {
  import opened Coords
  import opened PyNum
  import opened Weights

  /** The moves of `moves` that do not lead from `pos` back to `prev`, in their order
      (the filtering loop of `decide_move`). */
  function NonReversing(moves: seq<Delta>, pos: Pos, prev: Pos): (r: seq<Delta>)
    ensures forall d :: d in r <==> d in moves && Step(pos, d) != prev
    ensures |r| <= |moves|
    decreases |moves|
  {
    if moves == [] then []
    else
      var init := NonReversing(moves[..|moves| - 1], pos, prev);
      var d := moves[|moves| - 1];
      assert forall e :: e in moves <==> e in moves[..|moves| - 1] || e == d;
      if Step(pos, d) != prev then init + [d] else init
  }

  /** At most one of the four moves returns to the previous cell, so the filter keeps at
      least three moves and the unfiltered fallback of `decide_move` is never taken. */
  lemma NonReversingKeepsThree(pos: Pos, prev: Pos)
    ensures |NonReversing(Moves, pos, prev)| >= 3
  {
    var r := NonReversing(Moves, pos, prev);
    var kept := set d | d in r;
    assert kept == MoveSet - set d | d in MoveSet && Step(pos, d) == prev;
    var back := set d | d in MoveSet && Step(pos, d) == prev;
    if d :| d in back {
      forall e | e in back ensures e == d { StepInjective(pos, d, e); }
      assert back == {d};
    } else {
      assert back == {};
    }
    assert |kept| >= 3;
    SetOfSeqSize(r);
  }

  lemma {:induction false} SetOfSeqSize<T>(s: seq<T>)
    ensures |set x | x in s| <= |s|
  {
    if s != [] {
      var init := s[..|s| - 1];
      SetOfSeqSize(init);
      assert (set x | x in s) == (set x | x in init) + {s[|s| - 1]};
    }
  }

  class PacManAgent {
    var pos: Pos
    var cellSize: int
    var generation: int
    var movementHistory: seq<Delta>
    var startTime: real
    var lastFoodTime: real
    var alive: bool
    var survivalTime: real
    /** The cell occupied before the last move. */
    var prevPos: Pos
    var moveWeights: Weights
    var lastMoveTime: real
    /** Seconds between two moves at speed factor one. */
    var moveDelay: real

    /** The weight dictionary keeps the four move keys, and the history holds only moves
        chosen from them. */
    ghost predicate Valid()
      reads this
    {
      && HasFourMoves(moveWeights)
      && forall i :: 0 <= i < |movementHistory| ==> movementHistory[i] in MoveSet
    }

    /** `PacManAgent(start_pos, cell_size, generation)` created at clock reading `now`. */
    constructor (startPos: Pos, cellSize: int, generation: int, now: real)
      ensures Valid()
      ensures pos == startPos && prevPos == startPos
      ensures this.cellSize == cellSize && this.generation == generation
      ensures movementHistory == [] && alive && survivalTime == 0.0
      ensures startTime == now && lastFoodTime == now && lastMoveTime == now
      ensures moveWeights == Initial && Total(moveWeights) == 1.0 && moveDelay == 0.4
      ensures GetIntelligence() == 0
    {
      pos := startPos;
      this.cellSize := cellSize;
      this.generation := generation;
      movementHistory := [];
      startTime := now;
      lastFoodTime := now;
      alive := true;
      survivalTime := 0.0;
      prevPos := startPos;
      moveWeights := Initial;
      lastMoveTime := now;
      moveDelay := 0.4;
    }

    /** `round((max weight - 0.25) * 100)`: zero for the uniform vector, never negative
        while the weights sum to one, at most 75 when they are also non-negative. */
    function GetIntelligence(): (r: int)
      reads this
      requires HasFourMoves(moveWeights)
      ensures moveWeights == Initial ==> r == 0
      ensures Total(moveWeights) == 1.0 ==> r >= 0
      ensures Total(moveWeights) == 1.0 && (forall d :: d in moveWeights ==> moveWeights[d] >= 0.0) ==> r <= 75
    {
      MaxWeightBounds(moveWeights);
      Round((MaxWeight(moveWeights) - 0.25) * 100.0)
    }

    /** Divides every weight by `total` (the loop that ends `mutate` and `reinforce`). */
    method NormalizeBy(total: real)
      requires HasFourMoves(moveWeights) && total != 0.0
      modifies this`moveWeights
      ensures moveWeights == Normalized(old(moveWeights), total)
    {
      ghost var w0 := moveWeights;
      var i := 0;
      while i < |Moves|
        invariant 0 <= i <= |Moves|
        invariant moveWeights.Keys == w0.Keys
        invariant forall j :: 0 <= j < |Moves| ==>
                    moveWeights[Moves[j]] == if j < i then w0[Moves[j]] / total else w0[Moves[j]]
      {
        var d := Moves[i];
        moveWeights := moveWeights[d := moveWeights[d] / total];
        i := i + 1;
      }
      forall d | d in w0 ensures moveWeights[d] == Normalized(w0, total)[d] {
        assert Moves[MoveIndex(d)] == d;
      }
    }

    /** The loop of `mutate` that scales the weights whose draws fall below the rate. */
    method ScaleByDraws(rate: real, rolls: seq<real>, offsets: seq<real>)
      requires HasFourMoves(moveWeights) && |rolls| == 4 && |offsets| == 4
      modifies this`moveWeights
      ensures moveWeights == Mutated(old(moveWeights), rate, rolls, offsets)
    {
      ghost var w0 := moveWeights;
      var i := 0;
      while i < |Moves|
        invariant 0 <= i <= |Moves|
        invariant moveWeights.Keys == w0.Keys
        invariant forall j :: 0 <= j < |Moves| ==>
                    moveWeights[Moves[j]] == if j < i then MutatedAt(w0, j, rate, rolls, offsets) else w0[Moves[j]]
      {
        var d := Moves[i];
        if rolls[i] < rate {
          var factor := 1.0 + offsets[i];
          moveWeights := moveWeights[d := moveWeights[d] * factor];
        }
        i := i + 1;
      }
      forall d | d in w0 ensures moveWeights[d] == Mutated(w0, rate, rolls, offsets)[d] {
        assert Moves[MoveIndex(d)] == d;
      }
    }

    /** `mutate(mutation_rate, mutation_strength)`. `rolls[i]` is the `random.random()` draw
        for the i-th move and `offsets[i]` the `random.uniform(-strength, strength)` draw used
        when that roll is below the rate. `failed` is the ZeroDivisionError raised when the
        mutated weights total zero; the weights are then left mutated but not normalised. */
    method Mutate(rate: real, strength: real, rolls: seq<real>, offsets: seq<real>) returns (failed: bool)
      requires Valid()
      requires |rolls| == 4 && |offsets| == 4
      requires forall i :: 0 <= i < 4 ==> 0.0 <= rolls[i] < 1.0
      requires forall i :: 0 <= i < 4 ==>
                 (-strength <= offsets[i] <= strength) || (strength <= offsets[i] <= -strength)
      modifies this`moveWeights
      ensures Valid()
      ensures var scaled := Mutated(old(moveWeights), rate, rolls, offsets);
              && HasFourMoves(scaled)
              && failed == (Total(scaled) == 0.0)
              && moveWeights == if failed then scaled else Normalized(scaled, Total(scaled))
      ensures !failed ==> Total(moveWeights) == 1.0
      ensures rate == 0.0 && Total(old(moveWeights)) == 1.0 ==> !failed && moveWeights == old(moveWeights)
      ensures ScaledWithinStrength(old(moveWeights), rate, strength, rolls, offsets)
    {
      ghost var w0 := moveWeights;
      MutationWithinStrength(w0, rate, strength, rolls, offsets);
      ScaleByDraws(rate, rolls, offsets);
      var total := Total(moveWeights);
      if total == 0.0 {
        return true;
      }
      NormalizedSumsToOne(moveWeights);
      if rate == 0.0 && Total(w0) == 1.0 {
        MutatedZeroRateIsIdentity(w0, rolls, offsets);
        NormalizedUnitIsIdentity(w0);
      }
      NormalizeBy(total);
      failed := false;
    }

    /** The loop of `reinforce` that adds `inc` once per recorded move. */
    method RaiseHistoryMoves(inc: real)
      requires Valid()
      modifies this`moveWeights
      ensures moveWeights == Reinforced(old(moveWeights), movementHistory, inc)
    {
      ghost var w0 := moveWeights;
      var n := |movementHistory|;
      var i := 0;
      while i < n
        invariant 0 <= i <= n
        invariant moveWeights == Reinforced(w0, movementHistory[..i], inc)
      {
        var d := movementHistory[i];
        assert movementHistory[..i + 1][..i] == movementHistory[..i];
        moveWeights := moveWeights[d := moveWeights[d] + inc];
        i := i + 1;
      }
      assert movementHistory[..n] == movementHistory;
    }

    /** `reinforce(reward)`: with an empty history nothing happens; otherwise every recorded
        move gains `reward / len(history)` and the weights are renormalised. The total before
        normalisation is the old total plus `reward`, so `failed` (ZeroDivisionError) happens
        exactly when that sum is zero. */
    method Reinforce(reward: real) returns (failed: bool)
      requires Valid()
      modifies this`moveWeights
      ensures Valid()
      ensures movementHistory == [] ==> moveWeights == old(moveWeights)
      ensures failed <==> movementHistory != [] && Total(old(moveWeights)) + reward == 0.0
      ensures movementHistory != [] ==>
                var raised := Reinforced(old(moveWeights), movementHistory, reward / |movementHistory| as real);
                moveWeights == if Total(raised) == 0.0 then raised else Normalized(raised, Total(raised))
      ensures movementHistory != [] && !failed ==> Total(moveWeights) == 1.0
    {
      if movementHistory == [] {
        return false;
      }
      ghost var w0 := moveWeights;
      var n := |movementHistory|;
      var inc := reward / n as real;
      RaiseHistoryMoves(inc);
      ghost var raised := moveWeights;
      ReinforcedTotal(w0, movementHistory, inc);
      SharesAddUp(n as real, reward);
      assert Total(raised) == Total(w0) + reward;
      var total := Total(moveWeights);
      if total == 0.0 {
        return true;
      }
      NormalizedSumsToOne(moveWeights);
      NormalizeBy(total);
      assert moveWeights == Normalized(raised, Total(raised));
      failed := false;
    }

    /** `decide_move()`: a move from the non-reversing candidates, or from all four moves
        when none is left. The weighted draw of `random.choices` is a nondeterministic pick. */
    method DecideMove() returns (d: Delta)
      ensures d in MoveSet
      ensures NonReversing(Moves, pos, prevPos) != [] ==> d in NonReversing(Moves, pos, prevPos)
    {
      var possible := Moves;
      var filtered: seq<Delta> := [];
      var i := 0;
      while i < |possible|
        invariant 0 <= i <= |possible|
        invariant filtered == NonReversing(possible[..i], pos, prevPos)
      {
        var move := possible[i];
        var newRow := pos.0 + move.0;
        var newCol := pos.1 + move.1;
        assert possible[..i + 1][..i] == possible[..i];
        if (newRow, newCol) != prevPos {
          filtered := filtered + [move];
        }
        i := i + 1;
      }
      assert possible[..|possible|] == Moves;
      assert forall e :: e in Moves ==> e in MoveSet;
      if filtered != [] {
        var k :| 0 <= k < |filtered|;
        return filtered[k];
      }
      // No move is left only when all four return to `prevPos`, which cannot happen.
      assert false;
    }

    /** `move(delta)`: a step that leaves the grid kills the agent in place; otherwise the
        agent moves and remembers where it came from. */
    method Move(d: Delta)
      modifies this`alive, this`pos, this`prevPos
      ensures InGrid(Step(old(pos), d), GridRows, GridCols) ==>
                pos == Step(old(pos), d) && prevPos == old(pos) && alive == old(alive)
      ensures !InGrid(Step(old(pos), d), GridRows, GridCols) ==>
                !alive && pos == old(pos) && prevPos == old(prevPos)
    {
      var (row, col) := pos;
      var (dRow, dCol) := d;
      var newRow := row + dRow;
      var newCol := col + dCol;
      if !(0 <= newRow < GridRows && 0 <= newCol < GridCols) {
        alive := false;
      } else {
        prevPos := pos;
        pos := (newRow, newCol);
      }
    }

    /** The move part of `update`: a move is decided, recorded in the history and taken. It
        never leads back to the previous cell, since the filter of `decide_move` always keeps
        some move. */
    method DecideAndMove()
      requires Valid()
      modifies this`movementHistory, this`pos, this`prevPos, this`alive
      ensures Valid()
      ensures |movementHistory| == |old(movementHistory)| + 1
      ensures movementHistory[..|old(movementHistory)|] == old(movementHistory)
      ensures var d := movementHistory[|old(movementHistory)|];
              && Step(old(pos), d) != old(prevPos)
              && (InGrid(Step(old(pos), d), GridRows, GridCols) ==> pos == Step(old(pos), d) && prevPos == old(pos))
              && (!InGrid(Step(old(pos), d), GridRows, GridCols) ==> pos == old(pos) && prevPos == old(prevPos))
              && alive == (old(alive) && InGrid(Step(old(pos), d), GridRows, GridCols))
    {
      var move := DecideMove();
      NonReversingKeepsThree(pos, prevPos);
      movementHistory := movementHistory + [move];
      Move(move);
    }

    /** `update(grid, obstacles, food_positions, speed_factor)` at clock reading `now`.
        Starvation (20 real seconds without food) is checked against the food time before
        the step, independent of the speed factor; a move is made only when `move_delay /
        speed_factor` seconds have passed since the last one. */
    method Update(now: real, obstacles: set<Pos>, foodPositions: set<Pos>, speedFactor: real)
      requires Valid() && speedFactor > 0.0
      modifies this`survivalTime, this`alive, this`lastMoveTime, this`movementHistory,
               this`pos, this`prevPos, this`lastFoodTime
      ensures Valid()
      ensures survivalTime == now - startTime
      ensures var moved := now - old(lastMoveTime) >= moveDelay / speedFactor;
              && (!moved ==> && lastMoveTime == old(lastMoveTime)
                             && movementHistory == old(movementHistory)
                             && pos == old(pos) && prevPos == old(prevPos)
                             && alive == (old(alive) && now - old(lastFoodTime) < 20.0 && pos !in obstacles))
              && (moved ==> && lastMoveTime == now
                            && |movementHistory| == |old(movementHistory)| + 1
                            && movementHistory[..|old(movementHistory)|] == old(movementHistory)
                            && var d := movementHistory[|old(movementHistory)|];
                               && Step(old(pos), d) != old(prevPos)
                               && (InGrid(Step(old(pos), d), GridRows, GridCols) ==> pos == Step(old(pos), d) && prevPos == old(pos))
                               && (!InGrid(Step(old(pos), d), GridRows, GridCols) ==> pos == old(pos) && prevPos == old(prevPos))
                               && alive == (&& old(alive) && now - old(lastFoodTime) < 20.0
                                            && InGrid(Step(old(pos), d), GridRows, GridCols) && pos !in obstacles))
      ensures lastFoodTime == if pos in foodPositions then now else old(lastFoodTime)
    {
      var currentTime := now;
      survivalTime := currentTime - startTime;
      if currentTime - lastFoodTime >= 20.0 {
        alive := false;
      }
      if currentTime - lastMoveTime >= moveDelay / speedFactor {
        lastMoveTime := currentTime;
        DecideAndMove();
      }
      if pos in foodPositions {
        lastFoodTime := currentTime;
      }
      if pos in obstacles {
        alive := false;
      }
    }

    /** `reset(new_start)` at clock reading `now`: a fresh life at `newStart` that keeps the
        learned weights, the generation and the previous cell. */
    method Reset(newStart: Pos, now: real)
      modifies this`pos, this`startTime, this`lastFoodTime, this`alive, this`survivalTime,
               this`movementHistory, this`lastMoveTime
      ensures pos == newStart && alive && survivalTime == 0.0 && movementHistory == []
      ensures startTime == now && lastFoodTime == now && lastMoveTime == now
    {
      pos := newStart;
      startTime := now;
      lastFoodTime := startTime;
      alive := true;
      survivalTime := 0.0;
      movementHistory := [];
      lastMoveTime := startTime;
    }
  }
}
