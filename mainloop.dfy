/** The two halves of one frame of main.py's game loop: while the agent is alive, the
    resolution of the cell it stepped on (reward, food, mines, walls, the cell's visit counter);
    once it is dead, the bookkeeping of its generation (best record, no-improvement counter,
    averaging of the three best Q-tables, exploration boost) and its rebirth at the house.

    The loop reads attributes the agent class of character.py does not define (`Q`, `epsilon`,
    `learn`, `prev_state`, `prev_action`), so it is modelled over the record `Agent` holding
    exactly the attributes the loop touches. */
module MainLoop {
  import opened Wrappers
  import opened Coords
  import opened Field
  import opened Elites

  /** The agent as main.py sees it. */
  datatype Agent = Agent(
    pos: Pos,
    alive: bool,
    generation: int,
    survivalTime: real,
    lastFoodTime: real,
    q: QTable,
    epsilon: real,
    prevState: Option<Pos>,
    prevAction: Option<Delta>)

  const StepPenalty: int := -1
  const FlowerReward: int := 10
  const DeathPenalty: int := -100
  /** Seconds of starvation time a flower buys. */
  const FoodBonus: real := 10.0
  /** The cap of a cell's visit counter. */
  const VisitCap: nat := 5

  /** The reward of one step: -1, overridden by 10 on a flower, overridden by -100 on a mine
      or a wall. */
  function StepReward(onFlower: bool, onMine: bool, onWall: bool): (r: int)
    ensures r == DeathPenalty <==> onMine || onWall
    ensures r == FlowerReward <==> onFlower && !onMine && !onWall
    ensures r == StepPenalty <==> !onFlower && !onMine && !onWall
  {
    var afterFlower := if onFlower then FlowerReward else StepPenalty;
    var afterMine := if onMine then DeathPenalty else afterFlower;
    if onWall then DeathPenalty else afterMine
  }

  /** The cell the agent stands on after a step: one more visit up to the cap, the visit time,
      and the decay schedule restarted. */
  function Visited(c: Cell, now: real): (r: Cell)
    ensures r.id == c.id
    ensures r.visitCount <= VisitCap
    ensures c.visitCount < VisitCap ==> r.visitCount == c.visitCount + 1
    ensures c.visitCount >= VisitCap ==> r.visitCount == VisitCap
    ensures r.lastVisit == Some(now) && r.lastDecrement.None?
  {
    var count := if c.visitCount + 1 < VisitCap then c.visitCount + 1 else VisitCap;
    Cell(c.id, count, Some(now), None)
  }

  /** The best record after one death: replaced only by a strictly longer survival. */
  function RecordAfter(record: (real, int), survival: real, generation: int): (r: (real, int))
    ensures r.0 >= record.0 && r.0 >= survival
    ensures r.0 == record.0 || r.0 == survival
    ensures survival > record.0 ==> r == (survival, generation)
    ensures survival <= record.0 ==> r == record
  {
    if survival > record.0 then (survival, generation) else record
  }

  /** The record after a run of deaths, each given as (survival time, generation), starting
      from main.py's `record_survival = 0`, `record_generation = 0`. */
  function RecordOf(deaths: seq<(real, int)>): (r: (real, int))
    ensures r.0 >= 0.0
    ensures r == (0.0, 0) || r in deaths
  {
    if deaths == [] then (0.0, 0)
    else
      var last := deaths[|deaths| - 1];
      RecordAfter(RecordOf(deaths[..|deaths| - 1]), last.0, last.1)
  }

  /** The record holds the longest survival so far (or 0 before any positive survival), and
      its generation is that of the first death that reached it. */
  lemma {:induction false} RecordIsLongestSurvival(deaths: seq<(real, int)>)
    ensures forall i :: 0 <= i < |deaths| ==> deaths[i].0 <= RecordOf(deaths).0
    ensures RecordOf(deaths) == (0.0, 0) ||
            exists i :: 0 <= i < |deaths| && RecordOf(deaths) == deaths[i] &&
                        forall j :: 0 <= j < i ==> deaths[j].0 < deaths[i].0
    ensures RecordOf(deaths).0 >= 0.0
    decreases |deaths|
  {
    if deaths != [] {
      var init := deaths[..|deaths| - 1];
      var last := deaths[|deaths| - 1];
      RecordIsLongestSurvival(init);
      assert forall i :: 0 <= i < |init| ==> init[i] == deaths[i];
      var before := RecordOf(init);
      if last.0 > before.0 {
        assert RecordOf(deaths) == deaths[|deaths| - 1];
      } else if before != (0.0, 0) {
        var i :| 0 <= i < |init| && before == init[i] && forall j :: 0 <= j < i ==> init[j].0 < init[i].0;
        assert RecordOf(deaths) == deaths[i];
      }
    }
  }

  /** The Q-tables of a batch of episode records, in order. */
  function Tables(records: seq<EpisodeRecord>): (tables: seq<QTable>)
    ensures |tables| == |records|
    ensures forall i :: 0 <= i < |records| ==> tables[i] == records[i].table
  {
    seq(|records|, i requires 0 <= i < |records| => records[i].table)
  }

  /** The state of the game loop that outlives a frame. */
  class Session {
    var agent: Agent
    var cells: map<Pos, Cell>
    const walls: set<Pos>
    const housePos: Pos
    const initialMines: set<Pos>
    const initialFlowers: set<Pos>
    var currentMines: set<Pos>
    var currentFlowers: set<Pos>
    var recordGeneration: int
    var recordSurvival: real
    var noImprovementCounter: nat
    var generationData: seq<EpisodeRecord>

    /** The batch is averaged and emptied as soon as it holds three records; visit counters
        stay within the cap; mines and flowers are only ever taken away between rebirths. */
    ghost predicate Valid()
      reads this
    {
      && |generationData| < EliteSize
      && (forall p :: p in cells ==> cells[p].visitCount <= VisitCap)
      && currentMines <= initialMines
      && currentFlowers <= initialFlowers
      && recordSurvival >= 0.0
    }

    /** The set-up of main(): the record at generation 0 and 0 seconds, the counter at 0, an
        empty batch, and the mines and flowers as placed. */
    constructor(agent: Agent, cells: map<Pos, Cell>, walls: set<Pos>, housePos: Pos,
                mines: set<Pos>, flowers: set<Pos>)
      requires forall p :: p in cells ==> cells[p].visitCount <= VisitCap
      ensures Valid()
      ensures this.agent == agent && this.cells == cells && this.walls == walls
      ensures this.housePos == housePos
      ensures initialMines == currentMines == mines
      ensures initialFlowers == currentFlowers == flowers
      ensures recordGeneration == 0 && recordSurvival == 0.0
      ensures noImprovementCounter == 0 && generationData == []
    {
      this.agent := agent;
      this.cells := cells;
      this.walls := walls;
      this.housePos := housePos;
      initialMines := mines;
      initialFlowers := flowers;
      currentMines := mines;
      currentFlowers := flowers;
      recordGeneration := 0;
      recordSurvival := 0.0;
      noImprovementCounter := 0;
      generationData := [];
    }

    /** The living half of a frame (main.py:137-164). The agent's own `update` call is
        modelled by `PacManAgent.Update`; here its outcome is given as the position `pos`,
        the liveness `alive` and the survival time `survival` it left. `now` is the clock
        reading taken for the cell's visit time. Returns the step's reward and whether
        `learn` is called with it. */
    method Step(pos: Pos, alive: bool, survival: real, now: real) returns (reward: int, learnCalled: bool)
      requires Valid() && agent.alive
      requires pos in cells
      modifies this`agent, this`cells, this`currentMines, this`currentFlowers
      ensures Valid()
      ensures var onFlower := pos in old(currentFlowers);
              var onMine := pos in old(currentMines);
              var onWall := pos in walls;
              && reward == StepReward(onFlower, onMine, onWall)
              && agent == old(agent).(pos := pos, alive := alive && !onMine && !onWall,
                                      survivalTime := survival,
                                      lastFoodTime := if onFlower then old(agent.lastFoodTime) + FoodBonus
                                                      else old(agent.lastFoodTime))
      ensures currentFlowers == old(currentFlowers) - {pos}
      ensures currentMines == old(currentMines) - {pos}
      ensures learnCalled <==> agent.prevState.Some? && agent.prevAction.Some?
      ensures cells == old(cells)[pos := Visited(old(cells)[pos], now)]
    {
      agent := agent.(pos := pos, alive := alive, survivalTime := survival);
      reward := StepPenalty;
      if pos in currentFlowers {
        reward := FlowerReward;
        agent := agent.(lastFoodTime := agent.lastFoodTime + FoodBonus);
        currentFlowers := currentFlowers - {pos};
      }
      if pos in currentMines {
        reward := DeathPenalty;
        currentMines := currentMines - {pos};
        agent := agent.(alive := false);
      }
      if pos in walls {
        reward := DeathPenalty;
        agent := agent.(alive := false);
      }
      learnCalled := agent.prevState.Some? && agent.prevAction.Some?;
      cells := cells[pos := Visited(cells[pos], now)];
    }

    /** The dead half of a frame (main.py:165-197): record the life, update the best record
        and the no-improvement counter, advance the generation, average the three longest
        lives' tables once three are batched (boosting exploration after five deaths without
        improvement), and restart the agent at the house with the mines and flowers restored.
        `now` is the clock reading of `reset`. */
    method OnDeath(now: real)
      requires Valid() && !agent.alive
      modifies this`agent, this`recordGeneration, this`recordSurvival, this`noImprovementCounter
      modifies this`generationData, this`currentMines, this`currentFlowers
      ensures Valid()
      ensures (recordSurvival, recordGeneration) ==
              RecordAfter((old(recordSurvival), old(recordGeneration)), old(agent.survivalTime),
                          old(agent.generation))
      ensures agent.generation == old(agent.generation) + 1
      ensures var batch := old(generationData) + [EpisodeRecord(old(agent.survivalTime), old(agent.q))];
              var counter := if old(agent.survivalTime) > old(recordSurvival) then 0
                             else old(noImprovementCounter) + 1;
              if |batch| >= EliteSize then
                var elite := Tables(Elite(batch));
                && generationData == []
                && (forall s :: s in agent.q <==> exists i :: 0 <= i < |elite| && s in elite[i])
                && (forall s :: s in agent.q ==> agent.q[s].Keys == MoveSet)
                && (forall s, a :: s in agent.q && a in MoveSet ==>
                      agent.q[s][a] == AveragedValue(elite, s, a))
                && (counter >= BoostThreshold ==>
                      agent.epsilon == BoostedEpsilon(old(agent.epsilon)) && noImprovementCounter == 0)
                && (counter < BoostThreshold ==>
                      agent.epsilon == old(agent.epsilon) && noImprovementCounter == counter)
              else
                && generationData == batch
                && agent.q == old(agent.q)
                && agent.epsilon == old(agent.epsilon)
                && noImprovementCounter == counter
      ensures agent.pos == housePos && agent.alive
      ensures agent.survivalTime == 0.0 && agent.lastFoodTime == now
      ensures agent.prevState == old(agent.prevState) && agent.prevAction == old(agent.prevAction)
      ensures currentMines == initialMines && currentFlowers == initialFlowers
    {
      generationData := generationData + [EpisodeRecord(agent.survivalTime, agent.q)];
      if agent.survivalTime > recordSurvival {
        recordSurvival := agent.survivalTime;
        recordGeneration := agent.generation;
        noImprovementCounter := 0;
      } else {
        noImprovementCounter := noImprovementCounter + 1;
      }
      agent := agent.(generation := agent.generation + 1);
      if |generationData| >= EliteSize {
        var elite := Elite(generationData);
        var newQ := AverageTables(Tables(elite));
        agent := agent.(q := newQ);
        if noImprovementCounter >= BoostThreshold {
          agent := agent.(epsilon := BoostedEpsilon(agent.epsilon));
          noImprovementCounter := 0;
        }
        generationData := [];
      }
      agent := agent.(pos := housePos, alive := true, survivalTime := 0.0, lastFoodTime := now);
      currentMines := initialMines;
      currentFlowers := initialFlowers;
    }

    /** The per-frame decay of the visit counters (main.py:200), `speed` being the slider's
        speed factor. */
    method DecayVisits(now: real, speed: real)
      requires Valid() && speed > 0.0
      modifies this`cells
      ensures Valid()
      ensures cells.Keys == old(cells).Keys
      ensures forall p :: p in cells ==> cells[p] == Decayed(old(cells)[p], now, speed)
    {
      cells := UpdateCellVisits(cells, now, speed);
    }
  }

  /** The exploration rate never passes 1: a boost from at most 1 stays at most 1, and the
      boosts of main.py only ever raise it. */
  lemma {:induction false} BoostsStayCapped(epsilon: real, boosts: nat)
    requires epsilon <= 1.0
    ensures epsilon <= Boosted(epsilon, boosts) <= 1.0
    decreases boosts
  {
    if boosts > 0 {
      BoostsStayCapped(epsilon, boosts - 1);
    }
  }

  /** `epsilon` after `boosts` exploration boosts. */
  function Boosted(epsilon: real, boosts: nat): real
    decreases boosts
  {
    if boosts == 0 then epsilon else BoostedEpsilon(Boosted(epsilon, boosts - 1))
  }
}
