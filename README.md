# Learning-Pac, modelled in Dafny

Learning-Pac is a small pygame game. A Pac-Man agent wanders a 100 × 100 grid. Four bunkers
with an opening sit in the corners. Mines and flowers are scattered over the free cells.
The agent starves after 20 real seconds without food. It dies on a mine, a wall or a step off
the grid. Each death closes a generation. The three longest-lived generations of a batch
have their Q-tables averaged. Exploration is boosted at the next elite averaging once at
least five deaths in a row have failed to set a new survival record.

This project models the core of that program and proves properties about it:

- the agent of `character.py` (class `Character.PacManAgent`);
- the grid, bunker and visit-decay helpers of `field.py` (module `Field`);
- mine and flower placement (`Mines`, `Food`);
- the speed slider's conversions (`SliderModel`);
- the two halves of a frame of the game loop in `main.py` (class `MainLoop.Session`), with
  the elite averaging in `Elites`.

Clock readings (`time.time()`) are parameters named `now`.

Random draws are handled in two ways. The draws of `mutate` are parameters. `random.choices`
and `random.sample` become nondeterministic choices.

Python floats are modelled as exact `real`s. Python's `round` (half to even) and `int()`
(truncation toward zero) are written out in `PyNum`.

A ZeroDivisionError when weights are renormalised is modelled as a `failed` result, not as a
precondition.

The loop in `main.py` reads agent attributes that `character.py` never defines: `Q`,
`epsilon`, `prev_state`, `prev_action`, and the method `learn`. With the class of
`character.py`, the loop as written raises AttributeError at main.py:158 on its first living
frame, and at main.py:166 on the first death. So the loop is modelled over the record
`MainLoop.Agent`, which holds exactly what the loop touches. It models the agent the loop
expects, not a program that runs. The agent's own
`update` call is modelled by `Character.PacManAgent.Update`. `MainLoop.Session.Step` takes
that call's outcome as parameters.

Behaviours of the code worth knowing:

- `mutate` and `reinforce` divide by the weight total without checking it for zero.
- `decide_move` draws by weight; the ε that main.py reads is never consulted by
  `character.py`.
- An averaged Q entry is the mean over the elites that have it, or 0.0 when none has it.
- Averaging runs once the batch holds three records (`>= 3`; it never holds more).
- The loop passes `update` the empty sets `obstacles` and `food_positions` (main.py:111-112,
  main.py:139). So `update`'s obstacle death and food-time reset never fire in the game. Flowers,
  mines and walls are handled by the loop itself. `MainLoop.Session.Step` therefore carries the
  agent's food time over from before the update, and the loop's own flower bonus is the only
  change to it.
- The first visit-count decrement of a cell comes 90/speed seconds after its last visit, not
  60/speed. The 60/speed wait only fixes the starting point of the 30/speed decrement clock
  (field.py:114-118).

## Model

| member | source | states |
|---|---|---|
| Weights.MaxWeight | character.py:42 | the maximum is one of the weights and bounds all of them |
| Weights.Total | character.py:59 | `sum(move_weights.values())`: non-negative weights have a non-negative total |
| Weights.Normalized | character.py:58-61 | the same keys, each new weight times the total gives back the old weight |
| Weights.Reinforced | character.py:161-162 | adding the history's shares keeps the key set |
| Weights.Mutated | character.py:53-57 | the mutation loop keeps the four keys, leaves every weight whose draw is not below the rate unchanged, and keeps non-negative weights non-negative when no offset is below -1 |
| Weights.MutatedAt | character.py:54-57 | one move's weight: unchanged when its draw is not below the rate, and non-negative when it was non-negative and the offset is at least -1 |
| Weights.Factor | character.py:54-56 | the multiplier of one move: 1 when its draw is not below the rate, non-negative when the offset is at least -1 |
| Weights.FactorWithinStrength | character.py:49-56 | with every offset drawn from `uniform(-strength, strength)`, every factor lies in `[1 - abs(strength), 1 + abs(strength)]`: the documented largest percentage change |
| Weights.MutatedByFactor | character.py:53-57 | after the mutation loop each move's weight is its old weight times that move's factor |
| Weights.MutationWithinStrength | character.py:46-57 | the mutation loop multiplies each weight by a factor within `abs(strength)` of 1 |
| Weights.MutatedAtWithinStrength | character.py:49-57 | a non-negative weight whose offset is within `[-b, b]` ends in `[w * (1 - b), w * (1 + b)]` |
| Weights.InitialIsUnit | character.py:26-31 | the initial vector has the four move keys and sums to 1 |
| Weights.NormalizedSumsToOne | character.py:58-61 | dividing by a non-zero total makes the weights sum to 1 |
| Weights.NormalizedUnitIsIdentity | character.py:58-61 | renormalising a vector that sums to 1 leaves it unchanged |
| Weights.ReinforcedCounts | character.py:161-162 | each weight grows by the share times the number of occurrences of its move in the history |
| Weights.ReinforcedTotal | character.py:161-163 | the pre-normalisation total is the old total plus the share once per recorded move |
| Weights.MutatedZeroRateIsIdentity | character.py:53-57 | with rate 0 no draw in [0, 1) is below the rate, so the mutation loop changes nothing |
| Weights.MaxWeightBounds | character.py:42-43 | the largest of weights summing to 1 is at least 0.25, and at most 1 when none is negative |
| Character.NonReversing | character.py:93-99 | a move is kept iff it is a candidate and does not land on the previous cell; no more than the candidates are kept |
| Character.NonReversingKeepsThree | character.py:93-106 | at least three of the four moves survive the anti-reversal filter, so the unfiltered fallback is dead code |
| Coords.StepInjective | character.py:95-98 | no move stays in place, and different moves from one cell reach different cells |
| PyNum.Round | character.py:43 | Python's `round`: within one half of its argument, and even on a tie |
| PyNum.Trunc | main.py:28 | Python's `int()` on a float: drops the fraction toward zero, so it lies within one of its argument on the side of zero |
| Character.PacManAgent.constructor | character.py:7-34 | start cell, generation, timers at `now`, alive, empty history, weights 0.25 each summing to 1, move delay 0.4, intelligence 0 |
| Character.PacManAgent.GetIntelligence | character.py:36-44 | 0 for the initial weights; at least 0 when the weights sum to 1; at most 75 when they are also non-negative |
| Character.PacManAgent.NormalizeBy | character.py:58-61 | the weights become `Normalized` of the old weights by the total |
| Character.PacManAgent.ScaleByDraws | character.py:53-57 | each weight whose draw is below the rate is scaled by 1 + its offset, the others are unchanged |
| Character.PacManAgent.Mutate | character.py:46-61 | the four keys are kept; ZeroDivisionError exactly when the mutated total is 0; otherwise the weights sum to 1; rate 0 leaves a unit vector unchanged; before normalising, each weight is its old weight times a factor within `abs(strength)` of 1 |
| Character.PacManAgent.RaiseHistoryMoves | character.py:161-162 | the weights become `Reinforced` by the history with the given share |
| Character.PacManAgent.Reinforce | character.py:154-165 | an empty history changes nothing; ZeroDivisionError exactly when the old total plus the reward is 0; otherwise the raised weights are renormalised and sum to 1 |
| Character.PacManAgent.DecideMove | character.py:88-106 | the move is one of the four weight keys, and a non-reversing one whenever one exists |
| Character.PacManAgent.Move | character.py:109-119 | off the grid: dies, position and previous cell unchanged; on the grid: moves by the delta, remembers the old cell, liveness unchanged |
| Character.PacManAgent.DecideAndMove | character.py:75-77 | exactly one move is appended to the history, it never leads back to the previous cell, and it is taken as `move` takes it (death off the grid without moving) |
| Character.PacManAgent.Update | character.py:64-85 | survival time from the start; starvation at 20 s since the old food time regardless of speed; exactly one non-reversing move appended iff the move delay / speed has passed, none otherwise; death off the grid or on an obstacle; food resets the food time |
| Character.PacManAgent.Reset | character.py:167-179 | new start cell, alive, survival 0, empty history, all three timers at `now`; weights, generation and previous cell are not in its frame |
| Field.RowMajorIdsDistinct | field.py:12-14 | different grid cells get different row-major ids |
| Field.RowMajorIdInRange | field.py:12-14 | a grid cell's row-major id lies in `[0, rows * cols)` |
| Field.CreateGrid | field.py:8-27 | the keys are exactly the in-grid cells; each id is `row * cols + col`, in range and pairwise distinct; visit count 0, no last visit, no last decrement |
| Field.CreateBunker | field.py:30-54 | a cell is a wall iff it is on the square's border and not in the centred opening on the start row ("top") or end row ("bottom"); any other side leaves no opening |
| Field.Drain | field.py:118-120 | the decrement loop never raises the count, advances the decrement time by one step per decrement, and stops only at 0 or less than a step from `now` |
| Field.DrainRemovesElapsedSteps | field.py:118-120 | the loop removes exactly the number of whole steps elapsed since the last decrement, capped by the count |
| Field.Decayed | field.py:112-120 | id and last visit are kept and the count never rises; a cell with count 0, no visit, or a visit less than 60/speed ago is untouched; otherwise the decrement clock starts at last visit + 60/speed (or its old value), the count drops by exactly the number of whole 30/speed steps from that start to `now`, capped by the count, and the clock advances one step per visit removed |
| Field.DecayCell | field.py:112-120 | the in-place update of one cell yields `Decayed` |
| Field.UpdateCellVisits | field.py:109-120 | the same cells, each replaced by its `Decayed` form |
| Sampling.SubsetOfSize | mines.py:14 | a set has a subset of every size up to its own |
| Mines.GenerateMines | mines.py:5-15 | distinct grid cells, no wall, not the house, exactly `min(num_mines, free cells)` of them |
| Food.GenerateFlowers | food.py:5-16 | distinct grid cells, no wall, no mine, not the house, exactly `min(num_flowers, free cells)` of them |
| SliderModel.ValueToPos | main.py:26-28 | ZeroDivisionError iff the range is empty; an in-range value lands on the track; the ends of the range land on the ends of the track |
| SliderModel.PosToValue | main.py:30-33 | ZeroDivisionError iff the track has zero width; the result always lies in `[min_val, max_val]` |
| SliderModel.RoundTrip | main.py:26-33 | with more than two pixels per unit, reading back the knob placed for a value returns that value |
| SliderModel.SpeedSliderRoundTrips | main.py:125 | the 280-pixel, 1..10 speed slider reads back every speed it shows |
| Elites.Insert | main.py:177 | inserting a record adds exactly that record to the multiset |
| Elites.InsertKeepsOrder | main.py:177 | inserting into a list sorted by descending survival keeps it sorted |
| Elites.SortBySurvival | main.py:177 | the result is sorted by descending survival and is a permutation of the batch |
| Elites.EliteAreLongestSurvivors | main.py:177 | the elite has `min(3, n)` records, all from the batch, each lived at least as long as every record left out, and it is the whole batch when there are at most 3 |
| Elites.Elite | main.py:177 | `sorted(..., reverse=True)[:3]`: `min(3, n)` records, sorted by descending survival |
| Elites.StatesOf | main.py:179-181 | a state is collected iff some elite table has it |
| Elites.PresentValues | main.py:185 | at most one value per elite; every elite's value when all have the entry; none when none has it; each value comes from an elite that has the entry |
| Elites.Holders | main.py:185 | the positions of the elites that hold an entry: in increasing order, each holding the entry, and every holder listed |
| Elites.PresentValuesOfHolders | main.py:185 | the values are exactly the holders' values, one per holder, in elite order, whichever elites hold the entry |
| Elites.AveragedValueOfFirstAndLast | main.py:185-187 | an entry only the first and the last of three elites have averages to the mean of their two values |
| Elites.AveragedValue | main.py:185-189 | `new_Q[state][action]`: 0.0 when no elite has the entry, otherwise the value that times the number of present values gives their sum (their mean) |
| Elites.SumBounds | main.py:187 | a sum of values between `lo` and `hi` lies between `n * lo` and `n * hi` |
| Elites.AveragedValueWithinBounds | main.py:185-189 | a present entry's average lies within the bounds of the elites' values; an entry no elite has averages to 0.0 |
| Elites.AveragedValueOfThree | main.py:185-187 | an entry all three elites have averages to the arithmetic mean of their three values |
| Elites.AveragedRow | main.py:183-189 | every averaged state gets exactly the four actions |
| Elites.AverageTables | main.py:178-190 | the new table's states are the union of the elites' states, each with exactly the four actions, each entry the averaged value |
| Elites.AverageRow | main.py:183-189 | the inner action loop builds `AveragedRow` |
| Elites.BoostedEpsilon | main.py:192 | the boosted rate never exceeds 1, is the old rate plus 0.1 up to 0.9, and never lowers a rate of at most 1 |
| MainLoop.BoostsStayCapped | main.py:191-192 | any number of boosts from a rate of at most 1 never lowers it and never passes 1 |
| MainLoop.StepReward | main.py:142-157 | -100 iff on a mine or a wall; 10 iff on a flower and neither; -1 iff on none of them |
| MainLoop.Visited | main.py:161-164 | the id is kept; the visit count rises by one up to the cap of 5; the visit time is `now` and the decrement clock is cleared |
| MainLoop.RecordAfter | main.py:167-172 | the record never shrinks, covers the new survival, and is replaced (with the generation) only by a strictly longer survival |
| MainLoop.RecordOf | main.py:166-172 | the record kept over a run of deaths from the initial (0, 0): never negative, and either the initial record or one of the deaths |
| MainLoop.RecordIsLongestSurvival | main.py:166-172 | after any run of deaths the record is at least every survival, and it is the initial (0, 0) or the first death reaching the longest survival |
| MainLoop.Session.constructor | main.py:114-124 | record generation 0 and survival 0, counter 0, empty batch, mines and flowers as placed |
| MainLoop.Session.Step | main.py:137-164 | the reward is `StepReward` of the cell; a flower adds 10 s to the food time and is removed; a mine is removed and kills; a wall kills; `learn` is called iff a previous state and action exist; the cell becomes `Visited`; the invariant (visit counts at most 5) is kept |
| MainLoop.Session.OnDeath | main.py:165-197 | the record is `RecordAfter`; the counter resets on a record and otherwise rises by one; the generation rises by one; once three records are batched the Q-table becomes the average of the elite, ε is boosted and the counter cleared if it reached 5, and the batch is emptied; otherwise the record is batched; the agent restarts alive at the house with survival 0 and food time `now`; mines and flowers are restored |
| MainLoop.Session.DecayVisits | main.py:200 | every cell becomes its `Decayed` form and the visit-count cap still holds |

## Left out

- Rendering, sounds and animations are not modelled: `draw*`, `overpaint_walls`, `draw_overlay`, `draw_hovered_cell`, `eating_animation`, `explosion_animation` and `play_*_sound` are display and audio only.
- The widget behaviour of the slider is not modelled: `Slider.__init__`'s knob state, `handle_event`, `get_knob_rect` and `draw` are event plumbing and pixel geometry.
- `main()`'s set-up (screen, bunkers, house, font) is not modelled; `MainLoop.Session.constructor` takes the grid, walls, house and placements as parameters. The event loop and `clock.tick` are also left out.
- The `pygame.Rect` of each cell in `create_grid` is not modelled, because it is pixel geometry only.
- `learn` is defined nowhere in the repository. `MainLoop.Session.Step` reports whether it would be called, and leaves the Q-table and ε unchanged.
- `MainLoop.Session.OnDeath` stores the Q-table as a value. Python's shallow `Q.copy()` shares the inner action dictionaries, and that aliasing is not represented.
- `Character.PacManAgent.DecideMove` promises only which moves are eligible, not the weighted distribution of `random.choices`. It also omits the ValueError `random.choices` raises when the weights sum to zero or less.
- `Character.PacManAgent.DecideMove` omits the `prev_pos is None` test, because `prev_pos` is always set from `__init__` on.
- `Character.PacManAgent.Update` omits the `grid` parameter, because it is unused.
- `Character.PacManAgent.Mutate` takes the `random.random()` and `random.uniform` draws as parameters. Their distribution is not modelled.
- `Mines.GenerateMines` promises only the size and membership of the sample, not the uniform distribution of `random.sample`. A negative count, which makes `random.sample` raise ValueError, is excluded by its `nat` type.
- `Food.GenerateFlowers` promises only the size and membership of the sample, not the uniform distribution of `random.sample`. A negative count is excluded by its `nat` type.
- Floating-point rounding is not modelled. Weights, times and Q-values are exact reals, so "sums to 1" is exact here, where Python's result is within rounding error.
