/** The move-weight vector of the agent (character.py): four weights, one per move, that
    `reinforce` and `mutate` rescale and then renormalise so that they sum to one. */
module Weights {
  import opened Coords

  type Weights = map<Delta, real>

  /** The dictionary holds exactly the four move keys. */
  predicate HasFourMoves(w: Weights) {
    w.Keys == MoveSet
  }

  /** The initial vector: 0.25 for each direction. */
  const Initial: Weights := map[Right := 0.25, Left := 0.25, Down := 0.25, Up := 0.25]

  /** `sum(self.move_weights.values())`. */
  function Total(w: Weights): (t: real)
    requires HasFourMoves(w)
    ensures w[Right] >= 0.0 && w[Left] >= 0.0 && w[Down] >= 0.0 && w[Up] >= 0.0 ==> 0.0 <= t
  {
    w[Right] + w[Left] + w[Down] + w[Up]
  }

  /** `max(self.move_weights.values())`. */
  function MaxWeight(w: Weights): (m: real)
    requires HasFourMoves(w)
    ensures exists d :: d in w && w[d] == m
    ensures forall d :: d in w ==> w[d] <= m
  {
    var a := if w[Right] >= w[Left] then w[Right] else w[Left];
    var b := if w[Down] >= w[Up] then w[Down] else w[Up];
    if a >= b then a else b
  }

  /** Every weight divided by `total`, as the normalisation loops do. */
  function Normalized(w: Weights, total: real): (r: Weights)
    requires total != 0.0
    ensures r.Keys == w.Keys
    ensures forall d :: d in w ==> r[d] * total == w[d]
  {
    map d | d in w :: w[d] / total
  }

  /** Adds `inc` once to the weight of each move of `history`, in order (the loop of `reinforce`). */
  function Reinforced(w: Weights, history: seq<Delta>, inc: real): (r: Weights)
    requires forall i :: 0 <= i < |history| ==> history[i] in w
    ensures r.Keys == w.Keys
    decreases |history|
  {
    if history == [] then w
    else
      var r0 := Reinforced(w, history[..|history| - 1], inc);
      var d := history[|history| - 1];
      r0[d := r0[d] + inc]
  }

  /** The weights after the mutation loop: the move at index `i` of `Moves` is scaled by
      `1 + offsets[i]` exactly when its draw `rolls[i]` is below `rate`. */
  function Mutated(w: Weights, rate: real, rolls: seq<real>, offsets: seq<real>): (r: Weights)
    requires HasFourMoves(w) && |rolls| == 4 && |offsets| == 4
    ensures HasFourMoves(r)
    ensures forall d :: d in w && rolls[MoveIndex(d)] >= rate ==> r[d] == w[d]
    ensures (forall d :: d in w ==> w[d] >= 0.0) && (forall i :: 0 <= i < 4 ==> offsets[i] >= -1.0) ==>
              forall d :: d in r ==> r[d] >= 0.0
  {
    map d | d in w :: MutatedAt(w, MoveIndex(d), rate, rolls, offsets)
  }

  /** The new weight of the move at index `i` of `Moves`. */
  function MutatedAt(w: Weights, i: nat, rate: real, rolls: seq<real>, offsets: seq<real>): (r: real)
    requires HasFourMoves(w) && i < 4 && |rolls| == 4 && |offsets| == 4
    ensures rolls[i] >= rate ==> r == w[Moves[i]]
    ensures w[Moves[i]] >= 0.0 && offsets[i] >= -1.0 ==> r >= 0.0
  {
    w[Moves[i]] * Factor(rate, rolls, offsets, i)
  }

  /** The magnitude of a mutation strength: `random.uniform(-s, s)` draws from `[-|s|, |s|]`
      whichever the sign of `s`. */
  function Abs(x: real): (r: real)
    ensures r >= 0.0 && (r == x || r == -x)
  {
    if x < 0.0 then -x else x
  }

  /** `factor = 1 + random.uniform(-strength, strength)` when the move's draw is below the rate;
      a move whose draw is not below the rate keeps its weight (factor one). */
  function Factor(rate: real, rolls: seq<real>, offsets: seq<real>, i: nat): (f: real)
    requires i < 4 && |rolls| == 4 && |offsets| == 4
    ensures rolls[i] >= rate ==> f == 1.0
    ensures offsets[i] >= -1.0 ==> f >= 0.0
  {
    if rolls[i] < rate then 1.0 + offsets[i] else 1.0
  }

  /** The documented bound of `mutate`: each move's weight is multiplied by its factor, and
      every factor lies within `|strength|` of one. */
  predicate ScaledWithinStrength(w: Weights, rate: real, strength: real, rolls: seq<real>, offsets: seq<real>)
    requires HasFourMoves(w) && |rolls| == 4 && |offsets| == 4
  {
    forall i :: 0 <= i < 4 ==>
      && Mutated(w, rate, rolls, offsets)[Moves[i]] == w[Moves[i]] * Factor(rate, rolls, offsets, i)
      && 1.0 - Abs(strength) <= Factor(rate, rolls, offsets, i) <= 1.0 + Abs(strength)
  }

  /** The mutation loop, with offsets drawn from `random.uniform(-strength, strength)`, changes
      each weight by at most `|strength|` of itself. */
  lemma MutationWithinStrength(w: Weights, rate: real, strength: real, rolls: seq<real>, offsets: seq<real>)
    requires HasFourMoves(w) && |rolls| == 4 && |offsets| == 4
    requires forall i :: 0 <= i < 4 ==>
               (-strength <= offsets[i] <= strength) || (strength <= offsets[i] <= -strength)
    ensures ScaledWithinStrength(w, rate, strength, rolls, offsets)
  {
    MutatedByFactor(w, rate, rolls, offsets);
    FactorWithinStrength(rate, rolls, offsets, strength);
  }

  /** With every offset drawn from `random.uniform(-strength, strength)`, every move's factor
      lies within `|strength|` of one: the largest percentage change of `mutate`. */
  lemma FactorWithinStrength(rate: real, rolls: seq<real>, offsets: seq<real>, strength: real)
    requires |rolls| == 4 && |offsets| == 4
    requires forall i :: 0 <= i < 4 ==>
               (-strength <= offsets[i] <= strength) || (strength <= offsets[i] <= -strength)
    ensures forall i :: 0 <= i < 4 ==>
              1.0 - Abs(strength) <= Factor(rate, rolls, offsets, i) <= 1.0 + Abs(strength)
  {
    forall i | 0 <= i < 4
      ensures 1.0 - Abs(strength) <= Factor(rate, rolls, offsets, i) <= 1.0 + Abs(strength)
    {
      assert -Abs(strength) <= offsets[i] <= Abs(strength);
    }
  }

  /** After the mutation loop every move's weight is its old weight times that move's factor. */
  lemma MutatedByFactor(w: Weights, rate: real, rolls: seq<real>, offsets: seq<real>)
    requires HasFourMoves(w) && |rolls| == 4 && |offsets| == 4
    ensures forall i :: 0 <= i < 4 ==>
              Mutated(w, rate, rolls, offsets)[Moves[i]] == w[Moves[i]] * Factor(rate, rolls, offsets, i)
  {
    forall i | 0 <= i < 4
      ensures Mutated(w, rate, rolls, offsets)[Moves[i]] == w[Moves[i]] * Factor(rate, rolls, offsets, i)
    {
      assert MoveIndex(Moves[i]) == i;
    }
  }

  /** With its offset within `[-bound, bound]`, a non-negative weight moves by at most `bound`
      of itself, up or down. */
  lemma MutatedAtWithinStrength(w: Weights, i: nat, rate: real, rolls: seq<real>, offsets: seq<real>, bound: real)
    requires HasFourMoves(w) && i < 4 && |rolls| == 4 && |offsets| == 4
    requires -bound <= offsets[i] <= bound && w[Moves[i]] >= 0.0
    ensures w[Moves[i]] * (1.0 - bound) <= MutatedAt(w, i, rate, rolls, offsets) <= w[Moves[i]] * (1.0 + bound)
  {
    ScaleBetween(w[Moves[i]], 1.0 - bound, Factor(rate, rolls, offsets, i), 1.0 + bound);
  }

  /** Multiplying by a non-negative weight keeps the order of factors. */
  lemma ScaleBetween(x: real, lo: real, f: real, hi: real)
    requires x >= 0.0 && lo <= f <= hi
    ensures x * lo <= x * f <= x * hi
  {
  }

  /** The initial vector sums to one. */
  lemma InitialIsUnit()
    ensures HasFourMoves(Initial) && Total(Initial) == 1.0
  {
  }

  /** Normalising by the total gives a vector that sums to one. */
  lemma NormalizedSumsToOne(w: Weights)
    requires HasFourMoves(w) && Total(w) != 0.0
    ensures HasFourMoves(Normalized(w, Total(w)))
    ensures Total(Normalized(w, Total(w))) == 1.0
  {
    var t := Total(w);
    var r := Normalized(w, t);
    assert r[Right] == w[Right] / t && r[Left] == w[Left] / t;
    assert r[Down] == w[Down] / t && r[Up] == w[Up] / t;
    SumOfQuotients(w[Right], w[Left], w[Down], w[Up], t);
  }

  lemma SumOfQuotients(a: real, b: real, c: real, d: real, t: real)
    requires t != 0.0 && t == a + b + c + d
    ensures a / t + b / t + c / t + d / t == 1.0
  {
    assert a / t + b / t + c / t + d / t == (a + b + c + d) / t;
  }

  /** A vector that already sums to one is left as it is by normalisation. */
  lemma NormalizedUnitIsIdentity(w: Weights)
    requires HasFourMoves(w) && Total(w) == 1.0
    ensures Normalized(w, Total(w)) == w
  {
  }

  /** Each weight grows by `inc` times the number of times its move occurs in the history. */
  lemma {:induction false} ReinforcedCounts(w: Weights, history: seq<Delta>, inc: real, d: Delta)
    requires forall i :: 0 <= i < |history| ==> history[i] in w
    requires d in w
    ensures Reinforced(w, history, inc)[d] == w[d] + inc * multiset(history)[d] as real
    decreases |history|
  {
    if history == [] {
      assert Reinforced(w, history, inc) == w;
    } else {
      var init := history[..|history| - 1];
      var hit := history[|history| - 1] == d;
      ReinforcedCounts(w, init, inc, d);
      ReinforcedLast(w, history, inc, d);
      CountLast(history, d);
      AddShare(w[d], inc, multiset(init)[d], multiset(history)[d], hit);
    }
  }

  /** The last move of the history adds `inc` to the weight of `d` exactly when it is `d`. */
  lemma ReinforcedLast(w: Weights, history: seq<Delta>, inc: real, d: Delta)
    requires history != [] && d in w
    requires forall i :: 0 <= i < |history| ==> history[i] in w
    ensures Reinforced(w, history, inc)[d] ==
              Reinforced(w, history[..|history| - 1], inc)[d] + if history[|history| - 1] == d then inc else 0.0
  {
  }

  /** Counting one more hit adds one more share. */
  lemma AddShare(base: real, inc: real, n: nat, m: nat, hit: bool)
    requires m == n + if hit then 1 else 0
    ensures base + inc * n as real + (if hit then inc else 0.0) == base + inc * m as real
  {
  }

  /** The count of `d` in a history is its count before the last move, plus one when the last
      move is `d`. */
  lemma CountLast(history: seq<Delta>, d: Delta)
    requires history != []
    ensures multiset(history)[d] ==
              multiset(history[..|history| - 1])[d] + if history[|history| - 1] == d then 1 else 0
  {
    var init := history[..|history| - 1];
    assert history == init + [history[|history| - 1]];
  }

  /** The total before normalisation is the old total plus `inc` once per recorded move. */
  lemma {:induction false} ReinforcedTotal(w: Weights, history: seq<Delta>, inc: real)
    requires HasFourMoves(w)
    requires forall i :: 0 <= i < |history| ==> history[i] in w
    ensures HasFourMoves(Reinforced(w, history, inc))
    ensures Total(Reinforced(w, history, inc)) == Total(w) + |history| as real * inc
    decreases |history|
  {
    if history == [] {
      assert Reinforced(w, history, inc) == w;
    } else {
      var init := history[..|history| - 1];
      assert forall i :: 0 <= i < |init| ==> init[i] in w;
      ReinforcedTotal(w, init, inc);
      ReinforcedStep(w, history, inc);
      SuccTimes(|history|, |init|, inc);
    }
  }

  /** The last move of the history adds `inc` to the total of the moves before it. */
  lemma ReinforcedStep(w: Weights, history: seq<Delta>, inc: real)
    requires HasFourMoves(w) && history != []
    requires forall i :: 0 <= i < |history| ==> history[i] in w
    ensures HasFourMoves(Reinforced(w, history[..|history| - 1], inc))
    ensures Total(Reinforced(w, history, inc)) == Total(Reinforced(w, history[..|history| - 1], inc)) + inc
  {
    var r0 := Reinforced(w, history[..|history| - 1], inc);
    var d := history[|history| - 1];
    AddOneTotal(r0, d, inc);
  }

  /** One more share of `inc`. */
  lemma SuccTimes(m: nat, n: nat, inc: real)
    requires m == n + 1
    ensures m as real * inc == n as real * inc + inc
  {
  }

  /** Raising one weight by `inc` raises the total by `inc`. */
  lemma AddOneTotal(w: Weights, d: Delta, inc: real)
    requires HasFourMoves(w) && d in w
    ensures HasFourMoves(w[d := w[d] + inc])
    ensures Total(w[d := w[d] + inc]) == Total(w) + inc
  {
  }

  /** `n` shares of `reward / n` add up to `reward`. */
  lemma SharesAddUp(n: real, reward: real)
    requires n != 0.0
    ensures n * (reward / n) == reward
  {
  }

  /** With rate zero no draw in `[0, 1)` is below the rate, so the mutation loop changes nothing. */
  lemma MutatedZeroRateIsIdentity(w: Weights, rolls: seq<real>, offsets: seq<real>)
    requires HasFourMoves(w) && |rolls| == 4 && |offsets| == 4
    requires forall i :: 0 <= i < 4 ==> 0.0 <= rolls[i] < 1.0
    ensures Mutated(w, 0.0, rolls, offsets) == w
  {
    var m := Mutated(w, 0.0, rolls, offsets);
    forall d | d in w ensures m[d] == w[d] {
      assert 0.0 <= rolls[MoveIndex(d)];
      assert Moves[MoveIndex(d)] == d;
    }
  }

  /** The largest of weights that sum to one is at least one quarter, and at most one when
      no weight is negative. */
  lemma MaxWeightBounds(w: Weights)
    requires HasFourMoves(w)
    ensures Total(w) == 1.0 ==> MaxWeight(w) >= 0.25
    ensures Total(w) == 1.0 && (forall d :: d in w ==> w[d] >= 0.0) ==> MaxWeight(w) <= 1.0
  {
  }
}
