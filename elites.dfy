/** The generation bookkeeping of main.py that is pure computation: choosing the elite
    episodes by survival time, averaging their value tables entry by entry, and the capped
    exploration boost. */
module Elites {
  import opened Coords

  type ActionValues = map<Delta, real>
  /** `Q`: per state, a value per action. */
  type QTable = map<Pos, ActionValues>

  /** One entry of `generation_data`: the survival time of a life and its value table. */
  datatype EpisodeRecord = EpisodeRecord(survival: real, table: QTable)

  /** How many episodes are averaged, and the stagnation count that triggers the boost. */
  const EliteSize: nat := 3
  const BoostThreshold: nat := 5

  ghost predicate SortedBySurvival(s: seq<EpisodeRecord>) {
    forall i, j :: 0 <= i < j < |s| ==> s[i].survival >= s[j].survival
  }

  /** Inserts `r` into a list sorted by descending survival, ahead of the records it ties
      with (it came earlier in the original list, and Python's sort is stable). */
  function Insert(r: EpisodeRecord, sorted: seq<EpisodeRecord>): (out: seq<EpisodeRecord>)
    ensures multiset(out) == multiset(sorted) + multiset{r}
    decreases |sorted|
  {
    if sorted == [] || r.survival >= sorted[0].survival then [r] + sorted
    else
      assert sorted == [sorted[0]] + sorted[1..];
      [sorted[0]] + Insert(r, sorted[1..])
  }

  lemma {:induction false} InsertKeepsOrder(r: EpisodeRecord, sorted: seq<EpisodeRecord>)
    requires SortedBySurvival(sorted)
    ensures SortedBySurvival(Insert(r, sorted))
    decreases |sorted|
  {
    if sorted != [] && r.survival < sorted[0].survival {
      var tail := sorted[1..];
      InsertKeepsOrder(r, tail);
      var rest := Insert(r, tail);
      forall j | 0 <= j < |rest| ensures sorted[0].survival >= rest[j].survival {
        assert rest[j] in multiset(rest);
        if rest[j] != r {
          assert rest[j] in multiset(tail);
          var k :| 0 <= k < |tail| && tail[k] == rest[j];
          assert tail[k] == sorted[k + 1];
        }
      }
      var out := [sorted[0]] + rest;
      assert Insert(r, sorted) == out;
      forall i, j | 0 <= i < j < |out| ensures out[i].survival >= out[j].survival {
        if i > 0 {
          assert out[i] == rest[i - 1] && out[j] == rest[j - 1];
        } else {
          assert out[j] == rest[j - 1];
        }
      }
    }
  }

  /** `sorted(generation_data, key=lambda x: x[0], reverse=True)`: ordered by descending
      survival and a permutation of the batch. */
  function SortBySurvival(s: seq<EpisodeRecord>): (out: seq<EpisodeRecord>)
    ensures SortedBySurvival(out)
    ensures multiset(out) == multiset(s)
    decreases |s|
  {
    if s == [] then []
    else
      assert s == [s[0]] + s[1..];
      var rest := SortBySurvival(s[1..]);
      InsertKeepsOrder(s[0], rest);
      Insert(s[0], rest)
  }

  /** `sorted(...)[:3]`: the first three records of the sorted batch (all of them when there
      are fewer). */
  function Elite(batch: seq<EpisodeRecord>): (elite: seq<EpisodeRecord>)
    ensures |elite| == if |batch| < EliteSize then |batch| else EliteSize
    ensures SortedBySurvival(elite)
  {
    var sorted := SortBySurvival(batch);
    assert |sorted| == |multiset(sorted)| == |batch|;
    sorted[..if |sorted| < EliteSize then |sorted| else EliteSize]
  }

  /** The elite are the records with the largest survival times: at most three records of
      the batch, and every record left out survived no longer than any chosen one; a batch
      of at most three is taken whole. */
  lemma EliteAreLongestSurvivors(batch: seq<EpisodeRecord>)
    ensures var elite := Elite(batch);
            && |elite| == (if |batch| < EliteSize then |batch| else EliteSize)
            && multiset(elite) <= multiset(batch)
            && (forall i, x :: 0 <= i < |elite| && x in multiset(batch) - multiset(elite) ==>
                  elite[i].survival >= x.survival)
            && (|batch| <= EliteSize ==> multiset(elite) == multiset(batch))
  {
    var sorted := SortBySurvival(batch);
    assert |sorted| == |multiset(sorted)| == |batch|;
    var k := if |sorted| < EliteSize then |sorted| else EliteSize;
    SplitMultiset(sorted, k);
    PrefixDominates(sorted, k);
  }

  lemma SplitMultiset(s: seq<EpisodeRecord>, k: nat)
    requires k <= |s|
    ensures multiset(s) == multiset(s[..k]) + multiset(s[k..])
  {
    assert s == s[..k] + s[k..];
  }

  /** In a list sorted by descending survival, each of the first `k` records survived at
      least as long as every later one. */
  lemma PrefixDominates(sorted: seq<EpisodeRecord>, k: nat)
    requires SortedBySurvival(sorted) && k <= |sorted|
    ensures forall i, x :: 0 <= i < k && x in multiset(sorted[k..]) ==> sorted[i].survival >= x.survival
  {
    forall i, x | 0 <= i < k && x in multiset(sorted[k..]) ensures sorted[i].survival >= x.survival {
      var rest := sorted[k..];
      var j :| 0 <= j < |rest| && rest[j] == x;
      assert sorted[k + j] == x;
    }
  }

  /** The states of all tables (`all_states`), gathered table by table. */
  function StatesOf(tables: seq<QTable>): (states: set<Pos>)
    ensures forall s :: s in states <==> exists i :: 0 <= i < |tables| && s in tables[i]
    decreases |tables|
  {
    if tables == [] then {}
    else
      var init := tables[..|tables| - 1];
      assert forall i :: 0 <= i < |init| ==> init[i] == tables[i];
      StatesOf(init) + tables[|tables| - 1].Keys
  }

  /** The list `values` of main.py: the value of action `a` in state `s` from each table that
      has that entry, in table order. */
  function PresentValues(tables: seq<QTable>, s: Pos, a: Delta): (values: seq<real>)
    ensures |values| <= |tables|
    ensures (forall i :: 0 <= i < |tables| ==> s in tables[i] && a in tables[i][s]) ==>
              |values| == |tables| && forall i :: 0 <= i < |tables| ==> values[i] == tables[i][s][a]
    ensures (forall i :: 0 <= i < |tables| ==> !(s in tables[i] && a in tables[i][s])) ==> values == []
    ensures forall v :: v in values ==> exists i :: 0 <= i < |tables| && s in tables[i] && a in tables[i][s]
                                                 && tables[i][s][a] == v
    decreases |tables|
  {
    if tables == [] then []
    else
      var rest := PresentValues(tables[1..], s, a);
      assert forall i :: 1 <= i < |tables| ==> tables[1..][i - 1] == tables[i];
      if s in tables[0] && a in tables[0][s] then [tables[0][s][a]] + rest else rest
  }

  /** Table `t` has a value for action `a` in state `s`. */
  predicate HoldsEntry(t: QTable, s: Pos, a: Delta) {
    s in t && a in t[s]
  }

  /** The positions, from `from` on and in increasing order, of the tables that hold the
      entry `[s][a]`: exactly those, each once. */
  function Holders(tables: seq<QTable>, s: Pos, a: Delta, from: nat): (idx: seq<nat>)
    requires from <= |tables|
    ensures forall k :: 0 <= k < |idx| ==> from <= idx[k] < |tables| && HoldsEntry(tables[idx[k]], s, a)
    ensures forall k, l :: 0 <= k < l < |idx| ==> idx[k] < idx[l]
    ensures forall i :: from <= i < |tables| && HoldsEntry(tables[i], s, a) ==> i in idx
    decreases |tables| - from
  {
    if from == |tables| then []
    else
      var rest := Holders(tables, s, a, from + 1);
      if HoldsEntry(tables[from], s, a) then [from] + rest else rest
  }

  /** The present values are the values of the holding tables, one per holder, in table order;
      so `values` is the list main.py builds whichever elites hold the entry. */
  lemma PresentValuesOfHolders(tables: seq<QTable>, s: Pos, a: Delta)
    ensures var values := PresentValues(tables, s, a);
            var idx := Holders(tables, s, a, 0);
            |values| == |idx| && forall k :: 0 <= k < |idx| ==> values[k] == tables[idx[k]][s][a]
  {
    assert tables[0..] == tables;
    PresentValuesFrom(tables, s, a, 0);
  }

  lemma {:induction false} PresentValuesFrom(tables: seq<QTable>, s: Pos, a: Delta, from: nat)
    requires from <= |tables|
    ensures var values := PresentValues(tables[from..], s, a);
            var idx := Holders(tables, s, a, from);
            |values| == |idx| && forall k :: 0 <= k < |idx| ==> values[k] == tables[idx[k]][s][a]
    decreases |tables| - from
  {
    if from < |tables| {
      var t := tables[from..];
      assert t[1..] == tables[from + 1..];
      PresentValuesFrom(tables, s, a, from + 1);
      var rest := PresentValues(tables[from + 1..], s, a);
      var restIdx := Holders(tables, s, a, from + 1);
      var values := PresentValues(t, s, a);
      var idx := Holders(tables, s, a, from);
      if HoldsEntry(tables[from], s, a) {
        assert values == [tables[from][s][a]] + rest;
        assert idx == [from] + restIdx;
        forall k | 0 <= k < |idx| ensures values[k] == tables[idx[k]][s][a] {
          if k > 0 {
            assert values[k] == rest[k - 1] && idx[k] == restIdx[k - 1];
          }
        }
      } else {
        assert values == rest;
        assert idx == restIdx;
      }
    }
  }

  function Sum(values: seq<real>): real
    decreases |values|
  {
    if values == [] then 0.0 else values[0] + Sum(values[1..])
  }

  /** `new_Q[state][action]`: the mean of the present values, or 0.0 when no table has the entry. */
  function AveragedValue(tables: seq<QTable>, s: Pos, a: Delta): (r: real)
    ensures PresentValues(tables, s, a) == [] ==> r == 0.0
    ensures var values := PresentValues(tables, s, a);
            values != [] ==> r * |values| as real == Sum(values)
  {
    var values := PresentValues(tables, s, a);
    if values != [] then Sum(values) / |values| as real else 0.0
  }

  /** A sum of values that all lie in `[lo, hi]` lies between `n * lo` and `n * hi`. */
  lemma {:induction false} SumBounds(values: seq<real>, lo: real, hi: real)
    requires forall v :: v in values ==> lo <= v <= hi
    ensures |values| as real * lo <= Sum(values) <= |values| as real * hi
    decreases |values|
  {
    if values != [] {
      assert values[0] in values;
      assert forall v :: v in values[1..] ==> v in values;
      var tail := values[1..];
      SumBounds(tail, lo, hi);
      var n := |values| as real;
      var m := |tail| as real;
      assert m == n - 1.0;
      assert Sum(values) == values[0] + Sum(tail);
      MulPred(n, lo);
      MulPred(n, hi);
    }
  }

  lemma MulPred(n: real, x: real)
    ensures n * x == (n - 1.0) * x + x
  {
  }

  /** An averaged entry lies between the smallest and the largest value the elites hold for
      it (and is 0.0 when none holds it). */
  lemma AveragedValueWithinBounds(tables: seq<QTable>, s: Pos, a: Delta, lo: real, hi: real)
    requires forall i :: 0 <= i < |tables| && s in tables[i] && a in tables[i][s] ==>
               lo <= tables[i][s][a] <= hi
    ensures PresentValues(tables, s, a) != [] ==> lo <= AveragedValue(tables, s, a) <= hi
    ensures PresentValues(tables, s, a) == [] ==> AveragedValue(tables, s, a) == 0.0
  {
    var values := PresentValues(tables, s, a);
    if values != [] {
      SumBounds(values, lo, hi);
      var n := |values| as real;
      DivideBounds(Sum(values), n, lo, hi);
    }
  }

  lemma DivideBounds(total: real, n: real, lo: real, hi: real)
    requires n > 0.0 && n * lo <= total <= n * hi
    ensures lo <= total / n <= hi
  {
    assert (n * lo) / n == lo && (n * hi) / n == hi;
  }

  /** When all three elites hold an entry, the averaged entry is their arithmetic mean. */
  lemma AveragedValueOfThree(tables: seq<QTable>, s: Pos, a: Delta)
    requires |tables| == 3
    requires forall i :: 0 <= i < 3 ==> s in tables[i] && a in tables[i][s]
    ensures AveragedValue(tables, s, a) == (tables[0][s][a] + tables[1][s][a] + tables[2][s][a]) / 3.0
  {
    var values := PresentValues(tables, s, a);
    var x, y, z := tables[0][s][a], tables[1][s][a], tables[2][s][a];
    assert values == [x, y, z];
    assert Sum([z]) == z;
    assert [y, z][1..] == [z];
    assert Sum([y, z]) == y + z;
    assert [x, y, z][1..] == [y, z];
    assert Sum(values) == x + y + z;
  }

  /** With only the first and the last of three elites holding the entry, the result is the
      mean of their two values. */
  lemma AveragedValueOfFirstAndLast(tables: seq<QTable>, s: Pos, a: Delta)
    requires |tables| == 3
    requires HoldsEntry(tables[0], s, a) && !HoldsEntry(tables[1], s, a) && HoldsEntry(tables[2], s, a)
    ensures AveragedValue(tables, s, a) == (tables[0][s][a] + tables[2][s][a]) / 2.0
  {
    var values := PresentValues(tables, s, a);
    var x, z := tables[0][s][a], tables[2][s][a];
    PresentValuesOfHolders(tables, s, a);
    var idx := Holders(tables, s, a, 0);
    assert 0 in idx && 2 in idx && 1 !in idx;
    assert idx == [0, 2];
    assert values == [x, z];
    assert Sum([z]) == z;
    assert [x, z][1..] == [z];
    assert Sum(values) == x + z;
  }

  /** One row of the averaged table: every one of the four actions, averaged. */
  function AveragedRow(tables: seq<QTable>, s: Pos): (row: ActionValues)
    ensures row.Keys == MoveSet
  {
    map a | a in MoveSet :: AveragedValue(tables, s, a)
  }

  /** The averaging loops of main.py: the states are the union of the elites' states, each
      gets exactly the four actions, and each entry is `AveragedValue`. */
  method AverageTables(elite: seq<QTable>) returns (newQ: QTable)
    ensures forall s :: s in newQ <==> exists i :: 0 <= i < |elite| && s in elite[i]
    ensures forall s :: s in newQ ==> newQ[s].Keys == MoveSet
    ensures forall s, a :: s in newQ && a in MoveSet ==> newQ[s][a] == AveragedValue(elite, s, a)
  {
    var allStates: set<Pos> := {};
    var i := 0;
    while i < |elite|
      invariant 0 <= i <= |elite|
      invariant allStates == StatesOf(elite[..i])
    {
      assert elite[..i + 1][..i] == elite[..i];
      allStates := allStates + elite[i].Keys;
      i := i + 1;
    }
    assert elite[..|elite|] == elite;
    newQ := map[];
    var todo := allStates;
    while todo != {}
      invariant todo <= allStates
      invariant newQ.Keys == allStates - todo
      invariant forall s :: s in newQ ==> newQ[s] == AveragedRow(elite, s)
      decreases todo
    {
      var state :| state in todo;
      var row := AverageRow(elite, state);
      newQ := newQ[state := row];
      todo := todo - {state};
    }
  }

  /** The inner `for action in [...]` loop for one state. */
  method AverageRow(elite: seq<QTable>, state: Pos) returns (row: ActionValues)
    ensures row == AveragedRow(elite, state)
  {
    row := map[];
    var actions := Moves;
    var j := 0;
    while j < |actions|
      invariant 0 <= j <= |actions|
      invariant forall a :: a in row <==> a in actions[..j]
      invariant forall a :: a in row ==> row[a] == AveragedValue(elite, state, a)
    {
      var action := actions[j];
      var values := PresentValues(elite, state, action);
      assert actions[..j + 1] == actions[..j] + [action];
      if values != [] {
        row := row[action := Sum(values) / |values| as real];
      } else {
        row := row[action := 0.0];
      }
      j := j + 1;
    }
    assert actions[..j] == Moves;
    assert forall a :: a in Moves <==> a in MoveSet;
  }

  /** `min(1.0, epsilon + 0.1)`: raises exploration by 0.1 without going past 1. */
  function BoostedEpsilon(epsilon: real): (r: real)
    ensures r <= 1.0
    ensures r == 1.0 || r == epsilon + 0.1
    ensures epsilon <= 0.9 ==> r == epsilon + 0.1
    ensures epsilon <= 1.0 ==> r >= epsilon
  {
    if 1.0 <= epsilon + 0.1 then 1.0 else epsilon + 0.1
  }
}
