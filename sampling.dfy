/** What `random.sample(population, k)` guarantees, without its distribution: some `k`
    distinct members of the population. */
module Sampling {
  /** A subset of every size up to the size of the set exists. */
  lemma {:induction false} SubsetOfSize<T>(s: set<T>, k: nat) returns (t: set<T>)
    requires k <= |s|
    ensures t <= s && |t| == k
    decreases k
  {
    if k == 0 {
      t := {};
    } else {
      var x :| x in s;
      var rest := SubsetOfSize(s - {x}, k - 1);
      t := rest + {x};
    }
  }
}
