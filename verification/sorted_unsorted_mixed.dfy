/** src/article1_extension.cpp: an unsorted and a sorted `std::vector` leaf
    under the mixed read/write driver. The unsorted leaf appends and scans;
    the sorted leaf inserts at `lower_bound` and searches with it. Each
    insert adds a fixed charge to the meter; searches charge nothing. */
module SortedUnsortedMixed {
  import opened Keys
  import opened Meter
  import opened Leaves
  import opened Workload
  import opened VectorLeaf
  import Algorithms

  /** Keys inserted before the timed loop. */
  const PREFILL := 5000
  /** Operations of the timed loop. */
  const OPS := 100000

  /** `UnsortedLeaf`: `push_back`, charging one write, flush and fence. */
  const UnsortedLeaf := Policy(false, Stats(1, 1, 1))
  /** `SortedLeaf`: insert at `lower_bound`, charging four writes, two
      flushes and one fence. */
  const SortedLeaf := Policy(true, Stats(4, 2, 1))

  /** `UnsortedLeaf::insert` appends the key after every earlier one and
      charges (1, 1, 1). */
  lemma UnsortedAppends(st: State, k: Key)
    ensures Insert(UnsortedLeaf, st, k).leaf.keys == st.leaf.keys + [k]
    ensures Insert(UnsortedLeaf, st, k).stats == Add(st.stats, Stats(1, 1, 1))
  {
  }

  /** `SortedLeaf::insert` adds exactly the key, keeps a sorted leaf sorted
      and charges (4, 2, 1). */
  lemma SortedInserts(st: State, k: Key)
    ensures Extends(true, st.leaf, Insert(SortedLeaf, st, k).leaf, [k])
    ensures Insert(SortedLeaf, st, k).stats == Add(st.stats, Stats(4, 2, 1))
  {
    InsertExtends(SortedLeaf, st, k);
  }

  /** The two leaves hold the same keys after the same insert, and the
      sorted one costs at least as much on every counter. */
  lemma SortedCostsAtLeastUnsorted(st: State, k: Key)
    ensures multiset(Insert(UnsortedLeaf, st, k).leaf.keys) == multiset(Insert(SortedLeaf, st, k).leaf.keys)
    ensures Le(Insert(UnsortedLeaf, st, k).stats, Insert(SortedLeaf, st, k).stats)
  {
    InsertExtends(UnsortedLeaf, st, k);
    InsertExtends(SortedLeaf, st, k);
  }

  /** `UnsortedLeaf::search`: a linear scan; the meter is not touched. */
  method UnsortedSearch(leaf: Leaf, k: Key) returns (found: bool)
    ensures found <==> k in leaf.keys
  {
    found := Algorithms.LinearSearch(leaf.keys, k);
  }

  /** Neither leaf has a capacity: after a run, each holds one key per
      prefill key and write operation; the unsorted one holds them in
      arrival order, the sorted one the same keys in key order. */
  lemma {:induction false} MixedContents(prefill: seq<Key>, ops: seq<Op>)
    ensures RunMixed(UnsortedLeaf, prefill, ops).leaf.keys == prefill + WriteKeys(ops)
    ensures var keys := RunMixed(SortedLeaf, prefill, ops).leaf.keys;
      && Sorted(keys)
      && multiset(keys) == multiset(prefill + WriteKeys(ops))
      && |keys| == |prefill| + |WriteKeys(ops)|
  {
    MixedKeys(UnsortedLeaf, prefill, ops);
    MixedKeys(SortedLeaf, prefill, ops);
    assert Sorted(Start.leaf.keys);
  }

  /** `run_mixed_workload(5000, 100000, ratio)`: with `w` operations drawn
      as writes, the unsorted leaf ends at (n, n, n) and the sorted leaf at
      (4n, 2n, n) for `n = 5000 + w`, and `w` is at most 100000. */
  lemma MixedCounters(prefill: seq<Key>, ops: seq<Op>)
    requires |prefill| == PREFILL && |ops| == OPS
    ensures var n := PREFILL + |WriteKeys(ops)|;
      && n <= PREFILL + OPS
      && RunMixed(UnsortedLeaf, prefill, ops).stats == Stats(n, n, n)
      && RunMixed(SortedLeaf, prefill, ops).stats == Stats(4 * n, 2 * n, n)
  {
    var n := |prefill| + |WriteKeys(ops)|;
    MixedClosedForm(UnsortedLeaf, prefill, ops, n);
    MixedClosedForm(SortedLeaf, prefill, ops, n);
  }

  /** With write ratio 0.0 every operation is a search: only the prefill is
      charged. */
  lemma ReadOnlyCounters(prefill: seq<Key>, ops: seq<Op>)
    requires |prefill| == PREFILL
    requires forall i :: 0 <= i < |ops| ==> !ops[i].isWrite
    ensures RunMixed(UnsortedLeaf, prefill, ops).stats == Stats(5000, 5000, 5000)
    ensures RunMixed(SortedLeaf, prefill, ops).stats == Stats(20000, 10000, 5000)
  {
    var n := |prefill| + |WriteKeys(ops)|;
    assert n == 5000;
    MixedClosedForm(UnsortedLeaf, prefill, ops, n);
    MixedClosedForm(SortedLeaf, prefill, ops, n);
  }

  /** Over any whole run the sorted leaf costs at least as much as the
      unsorted one on every counter. */
  lemma MixedSortedCostsMore(prefill: seq<Key>, ops: seq<Op>)
    ensures Le(RunMixed(UnsortedLeaf, prefill, ops).stats, RunMixed(SortedLeaf, prefill, ops).stats)
  {
    MixedCostOrder(UnsortedLeaf, SortedLeaf, prefill, ops);
  }
}
