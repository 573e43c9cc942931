/** src/article2_extension.cpp: three sorted `std::vector` leaves under the
    mixed read/write driver. All three insert at `lower_bound` and search
    with it; they differ only in the fixed charge of an insert: the
    in-place baseline, the logging leaf that adds log writes on top of it,
    and the wB+-tree leaf that uses indirection to write less. */
module WbTreeMixed {
  import opened Keys
  import opened Meter
  import opened Leaves
  import opened Workload
  import opened VectorLeaf

  /** Keys inserted before the timed loop. */
  const PREFILL := 5000
  /** Operations of the timed loop. */
  const OPS := 100000

  /** `LeafBaseline`: (4, 2, 1) per insert. */
  const Baseline := Policy(true, Stats(4, 2, 1))
  /** `LeafLogging`: (8, 4, 2) per insert. */
  const Logging := Policy(true, Stats(8, 4, 2))
  /** `LeafWBTree`: (2, 1, 1) per insert. */
  const WbLeaf := Policy(true, Stats(2, 1, 1))

  /** Every insert of the three leaves adds exactly the key and keeps a
      sorted leaf sorted; it charges the leaf's own fixed cost. */
  lemma InsertsKeepOrder(st: State, k: Key)
    ensures Extends(true, st.leaf, Insert(Baseline, st, k).leaf, [k])
    ensures Insert(Baseline, st, k).stats == Add(st.stats, Stats(4, 2, 1))
    ensures Insert(Logging, st, k).stats == Add(st.stats, Stats(8, 4, 2))
    ensures Insert(WbLeaf, st, k).stats == Add(st.stats, Stats(2, 1, 1))
  {
    InsertExtends(Baseline, st, k);
  }

  /** The logging leaf and the wB+-tree leaf build exactly the leaf the
      baseline builds from the same key. */
  lemma SameLeafAsBaseline(st: State, k: Key)
    ensures Insert(Logging, st, k).leaf == Insert(Baseline, st, k).leaf
    ensures Insert(WbLeaf, st, k).leaf == Insert(Baseline, st, k).leaf
  {
  }

  /** Per insert, on every counter: wB+-tree <= baseline <= logging, and
      logging is strictly dearest on every counter. */
  lemma InsertCostOrder(st: State, k: Key)
    ensures Le(Insert(WbLeaf, st, k).stats, Insert(Baseline, st, k).stats)
    ensures Le(Insert(Baseline, st, k).stats, Insert(Logging, st, k).stats)
    ensures Insert(Baseline, st, k).stats.nw < Insert(Logging, st, k).stats.nw
    ensures Insert(Baseline, st, k).stats.nclf < Insert(Logging, st, k).stats.nclf
    ensures Insert(Baseline, st, k).stats.nmf < Insert(Logging, st, k).stats.nmf
  {
  }

  /** After any run the three leaves are the same sorted sequence of the
      prefill keys and the written keys. */
  lemma {:induction false} MixedContents(prefill: seq<Key>, ops: seq<Op>)
    ensures var keys := RunMixed(Baseline, prefill, ops).leaf.keys;
      && Sorted(keys)
      && multiset(keys) == multiset(prefill + WriteKeys(ops))
    ensures RunMixed(Logging, prefill, ops).leaf == RunMixed(Baseline, prefill, ops).leaf
    ensures RunMixed(WbLeaf, prefill, ops).leaf == RunMixed(Baseline, prefill, ops).leaf
  {
    MixedKeys(Baseline, prefill, ops);
    assert Sorted(Start.leaf.keys);
    MixedSameLeaf(Logging, Baseline, prefill, ops);
    MixedSameLeaf(WbLeaf, Baseline, prefill, ops);
  }

  /** Over any whole run: wB+-tree <= baseline <= logging on every counter. */
  lemma MixedCostChain(prefill: seq<Key>, ops: seq<Op>)
    ensures Le(RunMixed(WbLeaf, prefill, ops).stats, RunMixed(Baseline, prefill, ops).stats)
    ensures Le(RunMixed(Baseline, prefill, ops).stats, RunMixed(Logging, prefill, ops).stats)
  {
    MixedCostOrder(WbLeaf, Baseline, prefill, ops);
    MixedCostOrder(Baseline, Logging, prefill, ops);
  }

  /** `run_mixed_workload(5000, 100000, ratio)`: with `w` operations drawn
      as writes and `n = 5000 + w`, the baseline ends at (4n, 2n, n), the
      logging leaf at (8n, 4n, 2n) and the wB+-tree leaf at (2n, n, n). */
  lemma MixedCounters(prefill: seq<Key>, ops: seq<Op>)
    requires |prefill| == PREFILL && |ops| == OPS
    ensures var n := PREFILL + |WriteKeys(ops)|;
      && n <= PREFILL + OPS
      && RunMixed(Baseline, prefill, ops).stats == Stats(4 * n, 2 * n, n)
      && RunMixed(Logging, prefill, ops).stats == Stats(8 * n, 4 * n, 2 * n)
      && RunMixed(WbLeaf, prefill, ops).stats == Stats(2 * n, n, n)
  {
    var n := |prefill| + |WriteKeys(ops)|;
    MixedClosedForm(Baseline, prefill, ops, n);
    MixedClosedForm(Logging, prefill, ops, n);
    MixedClosedForm(WbLeaf, prefill, ops, n);
  }
}
