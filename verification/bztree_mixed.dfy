/** src/article3_extension.cpp: a BzTree-style sorted `std::vector` leaf
    and a simple sorted leaf under the mixed read/write driver. Both insert
    at `lower_bound` and search with it; the BzTree leaf charges fewer
    writes but more flushes and fences per insert. Its charge (3, 3, 2) is
    the one this file hard-codes, not the (4, 2, 2) the PMwCAS model of
    `BzTree` derives. */
module BzTreeMixed {
  import opened Keys
  import opened Meter
  import opened Leaves
  import opened Workload
  import opened VectorLeaf

  /** Keys inserted before the timed loop. */
  const PREFILL := 5000
  /** Operations of the timed loop. */
  const OPS := 100000

  /** `BzLeaf`: (3, 3, 2) per insert. */
  const BzLeaf := Policy(true, Stats(3, 3, 2))
  /** `SimpleLeaf`: (4, 2, 1) per insert. */
  const SimpleLeaf := Policy(true, Stats(4, 2, 1))

  /** Both inserts add exactly the key, keep a sorted leaf sorted, build the
      same leaf, and charge their own fixed cost. */
  lemma InsertsKeepOrder(st: State, k: Key)
    ensures Extends(true, st.leaf, Insert(BzLeaf, st, k).leaf, [k])
    ensures Insert(SimpleLeaf, st, k).leaf == Insert(BzLeaf, st, k).leaf
    ensures Insert(BzLeaf, st, k).stats == Add(st.stats, Stats(3, 3, 2))
    ensures Insert(SimpleLeaf, st, k).stats == Add(st.stats, Stats(4, 2, 1))
  {
    InsertExtends(BzLeaf, st, k);
  }

  /** Per insert the BzTree leaf writes strictly less but flushes and
      fences strictly more than the simple leaf. */
  lemma InsertCostTradeOff(st: State, k: Key)
    ensures Insert(BzLeaf, st, k).stats.nw < Insert(SimpleLeaf, st, k).stats.nw
    ensures Insert(BzLeaf, st, k).stats.nclf > Insert(SimpleLeaf, st, k).stats.nclf
    ensures Insert(BzLeaf, st, k).stats.nmf > Insert(SimpleLeaf, st, k).stats.nmf
  {
  }

  /** After any run both leaves are the same sorted sequence of the prefill
      keys and the written keys, one entry per insert. */
  lemma {:induction false} MixedContents(prefill: seq<Key>, ops: seq<Op>)
    ensures var keys := RunMixed(BzLeaf, prefill, ops).leaf.keys;
      && Sorted(keys)
      && multiset(keys) == multiset(prefill + WriteKeys(ops))
      && |keys| == |prefill| + |WriteKeys(ops)|
    ensures RunMixed(SimpleLeaf, prefill, ops).leaf == RunMixed(BzLeaf, prefill, ops).leaf
  {
    MixedKeys(BzLeaf, prefill, ops);
    assert Sorted(Start.leaf.keys);
    MixedSameLeaf(SimpleLeaf, BzLeaf, prefill, ops);
  }

  /** `run_mixed_workload(5000, 100000, ratio)`: with `w` operations drawn
      as writes and `n = 5000 + w`, the BzTree leaf ends at (3n, 3n, 2n)
      and the simple leaf at (4n, 2n, n); so the BzTree leaf writes `n`
      words less and flushes `n` lines and fences `n` times more. */
  lemma MixedCounters(prefill: seq<Key>, ops: seq<Op>)
    requires |prefill| == PREFILL && |ops| == OPS
    ensures var n := PREFILL + |WriteKeys(ops)|;
      && n <= PREFILL + OPS
      && RunMixed(BzLeaf, prefill, ops).stats == Stats(3 * n, 3 * n, 2 * n)
      && RunMixed(SimpleLeaf, prefill, ops).stats == Stats(4 * n, 2 * n, n)
    ensures var bz := RunMixed(BzLeaf, prefill, ops).stats;
      var simple := RunMixed(SimpleLeaf, prefill, ops).stats;
      bz.nw < simple.nw && bz.nclf > simple.nclf && bz.nmf > simple.nmf
  {
    var n := |prefill| + |WriteKeys(ops)|;
    MixedClosedForm(BzLeaf, prefill, ops, n);
    MixedClosedForm(SimpleLeaf, prefill, ops, n);
  }
}
