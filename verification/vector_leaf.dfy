/** The unbounded `std::vector` leaves of the mixed-workload extensions and
    the templated `run_mixed_workload` driver they share. A leaf of this
    kind is fixed by two choices: whether `insert` keeps the keys sorted
    (`lower_bound` + `vector::insert`) or appends (`push_back`), and the
    constant charge it adds to the meter per insert. `search` never writes. */
module VectorLeaf {
  import opened Keys
  import opened Meter
  import opened Leaves
  import opened Workload
  import Algorithms

  /** How one vector leaf variant inserts and what each insert costs. */
  datatype Policy = Policy(sorted: bool, cost: Stats)

  /** One `insert`: place the key, then add the variant's fixed charge. */
  function Insert(p: Policy, st: State, k: Key): State
  {
    var keys := if p.sorted then SortedInsert(st.leaf.keys, k) else st.leaf.keys + [k];
    State(Leaf(keys), Add(st.stats, p.cost))
  }

  /** `search` of every sorted vector leaf: `lower_bound`, then compare;
      the meter is not touched. Every sorted leaf the driver builds is
      sorted (the `MixedContents` lemmas). */
  method Search(leaf: Leaf, k: Key) returns (found: bool)
    requires Sorted(leaf.keys)
    ensures found <==> k in leaf.keys
  {
    found := Algorithms.SortedContains(leaf.keys, k);
  }

  /** One operation of the timed loop: an insert for a write, otherwise a
      search whose answer is discarded and which touches neither the leaf
      nor the counters. */
  function Step(p: Policy, st: State, op: Op): State
  {
    if op.isWrite then Insert(p, st, op.key) else st
  }

  /** The prefill loop: insert every key in order. */
  function InsertAll(p: Policy, st: State, keys: seq<Key>): State
    decreases |keys|
  {
    if |keys| == 0 then st else InsertAll(p, Insert(p, st, keys[0]), keys[1..])
  }

  /** The timed loop over the operation stream. */
  function RunOps(p: Policy, st: State, ops: seq<Op>): State
    decreases |ops|
  {
    if |ops| == 0 then st else RunOps(p, Step(p, st, ops[0]), ops[1..])
  }

  /** `run_mixed_workload`: a fresh leaf and meter, the prefill, then the
      operation stream; the result is the final leaf and counters. */
  function RunMixed(p: Policy, prefill: seq<Key>, ops: seq<Op>): State
  {
    RunOps(p, InsertAll(p, Start, prefill), ops)
  }

  /** One insert adds exactly its key. */
  lemma InsertExtends(p: Policy, st: State, k: Key)
    ensures Extends(p.sorted, st.leaf, Insert(p, st, k).leaf, [k])
  {
  }

  /** Inserting `keys` charges the per-insert cost once per key. */
  lemma {:induction false} InsertAllStats(p: Policy, st: State, keys: seq<Key>)
    ensures InsertAll(p, st, keys).stats == Add(st.stats, Times(p.cost, |keys|))
    decreases |keys|
  {
    if |keys| > 0 {
      var st' := Insert(p, st, keys[0]);
      InsertAllStats(p, st', keys[1..]);
      AddAssociates(st.stats, p.cost, Times(p.cost, |keys| - 1));
    }
  }

  /** One insert in front of a run whose keys are known. */
  lemma InsertKeysStep(p: Policy, st: State, k: Key, rest: seq<Key>)
    requires Extends(p.sorted, Insert(p, st, k).leaf, InsertAll(p, Insert(p, st, k), rest).leaf, rest)
    ensures Extends(p.sorted, st.leaf, InsertAll(p, Insert(p, st, k), rest).leaf, [k] + rest)
  {
    InsertExtends(p, st, k);
    ExtendsChain(p.sorted, st.leaf, Insert(p, st, k).leaf, InsertAll(p, Insert(p, st, k), rest).leaf, [k], rest);
  }

  /** Inserting `keys` grows the leaf by exactly those keys. */
  lemma {:induction false} InsertAllKeys(p: Policy, st: State, keys: seq<Key>)
    ensures Extends(p.sorted, st.leaf, InsertAll(p, st, keys).leaf, keys)
    decreases |keys|
  {
    if |keys| == 0 {
      assert InsertAll(p, st, keys) == st;
    } else {
      InsertAllKeys(p, Insert(p, st, keys[0]), keys[1..]);
      InsertKeysStep(p, st, keys[0], keys[1..]);
      assert [keys[0]] + keys[1..] == keys;
      assert InsertAll(p, st, keys) == InsertAll(p, Insert(p, st, keys[0]), keys[1..]);
    }
  }

  /** Only writes are charged: the operation stream costs the per-insert
      cost once per write operation. */
  lemma {:induction false} RunOpsStats(p: Policy, st: State, ops: seq<Op>)
    ensures RunOps(p, st, ops).stats == Add(st.stats, Times(p.cost, |WriteKeys(ops)|))
    decreases |ops|
  {
    if |ops| > 0 {
      var st' := Step(p, st, ops[0]);
      RunOpsStats(p, st', ops[1..]);
      if ops[0].isWrite {
        assert |WriteKeys(ops)| == 1 + |WriteKeys(ops[1..])|;
        AddAssociates(st.stats, p.cost, Times(p.cost, |WriteKeys(ops[1..])|));
      } else {
        assert WriteKeys(ops) == WriteKeys(ops[1..]);
      }
    }
  }

  /** Only writes change the leaf: the operation stream adds exactly the
      written keys. */
  lemma {:induction false} RunOpsKeys(p: Policy, st: State, ops: seq<Op>)
    ensures Extends(p.sorted, st.leaf, RunOps(p, st, ops).leaf, WriteKeys(ops))
    decreases |ops|
  {
    if |ops| == 0 {
      assert RunOps(p, st, ops) == st;
    } else {
      var st' := Step(p, st, ops[0]);
      var fin := RunOps(p, st', ops[1..]);
      RunOpsKeys(p, st', ops[1..]);
      assert RunOps(p, st, ops) == fin;
      if ops[0].isWrite {
        assert WriteKeys(ops) == [ops[0].key] + WriteKeys(ops[1..]);
        InsertExtends(p, st, ops[0].key);
        ExtendsChain(p.sorted, st.leaf, st'.leaf, fin.leaf, [ops[0].key], WriteKeys(ops[1..]));
      } else {
        assert WriteKeys(ops) == WriteKeys(ops[1..]);
      }
    }
  }

  /** The prefill charges the per-insert cost once per key. */
  lemma PrefillStats(p: Policy, prefill: seq<Key>)
    ensures InsertAll(p, Start, prefill).stats == Times(p.cost, |prefill|)
  {
    InsertAllStats(p, Start, prefill);
  }

  /** Final counters of a mixed run are the per-insert cost times the number
      of prefill keys plus write operations; searches contribute nothing. */
  lemma {:induction false} MixedStats(p: Policy, prefill: seq<Key>, ops: seq<Op>)
    ensures RunMixed(p, prefill, ops).stats == Times(p.cost, |prefill| + |WriteKeys(ops)|)
  {
    var mid := InsertAll(p, Start, prefill);
    var w := |WriteKeys(ops)|;
    PrefillStats(p, prefill);
    RunOpsStats(p, mid, ops);
    TimesSplit(p.cost, |prefill|, w);
    assert RunMixed(p, prefill, ops).stats == Add(Times(p.cost, |prefill|), Times(p.cost, w));
  }

  /** The final leaf of a mixed run holds exactly the prefill keys and the
      written keys. */
  lemma {:induction false} MixedKeys(p: Policy, prefill: seq<Key>, ops: seq<Op>)
    ensures Extends(p.sorted, Start.leaf, RunMixed(p, prefill, ops).leaf, prefill + WriteKeys(ops))
  {
    var mid := InsertAll(p, Start, prefill);
    var fin := RunMixed(p, prefill, ops);
    InsertAllKeys(p, Start, prefill);
    RunOpsKeys(p, mid, ops);
    assert fin == RunOps(p, mid, ops);
    ExtendsChain(p.sorted, Start.leaf, mid.leaf, fin.leaf, prefill, WriteKeys(ops));
  }

  /** The leaf does not depend on what an insert charges: two policies that
      place keys the same way build the same leaf from the same keys. */
  lemma {:induction false} InsertAllSameLeaf(p: Policy, q: Policy, st: State, st': State, keys: seq<Key>)
    requires p.sorted == q.sorted && st.leaf == st'.leaf
    ensures InsertAll(p, st, keys).leaf == InsertAll(q, st', keys).leaf
    decreases |keys|
  {
    if |keys| > 0 {
      InsertAllSameLeaf(p, q, Insert(p, st, keys[0]), Insert(q, st', keys[0]), keys[1..]);
    }
  }

  /** The same for the operation stream. */
  lemma {:induction false} RunOpsSameLeaf(p: Policy, q: Policy, st: State, st': State, ops: seq<Op>)
    requires p.sorted == q.sorted && st.leaf == st'.leaf
    ensures RunOps(p, st, ops).leaf == RunOps(q, st', ops).leaf
    decreases |ops|
  {
    if |ops| > 0 {
      RunOpsSameLeaf(p, q, Step(p, st, ops[0]), Step(q, st', ops[0]), ops[1..]);
    }
  }

  /** Two policies that place keys the same way end a mixed run with the
      same leaf, whatever they charge. */
  lemma {:induction false} MixedSameLeaf(p: Policy, q: Policy, prefill: seq<Key>, ops: seq<Op>)
    requires p.sorted == q.sorted
    ensures RunMixed(p, prefill, ops).leaf == RunMixed(q, prefill, ops).leaf
  {
    InsertAllSameLeaf(p, q, Start, Start, prefill);
    RunOpsSameLeaf(p, q, InsertAll(p, Start, prefill), InsertAll(q, Start, prefill), ops);
  }

  /** A policy whose per-insert charge is no larger on every counter ends
      every mixed run with counters no larger than the other's. */
  lemma {:induction false} MixedCostOrder(p: Policy, q: Policy, prefill: seq<Key>, ops: seq<Op>)
    requires Le(p.cost, q.cost)
    ensures Le(RunMixed(p, prefill, ops).stats, RunMixed(q, prefill, ops).stats)
  {
    MixedStats(p, prefill, ops);
    MixedStats(q, prefill, ops);
    TimesMonotone(p.cost, q.cost, |prefill| + |WriteKeys(ops)|);
  }

  /** The final counters of a mixed run, counter by counter: the per-insert
      charge times the number of prefill keys and write operations. */
  lemma {:induction false} MixedClosedForm(p: Policy, prefill: seq<Key>, ops: seq<Op>, n: nat)
    requires n == |prefill| + |WriteKeys(ops)|
    ensures RunMixed(p, prefill, ops).stats == Scale(p.cost, n)
  {
    MixedStats(p, prefill, ops);
    TimesClosedForm(p.cost, n);
  }

  /** The leaf of a mixed run holds one key per prefill key and write
      operation: it has no capacity limit. */
  lemma {:induction false} MixedSize(p: Policy, prefill: seq<Key>, ops: seq<Op>)
    ensures RunMixed(p, prefill, ops).leaf.Count() == |prefill| + |WriteKeys(ops)|
  {
    MixedKeys(p, prefill, ops);
  }
}
