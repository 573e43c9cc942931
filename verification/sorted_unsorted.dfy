/** src/article1_sorted_unsorted.cpp: a 128-key array leaf filled either in
    key order (scan, shift the tail right, store) or in arrival order
    (append), a linear search, and the `SimpleBPlusTree` harness that routes
    each key to leaf `key % leaves.size()` and appends it there. The
    process-wide counters become an explicit `Stats` value that every
    insert is charged to. */
module SortedUnsorted {
  import opened Keys
  import opened Meter
  import opened Leaves
  import Algorithms

  /** Capacity of `LeafNode::keys`. */
  const LEAF_CAP := 128
  /** Leaves of the tree built by `main`. */
  const NUM_LEAVES := 64
  /** Keys inserted into the tree before the benchmarks. */
  const PREFILL := 200000
  /** Keys of each benchmark. */
  const BENCH_OPS := 50000
  /** Benchmark keys searched for afterwards. */
  const SAMPLE := 5000

  /** What every insert below capacity pays to store the new key: one
      write, one flush, one fence. The unsorted insert pays nothing else. */
  const StoreCharge := Stats(1, 1, 1)

  /** `insert_sorted`: ignored on a full leaf; otherwise one write per key
      shifted right, one for the new key, then a flush and a fence. */
  function InsertSorted(st: State, k: Key): (r: State)
    ensures st.leaf.Count() >= LEAF_CAP ==> r == st
    ensures st.leaf.Count() < LEAF_CAP ==>
      && r.leaf.Count() == st.leaf.Count() + 1
      && r.stats == Add(st.stats, Stats(st.leaf.Count() - InsertPos(st.leaf.keys, k) + 1, 1, 1))
  {
    var keys := st.leaf.keys;
    if |keys| >= LEAF_CAP then st
    else
      var shifted := Write(st.stats, |keys| - InsertPos(keys, k));
      State(Leaf(SortedInsert(keys, k)), Fence(Flush(Write(shifted, 1))))
  }

  /** Below capacity the sorted insert adds exactly `k`, keeps the leaf
      sorted, and puts `k` in front of the first key not less than it. */
  lemma InsertSortedExtends(st: State, k: Key)
    requires st.leaf.Count() < LEAF_CAP
    ensures Extends(true, st.leaf, InsertSorted(st, k).leaf, [k])
    ensures InsertSorted(st, k).leaf.keys[InsertPos(st.leaf.keys, k)] == k
  {
  }

  /** `insert_sorted` as the loops run it: the position scan and the tail
      shift of `Algorithms.ShiftInsert`, charging one write per iteration. */
  method InsertSortedInPlace(st: State, k: Key) returns (r: State)
    ensures r == InsertSorted(st, k)
  {
    if st.leaf.Count() >= LEAF_CAP {
      return st;
    }
    var keys, writes := Algorithms.ShiftInsert(st.leaf.keys, k);
    r := State(Leaf(keys), Fence(Flush(Write(st.stats, writes))));
  }

  /** `insert_unsorted`: ignored on a full leaf; otherwise the key is stored
      at slot `count`, then one write, one flush and one fence. */
  function InsertUnsorted(st: State, k: Key): (r: State)
    ensures st.leaf.Count() >= LEAF_CAP ==> r == st
    ensures st.leaf.Count() < LEAF_CAP ==>
      && Extends(false, st.leaf, r.leaf, [k])
      && r.stats == Add(st.stats, StoreCharge)
  {
    var keys := st.leaf.keys;
    if |keys| >= LEAF_CAP then st
    else State(Leaf(keys + [k]), Fence(Flush(Write(st.stats, 1))))
  }

  /** Both inserts take a leaf with room to the same keys, in a different
      order; the sorted one never costs less and costs strictly more writes
      whenever it has to shift. */
  lemma SortedCostsAtLeastUnsorted(st: State, k: Key)
    requires st.leaf.Count() < LEAF_CAP
    ensures multiset(InsertSorted(st, k).leaf.keys) == multiset(InsertUnsorted(st, k).leaf.keys)
    ensures Le(InsertUnsorted(st, k).stats, InsertSorted(st, k).stats)
    ensures InsertPos(st.leaf.keys, k) < st.leaf.Count() <==>
      InsertUnsorted(st, k).stats.nw < InsertSorted(st, k).stats.nw
  {
    InsertSortedExtends(st, k);
  }

  /** `search_leaf`: a linear scan of `keys[0..count)`. The counters are
      not touched, so they are not a parameter. */
  method SearchLeaf(leaf: Leaf, target: Key) returns (found: bool)
    ensures found <==> target in leaf.keys
  {
    found := Algorithms.LinearSearch(leaf.keys, target);
  }

  /** The sorted benchmark loop: every key in order into one leaf. */
  function InsertSortedAll(st: State, keys: seq<Key>): State
    decreases |keys|
  {
    if |keys| == 0 then st else InsertSortedAll(InsertSorted(st, keys[0]), keys[1..])
  }

  /** A full leaf ignores every further sorted insert. */
  lemma {:induction false} FullLeafIgnoresInserts(st: State, keys: seq<Key>)
    requires st.leaf.Count() >= LEAF_CAP
    ensures InsertSortedAll(st, keys) == st
    decreases |keys|
  {
    if |keys| > 0 {
      FullLeafIgnoresInserts(st, keys[1..]);
    }
  }

  /** One sorted insert below capacity in front of a run whose keys are known. */
  lemma InsertKeysStep(st: State, k: Key, rest: seq<Key>, added: seq<Key>)
    requires st.leaf.Count() < LEAF_CAP
    requires Extends(true, InsertSorted(st, k).leaf, InsertSortedAll(InsertSorted(st, k), rest).leaf, added)
    ensures Extends(true, st.leaf, InsertSortedAll(InsertSorted(st, k), rest).leaf, [k] + added)
  {
    InsertSortedExtends(st, k);
    ExtendsChain(true, st.leaf, InsertSorted(st, k).leaf, InsertSortedAll(InsertSorted(st, k), rest).leaf, [k], added);
  }

  /** An empty run, or any run on a full leaf, adds nothing. */
  lemma NoRoomKeys(st: State, keys: seq<Key>, c: nat, m: nat)
    requires c == st.leaf.Count() <= LEAF_CAP && m == Min(LEAF_CAP, c + |keys|)
    requires |keys| == 0 || c == LEAF_CAP
    ensures Extends(true, st.leaf, InsertSortedAll(st, keys).leaf, keys[..m - c])
  {
    if c == LEAF_CAP {
      FullLeafIgnoresInserts(st, keys);
    }
    assert keys[..m - c] == [];
    assert InsertSortedAll(st, keys) == st;
  }

  /** A run on a leaf with room: its first insert, then the rest of the run. */
  lemma {:induction false} RunKeysStep(st: State, keys: seq<Key>, c: nat, m: nat)
    requires c == st.leaf.Count() < LEAF_CAP && m == Min(LEAF_CAP, c + |keys|) && |keys| > 0
    requires Extends(true, InsertSorted(st, keys[0]).leaf,
                     InsertSortedAll(InsertSorted(st, keys[0]), keys[1..]).leaf, keys[1..][..m - (c + 1)])
    ensures Extends(true, st.leaf, InsertSortedAll(st, keys).leaf, keys[..m - c])
  {
    TakeCons(keys, m - c, m - (c + 1));
    InsertKeysStep(st, keys[0], keys[1..], keys[1..][..m - (c + 1)]);
    assert InsertSortedAll(st, keys) == InsertSortedAll(InsertSorted(st, keys[0]), keys[1..]);
  }

  /** A sorted run taking the leaf from fill level `c` to `m` adds exactly
      the first `m - c` keys of the run, keeps the leaf sorted and ignores
      the keys that no longer fit. */
  lemma {:induction false} SortedRunKeys(st: State, keys: seq<Key>, c: nat, m: nat)
    requires c == st.leaf.Count() <= LEAF_CAP && m == Min(LEAF_CAP, c + |keys|)
    ensures Extends(true, st.leaf, InsertSortedAll(st, keys).leaf, keys[..m - c])
    decreases |keys|
  {
    if |keys| == 0 || c == LEAF_CAP {
      NoRoomKeys(st, keys, c, m);
    } else {
      SortedRunKeys(InsertSorted(st, keys[0]), keys[1..], c + 1, m);
      RunKeysStep(st, keys, c, m);
    }
  }

  /** One sorted insert below capacity in front of a run whose cost is known. */
  lemma {:induction false} InsertCostStep(st: State, k: Key, rest: seq<Key>, c: nat, m: nat)
    requires c == st.leaf.Count() < LEAF_CAP && c < m
    requires RunCharge(StoreCharge, true, InsertSorted(st, k).stats, InsertSortedAll(InsertSorted(st, k), rest).stats, c + 1, m)
    ensures RunCharge(StoreCharge, true, st.stats, InsertSortedAll(InsertSorted(st, k), rest).stats, c, m)
  {
    RunChargeStep(StoreCharge, true, st.stats, InsertSorted(st, k).stats, InsertSortedAll(InsertSorted(st, k), rest).stats, c, m);
  }

  /** An empty run, or any run on a full leaf, charges nothing. */
  lemma NoRoomCost(st: State, keys: seq<Key>, c: nat, m: nat)
    requires c == st.leaf.Count() <= LEAF_CAP && m == Min(LEAF_CAP, c + |keys|)
    requires |keys| == 0 || c == LEAF_CAP
    ensures RunCharge(StoreCharge, true, st.stats, InsertSortedAll(st, keys).stats, c, m)
  {
    if c == LEAF_CAP {
      FullLeafIgnoresInserts(st, keys);
    }
    assert InsertSortedAll(st, keys) == st;
    RunChargeNone(StoreCharge, true, st.stats, c);
  }

  /** A run on a leaf with room: its first insert, then the rest of the run. */
  lemma {:induction false} RunCostStep(st: State, keys: seq<Key>, c: nat, m: nat)
    requires c == st.leaf.Count() < LEAF_CAP && m == Min(LEAF_CAP, c + |keys|) && |keys| > 0
    requires RunCharge(StoreCharge, true, InsertSorted(st, keys[0]).stats,
                       InsertSortedAll(InsertSorted(st, keys[0]), keys[1..]).stats, c + 1, m)
    ensures RunCharge(StoreCharge, true, st.stats, InsertSortedAll(st, keys).stats, c, m)
  {
    assert InsertSortedAll(st, keys) == InsertSortedAll(InsertSorted(st, keys[0]), keys[1..]);
    InsertCostStep(st, keys[0], keys[1..], c, m);
  }

  /** What a sorted run charges when it takes the leaf from fill level `c`
      to `m`: flushes and fences exactly, writes within the shift bounds. */
  lemma {:induction false} SortedRunCost(st: State, keys: seq<Key>, c: nat, m: nat)
    requires c == st.leaf.Count() <= LEAF_CAP && m == Min(LEAF_CAP, c + |keys|)
    ensures RunCharge(StoreCharge, true, st.stats, InsertSortedAll(st, keys).stats, c, m)
    decreases |keys|
  {
    if |keys| == 0 || c == LEAF_CAP {
      NoRoomCost(st, keys, c, m);
    } else {
      SortedRunCost(InsertSorted(st, keys[0]), keys[1..], c + 1, m);
      RunCostStep(st, keys, c, m);
    }
  }

  /** A sorted insert below capacity at a known position `p`: the keys
      before `p`, then `k`, then the rest, charged the shifts and the store. */
  lemma InsertSortedAt(st: State, k: Key, p: nat)
    requires st.leaf.Count() < LEAF_CAP && p == InsertPos(st.leaf.keys, k)
    ensures InsertSorted(st, k) == State(Leaf(st.leaf.keys[..p] + [k] + st.leaf.keys[p..]), Add(st.stats, Stats(st.leaf.Count() - p + 1, 1, 1)))
  {
  }

  /** `InsertSortedAll` of a non-empty run: the first insert, then the rest. */
  lemma InsertSortedAllStep(st: State, keys: seq<Key>)
    requires |keys| > 0
    ensures InsertSortedAll(st, keys) == InsertSortedAll(InsertSorted(st, keys[0]), keys[1..])
  {
  }

  /** The first key of the worked example goes into the empty leaf. */
  lemma ExampleFirst(st: State)
    requires st.leaf.keys == []
    ensures InsertSorted(st, 5) == State(Leaf([5]), Add(st.stats, Stats(1, 1, 1)))
  {
    InsertSortedAt(st, 5, 0);
    assert [] + [5] + [] == [5];
  }

  /** The second key shifts the one before it. */
  lemma ExampleSecond(st: State)
    requires st.leaf.keys == [5]
    ensures InsertSorted(st, 3) == State(Leaf([3, 5]), Add(st.stats, Stats(2, 1, 1)))
  {
    InsertPosUnique([5], 3, 0);
    InsertSortedAt(st, 3, 0);
    assert [5][..0] + [3] + [5][0..] == [3, 5];
  }

  /** The third key lands at the end and shifts nothing. */
  lemma ExampleThird(st: State)
    requires st.leaf.keys == [3, 5]
    ensures InsertSorted(st, 8) == State(Leaf([3, 5, 8]), Add(st.stats, Stats(1, 1, 1)))
  {
    InsertPosUnique([3, 5], 8, 2);
    InsertSortedAt(st, 8, 2);
    assert [3, 5][..2] + [8] + [3, 5][2..] == [3, 5, 8];
  }

  /** The fourth key shifts all three before it. */
  lemma ExampleFourth(st: State)
    requires st.leaf.keys == [3, 5, 8]
    ensures InsertSorted(st, 1) == State(Leaf([1, 3, 5, 8]), Add(st.stats, Stats(4, 1, 1)))
  {
    InsertPosUnique([3, 5, 8], 1, 0);
    InsertSortedAt(st, 1, 0);
    assert [3, 5, 8][..0] + [1] + [3, 5, 8][0..] == [1, 3, 5, 8];
  }

  /** The worked example: 5, 3, 8, 1 into an empty leaf shift 0, 1, 0 and 3
      keys, leaving [1, 3, 5, 8] and charging 8 writes, 4 flushes and 4
      fences on top of whatever the counters held; a search then finds 3
      and does not find 9. */
  lemma WorkedExample(s: Stats, keys: seq<Key>)
    requires |keys| == 4 && keys[0] == 5 && keys[1] == 3 && keys[2] == 8 && keys[3] == 1
    ensures InsertSortedAll(State(Leaf([]), s), keys) == State(Leaf([1, 3, 5, 8]), Add(s, Stats(8, 4, 4)))
    ensures 3 in InsertSortedAll(State(Leaf([]), s), keys).leaf.keys
    ensures 9 !in InsertSortedAll(State(Leaf([]), s), keys).leaf.keys
  {
    var s0 := State(Leaf([]), s);
    var s1 := InsertSorted(s0, keys[0]);
    ExampleFirst(s0);
    var s2 := InsertSorted(s1, keys[1]);
    ExampleSecond(s1);
    var s3 := InsertSorted(s2, keys[2]);
    ExampleThird(s2);
    var s4 := InsertSorted(s3, keys[3]);
    ExampleFourth(s3);
    var k1, k2, k3 := keys[1..], keys[2..], keys[3..];
    assert k1[0] == keys[1] && k1[1..] == k2 && k2[0] == keys[2] && k2[1..] == k3 && k3[0] == keys[3];
    InsertSortedAllStep(s0, keys);
    InsertSortedAllStep(s1, k1);
    InsertSortedAllStep(s2, k2);
    InsertSortedAllStep(s3, k3);
    assert InsertSortedAll(s4, k3[1..]) == s4;
  }

  /** The sorted benchmark of `main`: 50000 keys into a fresh leaf fill it
      with the first 128 keys, in key order; on top of whatever the counters
      held before, that costs exactly 128 flushes and 128 fences and between
      128 and 8256 writes. */
  lemma {:induction false} SortedBenchmark(s: Stats, bench: seq<Key>)
    requires |bench| == BENCH_OPS
    ensures var r := InsertSortedAll(State(Leaf([]), s), bench);
      && r.leaf.Count() == LEAF_CAP
      && Sorted(r.leaf.keys)
      && multiset(r.leaf.keys) == multiset(bench[..LEAF_CAP])
      && r.stats.nclf == s.nclf + 128 && r.stats.nmf == s.nmf + 128
      && s.nw + 128 <= r.stats.nw <= s.nw + 8256
  {
    var st := State(Leaf([]), s);
    assert Sorted(st.leaf.keys);
    SortedRunKeys(st, bench, 0, LEAF_CAP);
    SortedRunCost(st, bench, 0, LEAF_CAP);
  }

  /** The sample search after the sorted benchmark hits at least the 128
      keys that went into the leaf. */
  lemma {:induction false} SampleHits(s: Stats, bench: seq<Key>)
    requires |bench| == BENCH_OPS
    ensures Hits(InsertSortedAll(State(Leaf([]), s), bench).leaf, bench[..SAMPLE]) >= LEAF_CAP
  {
    SortedBenchmark(s, bench);
    HeldSampleHits(InsertSortedAll(State(Leaf([]), s), bench).leaf, bench);
  }

  /** A leaf holding the first 128 benchmark keys finds at least those 128
      among the first 5000. */
  lemma {:induction false} HeldSampleHits(leaf: Leaf, bench: seq<Key>)
    requires |bench| >= SAMPLE && multiset(leaf.keys) == multiset(bench[..LEAF_CAP])
    ensures Hits(leaf, bench[..SAMPLE]) >= LEAF_CAP
  {
    forall i | 0 <= i < LEAF_CAP
      ensures bench[..SAMPLE][i] in leaf.keys
    {
      assert bench[..LEAF_CAP][i] == bench[i];
      assert bench[i] in multiset(bench[..LEAF_CAP]);
    }
    HitsOfHeldPrefix(leaf, bench[..SAMPLE], LEAF_CAP);
  }

  /** `SimpleBPlusTree`: the leaves, together with the process-wide counters
      its inserts are charged to. */
  datatype Index = Index(leaves: seq<Leaf>, stats: Stats)

  /** `SimpleBPlusTree(num_leaves)`: that many empty leaves. */
  function NewIndex(n: nat, s: Stats): (t: Index)
    ensures |t.leaves| == n && t.stats == s
    ensures forall j :: 0 <= j < n ==> t.leaves[j].Count() == 0
  {
    Index(seq(n, j => Leaf([])), s)
  }

  /** `SimpleBPlusTree::insert`: an unsorted insert into leaf
      `key % leaves.size()`. The source divides by the number of leaves, so
      there must be at least one. */
  function TreeInsert(t: Index, k: Key): (r: Index)
    requires |t.leaves| > 0
    ensures |r.leaves| == |t.leaves|
    ensures forall j :: 0 <= j < |t.leaves| && j != k % |t.leaves| ==> r.leaves[j] == t.leaves[j]
    ensures State(r.leaves[k % |t.leaves|], r.stats) == InsertUnsorted(State(t.leaves[k % |t.leaves|], t.stats), k)
  {
    var i := k % |t.leaves|;
    var st := InsertUnsorted(State(t.leaves[i], t.stats), k);
    Index(t.leaves[i := st.leaf], st.stats)
  }

  /** `SimpleBPlusTree::size`: the leaf counts added up front to back. It is
      zero exactly when every leaf is empty. */
  function Size(leaves: seq<Leaf>): (total: nat)
    ensures total == 0 <==> forall j :: 0 <= j < |leaves| ==> leaves[j].Count() == 0
  {
    if |leaves| == 0 then 0 else Size(leaves[..|leaves| - 1]) + leaves[|leaves| - 1].Count()
  }

  /** Replacing one leaf changes the size by the difference of the counts. */
  lemma {:induction false} SizeUpdate(leaves: seq<Leaf>, i: nat, l: Leaf)
    requires i < |leaves|
    ensures Size(leaves[i := l]) + leaves[i].Count() == Size(leaves) + l.Count()
    decreases |leaves|
  {
    var n := |leaves| - 1;
    var u := leaves[i := l];
    assert u[..n] == if i == n then leaves[..n] else leaves[..n][i := l];
    if i < n {
      SizeUpdate(leaves[..n], i, l);
    }
  }

  /** A tree insert grows the size by one exactly when the target leaf had
      room, and charges one write, one flush and one fence per key stored. */
  lemma TreeInsertSize(t: Index, k: Key)
    requires |t.leaves| > 0
    ensures var i := k % |t.leaves|; var r := TreeInsert(t, k);
      && (t.leaves[i].Count() < LEAF_CAP ==> Size(r.leaves) == Size(t.leaves) + 1 && r.stats == Add(t.stats, StoreCharge))
      && (t.leaves[i].Count() >= LEAF_CAP ==> Size(r.leaves) == Size(t.leaves) && r.stats == t.stats)
  {
    var i := k % |t.leaves|;
    var r := TreeInsert(t, k);
    assert r.leaves == t.leaves[i := r.leaves[i]];
    SizeUpdate(t.leaves, i, r.leaves[i]);
  }

  /** Every leaf within capacity, and every key in the leaf it routes to. */
  predicate Routed(t: Index)
  {
    forall j :: 0 <= j < |t.leaves| ==>
      && t.leaves[j].Count() <= LEAF_CAP
      && forall x :: x in t.leaves[j].keys ==> |t.leaves| > 0 && x % |t.leaves| == j
  }

  /** Every tree insert keeps the tree routed. */
  lemma TreeInsertKeepsRouted(t: Index, k: Key)
    requires |t.leaves| > 0 && Routed(t)
    ensures Routed(TreeInsert(t, k))
  {
    var i := k % |t.leaves|;
    var r := TreeInsert(t, k);
    forall j | 0 <= j < |r.leaves|
      ensures r.leaves[j].Count() <= LEAF_CAP
      ensures forall x :: x in r.leaves[j].keys ==> x % |r.leaves| == j
    {
      if j == i && t.leaves[i].Count() < LEAF_CAP {
        assert r.leaves[i].keys == t.leaves[i].keys + [k];
      }
    }
  }

  /** In a routed tree a key is stored somewhere exactly when it is stored in
      the leaf it routes to, so searching that one leaf is enough. */
  lemma RoutedLookup(t: Index, k: Key)
    requires |t.leaves| > 0 && Routed(t)
    ensures (exists j :: 0 <= j < |t.leaves| && k in t.leaves[j].keys) <==> k in t.leaves[k % |t.leaves|].keys
  {
  }

  /** The tree's prefill loop. */
  function TreeInsertAll(t: Index, keys: seq<Key>): (r: Index)
    requires |t.leaves| > 0
    ensures |r.leaves| == |t.leaves|
    decreases |keys|
  {
    if |keys| == 0 then t else TreeInsertAll(TreeInsert(t, keys[0]), keys[1..])
  }

  /** A run of tree inserts stores at most one key per insert, keeps the tree
      routed, and charges exactly one write, one flush and one fence per key
      it stored. */
  lemma {:induction false} TreeInsertAllSize(t: Index, keys: seq<Key>)
    requires |t.leaves| > 0 && Routed(t)
    ensures var r := TreeInsertAll(t, keys);
      && Routed(r)
      && Size(t.leaves) <= Size(r.leaves) <= Size(t.leaves) + |keys|
      && r.stats.nw == t.stats.nw + (Size(r.leaves) - Size(t.leaves))
      && r.stats.nclf == t.stats.nclf + (Size(r.leaves) - Size(t.leaves))
      && r.stats.nmf == t.stats.nmf + (Size(r.leaves) - Size(t.leaves))
    decreases |keys|
  {
    if |keys| > 0 {
      var t' := TreeInsert(t, keys[0]);
      TreeInsertSize(t, keys[0]);
      TreeInsertKeepsRouted(t, keys[0]);
      TreeInsertAllSize(t', keys[1..]);
      assert TreeInsertAll(t, keys) == TreeInsertAll(t', keys[1..]);
    }
  }

  /** A tree of empty leaves is routed and holds nothing. */
  lemma EmptyTree(t: Index)
    requires forall j :: 0 <= j < |t.leaves| ==> t.leaves[j].Count() == 0
    ensures Routed(t) && Size(t.leaves) == 0
  {
  }

  /** A run of tree inserts from a tree that holds nothing charges (1, 1, 1)
      per key it stores. */
  lemma {:induction false} TreeRunFromEmpty(t: Index, prefill: seq<Key>)
    requires |t.leaves| > 0 && Routed(t) && Size(t.leaves) == 0
    ensures var r := TreeInsertAll(t, prefill);
      && Size(r.leaves) <= |prefill|
      && r.stats == Add(t.stats, Stats(Size(r.leaves), Size(r.leaves), Size(r.leaves)))
  {
    TreeInsertAllSize(t, prefill);
  }

  /** The tree prefill of `main`: a run of tree inserts from an empty tree
      on a fresh meter leaves the meter at (1, 1, 1) per key stored. */
  lemma {:induction false} TreePrefillCounters(t: Index, prefill: seq<Key>)
    requires |t.leaves| > 0 && Routed(t) && Size(t.leaves) == 0 && t.stats == Zero
    ensures var r := TreeInsertAll(t, prefill);
      && Size(r.leaves) <= |prefill|
      && r.stats == Stats(Size(r.leaves), Size(r.leaves), Size(r.leaves))
  {
    TreeRunFromEmpty(t, prefill);
  }

  /** Where a run of tree inserts puts the keys does not depend on the
      counters it charges. */
  lemma {:induction false} TreeInsertAllLeaves(a: Index, b: Index, keys: seq<Key>)
    requires |a.leaves| > 0 && a.leaves == b.leaves
    ensures TreeInsertAll(a, keys).leaves == TreeInsertAll(b, keys).leaves
    decreases |keys|
  {
    if |keys| > 0 {
      TreeInsertAllLeaves(TreeInsert(a, keys[0]), TreeInsert(b, keys[0]), keys[1..]);
    }
  }

  /** The tree benchmark loop of `main`: every key goes into the tree, and
      the loop body then charges one more word write of its own. The tree
      ends exactly as a plain run of tree inserts leaves it. */
  function TreeBench(t: Index, keys: seq<Key>): (r: Index)
    requires |t.leaves| > 0
    ensures r.leaves == TreeInsertAll(t, keys).leaves
    decreases |keys|
  {
    if |keys| == 0 then t
    else
      var u := TreeInsert(t, keys[0]);
      var u' := Index(u.leaves, Write(u.stats, 1));
      TreeInsertAllLeaves(u', u, keys[1..]);
      TreeBench(u', keys[1..])
  }

  /** The tree benchmark stores at most one key per insert and keeps the
      tree routed. It charges one write, one flush and one fence per key it
      stores, and one extra write per key, stored or not. */
  lemma {:induction false} TreeBenchCost(t: Index, keys: seq<Key>)
    requires |t.leaves| > 0 && Routed(t)
    ensures var r := TreeBench(t, keys);
      && Routed(r)
      && Size(t.leaves) <= Size(r.leaves) <= Size(t.leaves) + |keys|
      && r.stats.nclf == t.stats.nclf + (Size(r.leaves) - Size(t.leaves))
      && r.stats.nmf == t.stats.nmf + (Size(r.leaves) - Size(t.leaves))
      && r.stats.nw == t.stats.nw + (Size(r.leaves) - Size(t.leaves)) + |keys|
    decreases |keys|
  {
    if |keys| > 0 {
      var u := TreeInsert(t, keys[0]);
      var u' := Index(u.leaves, Write(u.stats, 1));
      TreeInsertSize(t, keys[0]);
      TreeInsertKeepsRouted(t, keys[0]);
      TreeBenchCost(u', keys[1..]);
      assert TreeBench(t, keys) == TreeBench(u', keys[1..]);
    }
  }

  /** The tree benchmark started on the meter `s` of the stage before it,
      counter by counter. */
  lemma {:induction false} TreeBenchCounters(t: Index, s: Stats, keys: seq<Key>)
    requires |t.leaves| > 0 && Routed(t)
    ensures var r := TreeBench(Index(t.leaves, s), keys);
      && Size(t.leaves) <= Size(r.leaves) <= Size(t.leaves) + |keys|
      && r.stats.nclf == s.nclf + (Size(r.leaves) - Size(t.leaves))
      && r.stats.nmf == s.nmf + (Size(r.leaves) - Size(t.leaves))
      && r.stats.nw == s.nw + (Size(r.leaves) - Size(t.leaves)) + |keys|
  {
    TreeBenchCost(Index(t.leaves, s), keys);
  }

  /** What `main` has built when it writes its report: the tree after the
      prefill, the baseline leaf after the sorted benchmark, and the tree
      after its own benchmark. All three charge the one process-wide meter,
      so the counters of each stage carry over into the next. */
  datatype Run = Run(prefilled: Index, base: State, tree: Index)

  /** `main` on a tree of `n` leaves, up to its report. */
  function MainRun(n: nat, prefill: seq<Key>, bench: seq<Key>): (r: Run)
    requires n > 0
    ensures |r.prefilled.leaves| == |r.tree.leaves| == n
    ensures r.tree.leaves == TreeInsertAll(r.prefilled, bench).leaves
    ensures r.base.leaf.Count() == Min(LEAF_CAP, |bench|) && Sorted(r.base.leaf.keys)
  {
    var t := TreeInsertAll(NewIndex(n, Zero), prefill);
    var b := InsertSortedAll(State(Leaf([]), t.stats), bench);
    assert Sorted([]);
    SortedRunKeys(State(Leaf([]), t.stats), bench, 0, Min(LEAF_CAP, |bench|));
    TreeInsertAllLeaves(Index(t.leaves, b.stats), t, bench);
    Run(t, b, TreeBench(Index(t.leaves, b.stats), bench))
  }

  /** The counters of the `sorted` row of the report. The prefill stores
      `s1` keys in the tree at (1, 1, 1) each. The sorted benchmark fills the
      baseline leaf with 128 flushes, 128 fences and 128 to 8256 writes. The
      tree benchmark stores `s2` more keys at (1, 1, 1) each and adds one
      write per benchmark key. */
  lemma {:induction false} SortedRowCounters(n: nat, prefill: seq<Key>, bench: seq<Key>)
    requires n > 0 && |bench| == BENCH_OPS
    ensures var r := MainRun(n, prefill, bench);
      var s1 := Size(r.prefilled.leaves);
      var s2 := Size(r.tree.leaves) - s1;
      && s1 <= |prefill| && 0 <= s2 <= |bench|
      && r.tree.stats.nclf == s1 + LEAF_CAP + s2
      && r.tree.stats.nmf == s1 + LEAF_CAP + s2
      && s1 + LEAF_CAP + s2 + BENCH_OPS <= r.tree.stats.nw <= s1 + 8256 + s2 + BENCH_OPS
  {
    var t := TreeInsertAll(NewIndex(n, Zero), prefill);
    var b := InsertSortedAll(State(Leaf([]), t.stats), bench);
    assert MainRun(n, prefill, bench) == Run(t, b, TreeBench(Index(t.leaves, b.stats), bench));
    EmptyTree(NewIndex(n, Zero));
    TreeInsertAllSize(NewIndex(n, Zero), prefill);
    TreePrefillCounters(NewIndex(n, Zero), prefill);
    SortedBenchmark(t.stats, bench);
    TreeBenchCounters(t, b.stats, bench);
  }

  /** The `unsorted` row divides each counter by 4 in unsigned integer
      arithmetic, so it rounds down. */
  function Quarter(s: Stats): (q: Stats)
    ensures 4 * q.nw <= s.nw < 4 * q.nw + 4
    ensures 4 * q.nclf <= s.nclf < 4 * q.nclf + 4
    ensures 4 * q.nmf <= s.nmf < 4 * q.nmf + 4
  {
    Stats(s.nw / 4, s.nclf / 4, s.nmf / 4)
  }

  /** The `unsorted` row: a quarter of the `sorted` row, rounded down. With
      `stored` the keys the tree holds at the end, the flushes and fences
      come to a quarter of `stored + 128`. */
  lemma {:induction false} UnsortedRowCounters(n: nat, prefill: seq<Key>, bench: seq<Key>)
    requires n > 0 && |bench| == BENCH_OPS
    ensures var r := MainRun(n, prefill, bench);
      var stored := Size(r.tree.leaves);
      var q := Quarter(r.tree.stats);
      && 4 * q.nclf <= stored + LEAF_CAP < 4 * q.nclf + 4
      && q.nmf == q.nclf
      && 4 * q.nw <= stored + 8256 + BENCH_OPS
      && stored + LEAF_CAP + BENCH_OPS < 4 * q.nw + 4
  {
    SortedRowCounters(n, prefill, bench);
  }
}
