/** src/article2_wbtree.cpp: three fixed-capacity (32-entry) leaf designs
    compared under the same insert-only benchmark.
    - `Volatile` (`LeafBTreeVolatile`): sorted shift-insert, one word write
      per shifted key plus one for the new key, no flush or fence.
    - `Logged` (`LeafBTreeLog`): a 4-word log record with flush and fence,
      the same shift-insert, then a second flush and fence.
    - `Indirect` (`LeafWBTree`): append, then a fixed 2-word slot/version
      update with one flush and one fence.
    An insert into a full leaf is ignored and charges nothing. */
module WbTree {
  import opened Keys
  import opened Meter
  import opened Leaves
  import Algorithms

  /** Leaf capacity. */
  const CAP := 32
  /** Prefill size of the benchmark: about 70% of a leaf. */
  const PREFILL := CAP * 7 / 10
  /** Timed inserts of the benchmark. */
  const OPS := 100000

  datatype Variant = Volatile | Logged | Indirect

  /** How many live keys the shift loop moves one slot right for `k`. */
  function Shifts(keys: seq<Key>, k: Key): nat
  {
    |keys| - InsertPos(keys, k)
  }

  /** The charge of one insert below capacity, by design. */
  function Charge(v: Variant, keys: seq<Key>, k: Key): Stats
  {
    match v
    case Volatile => Stats(Shifts(keys, k) + 1, 0, 0)
    case Logged => Stats(4 + Shifts(keys, k) + 1, 2, 2)
    case Indirect => Stats(2, 1, 1)
  }

  /** `insert(k, s)` of each design, charging the meter step by step in the
      order the source does. */
  function Insert(v: Variant, st: State, k: Key): (r: State)
    ensures st.leaf.Count() >= CAP ==> r == st
    ensures st.leaf.Count() < CAP ==>
      && r.leaf.Count() == st.leaf.Count() + 1
      && r.stats == Add(st.stats, Charge(v, st.leaf.keys, k))
  {
    var keys := st.leaf.keys;
    if |keys| >= CAP then st
    else
      match v
      case Volatile =>
        State(Leaf(SortedInsert(keys, k)), Write(st.stats, Shifts(keys, k) + 1))
      case Logged =>
        var logged := Fence(Flush(Write(st.stats, 4)));
        var updated := Write(logged, Shifts(keys, k) + 1);
        State(Leaf(SortedInsert(keys, k)), Fence(Flush(updated)))
      case Indirect =>
        State(Leaf(keys + [k]), Fence(Flush(Write(st.stats, 2))))
  }

  /** The logging design ends with the same keys as the volatile one and pays
      exactly the log record (4 writes) and two flush+fence pairs more. */
  lemma LoggedMatchesVolatile(st: State, k: Key)
    requires st.leaf.Count() < CAP
    ensures Insert(Logged, st, k).leaf == Insert(Volatile, st, k).leaf
    ensures Insert(Logged, st, k).stats == Add(Insert(Volatile, st, k).stats, Stats(4, 2, 2))
  {
  }

  /** The ordered designs put the new key where any sorted leaf holding the
      old keys plus `k` would have it. */
  lemma OrderedInsertIsTheSortedLeaf(v: Variant, st: State, k: Key, t: seq<Key>)
    requires v != Indirect && st.leaf.Count() < CAP
    requires Sorted(st.leaf.keys) && Sorted(t)
    requires multiset(t) == multiset(st.leaf.keys) + multiset{k}
    ensures Insert(v, st, k).leaf.keys == t
  {
    SortedInsertCharacterized(st.leaf.keys, k, t);
  }

  /** `search(k, s)`: binary search for the ordered designs, a linear scan
      for `Indirect`. The meter is never touched, so it is not a parameter. */
  method Search(v: Variant, leaf: Leaf, k: Key) returns (found: bool)
    requires v != Indirect ==> Sorted(leaf.keys)
    ensures found <==> k in leaf.keys
  {
    if v == Indirect {
      found := Algorithms.LinearSearch(leaf.keys, k);
    } else {
      found := Algorithms.BinarySearch(leaf.keys, k);
    }
  }

  /** The insert loop of `run_insert_benchmark` (and of the prefill). */
  function InsertAll(v: Variant, st: State, keys: seq<Key>): State
    decreases |keys|
  {
    if |keys| == 0 then st else InsertAll(v, Insert(v, st, keys[0]), keys[1..])
  }

  /** One design's run in `main`: fresh leaf and meter, prefill, benchmark. */
  function RunHarness(v: Variant, prefill: seq<Key>, bench: seq<Key>): State
  {
    InsertAll(v, InsertAll(v, Start, prefill), bench)
  }

  /** The part of an insert's charge that does not depend on the keys. */
  function Fixed(v: Variant): Stats
  {
    match v
    case Volatile => Stats(1, 0, 0)
    case Logged => Stats(5, 2, 2)
    case Indirect => Stats(2, 1, 1)
  }

  /** Whether the design shifts keys, paying one write per key moved. */
  predicate Shifting(v: Variant)
  {
    v != Indirect
  }

  /** An insert's charge is the fixed part plus, for the shifting designs,
      one write per live key at or after the insert position, so at most one
      per live key. */
  lemma ChargeBounds(v: Variant, keys: seq<Key>, k: Key)
    ensures Charge(v, keys, k).nclf == Fixed(v).nclf && Charge(v, keys, k).nmf == Fixed(v).nmf
    ensures Shifting(v) ==> Charge(v, keys, k).nw == Fixed(v).nw + Shifts(keys, k) <= Fixed(v).nw + |keys|
    ensures !Shifting(v) ==> Charge(v, keys, k).nw == Fixed(v).nw
  {
  }

  /** Running inserts back to back is the same as one run over both key lists. */
  lemma {:induction false} InsertAllAppend(v: Variant, st: State, a: seq<Key>, b: seq<Key>)
    ensures InsertAll(v, InsertAll(v, st, a), b) == InsertAll(v, st, a + b)
    decreases |a|
  {
    if |a| > 0 {
      assert (a + b)[1..] == a[1..] + b;
      InsertAllAppend(v, Insert(v, st, a[0]), a[1..], b);
    } else {
      assert a + b == b;
    }
  }

  /** A full leaf ignores every further insert: keys, count and all three
      counters stay as they are. */
  lemma {:induction false} FullLeafIgnoresInserts(v: Variant, st: State, keys: seq<Key>)
    requires st.leaf.Count() >= CAP
    ensures InsertAll(v, st, keys) == st
    decreases |keys|
  {
    if |keys| > 0 {
      FullLeafIgnoresInserts(v, st, keys[1..]);
    }
  }

  /** One insert below capacity adds exactly its key: the shift designs
      keep the leaf sorted and put `k` in front of the first key not less
      than it, `Indirect` stores it at slot `count`. */
  lemma InsertExtends(v: Variant, st: State, k: Key)
    requires st.leaf.Count() < CAP
    ensures Extends(v != Indirect, st.leaf, Insert(v, st, k).leaf, [k])
    ensures v != Indirect ==> Insert(v, st, k).leaf.keys[InsertPos(st.leaf.keys, k)] == k
  {
  }

  /** One insert below capacity in front of a run whose keys are known. */
  lemma InsertKeysStep(v: Variant, st: State, k: Key, rest: seq<Key>, added: seq<Key>)
    requires st.leaf.Count() < CAP
    requires Extends(v != Indirect, Insert(v, st, k).leaf, InsertAll(v, Insert(v, st, k), rest).leaf, added)
    ensures Extends(v != Indirect, st.leaf, InsertAll(v, Insert(v, st, k), rest).leaf, [k] + added)
  {
    InsertExtends(v, st, k);
    ExtendsChain(v != Indirect, st.leaf, Insert(v, st, k).leaf, InsertAll(v, Insert(v, st, k), rest).leaf, [k], added);
  }

  /** An empty run, or any run on a full leaf, adds nothing. */
  lemma NoRoomKeys(v: Variant, st: State, keys: seq<Key>, c: nat, m: nat)
    requires c == st.leaf.Count() <= CAP && m == Min(CAP, c + |keys|)
    requires |keys| == 0 || c == CAP
    ensures Extends(v != Indirect, st.leaf, InsertAll(v, st, keys).leaf, keys[..m - c])
  {
    if c == CAP {
      FullLeafIgnoresInserts(v, st, keys);
    }
    assert keys[..m - c] == [];
    assert InsertAll(v, st, keys) == st;
  }

  /** A run on a leaf with room: its first insert, then the rest of the run. */
  lemma {:induction false} RunKeysStep(v: Variant, st: State, keys: seq<Key>, c: nat, m: nat)
    requires c == st.leaf.Count() < CAP && m == Min(CAP, c + |keys|) && |keys| > 0
    requires Extends(v != Indirect, Insert(v, st, keys[0]).leaf,
                     InsertAll(v, Insert(v, st, keys[0]), keys[1..]).leaf, keys[1..][..m - (c + 1)])
    ensures Extends(v != Indirect, st.leaf, InsertAll(v, st, keys).leaf, keys[..m - c])
  {
    TakeCons(keys, m - c, m - (c + 1));
    InsertKeysStep(v, st, keys[0], keys[1..], keys[1..][..m - (c + 1)]);
    assert InsertAll(v, st, keys) == InsertAll(v, Insert(v, st, keys[0]), keys[1..]);
  }

  /** A run that takes the leaf from fill level `c` to `m` (capacity, or
      every key of the run if they fit) adds exactly the first `m - c` keys
      of the run and ignores the rest. */
  lemma {:induction false} InsertAllKeys(v: Variant, st: State, keys: seq<Key>, c: nat, m: nat)
    requires c == st.leaf.Count() <= CAP && m == Min(CAP, c + |keys|)
    ensures Extends(v != Indirect, st.leaf, InsertAll(v, st, keys).leaf, keys[..m - c])
    decreases |keys|
  {
    if |keys| == 0 || c == CAP {
      NoRoomKeys(v, st, keys, c, m);
    } else {
      InsertAllKeys(v, Insert(v, st, keys[0]), keys[1..], c + 1, m);
      RunKeysStep(v, st, keys, c, m);
    }
  }

  /** One insert below capacity charges the fixed part exactly on every
      counter but writes, and between the fixed writes and one more per live
      key on writes. */
  lemma InsertCostBounds(v: Variant, st: State, k: Key)
    requires st.leaf.Count() < CAP
    ensures var s1 := Insert(v, st, k).stats; var s := st.stats;
      && s1.nclf == s.nclf + Fixed(v).nclf && s1.nmf == s.nmf + Fixed(v).nmf
      && s.nw + Fixed(v).nw <= s1.nw <= s.nw + Fixed(v).nw + (if Shifting(v) then st.leaf.Count() else 0)
  {
    ChargeBounds(v, st.leaf.keys, k);
  }

  /** One insert below capacity in front of a run whose cost is known. */
  lemma {:induction false} InsertCostStep(v: Variant, st: State, k: Key, rest: seq<Key>, c: nat, m: nat)
    requires c == st.leaf.Count() < CAP && c < m
    requires RunCharge(Fixed(v), Shifting(v), Insert(v, st, k).stats, InsertAll(v, Insert(v, st, k), rest).stats, c + 1, m)
    ensures RunCharge(Fixed(v), Shifting(v), st.stats, InsertAll(v, Insert(v, st, k), rest).stats, c, m)
  {
    InsertCostBounds(v, st, k);
    RunChargeStep(Fixed(v), Shifting(v), st.stats, Insert(v, st, k).stats, InsertAll(v, Insert(v, st, k), rest).stats, c, m);
  }

  /** An empty run, or any run on a full leaf, charges nothing. */
  lemma NoRoomCost(v: Variant, st: State, keys: seq<Key>, c: nat, m: nat)
    requires c == st.leaf.Count() <= CAP && m == Min(CAP, c + |keys|)
    requires |keys| == 0 || c == CAP
    ensures RunCharge(Fixed(v), Shifting(v), st.stats, InsertAll(v, st, keys).stats, c, m)
  {
    if c == CAP {
      FullLeafIgnoresInserts(v, st, keys);
    }
    assert InsertAll(v, st, keys) == st;
    RunChargeNone(Fixed(v), Shifting(v), st.stats, c);
  }

  /** A run on a leaf with room: its first insert, then the rest of the run. */
  lemma {:induction false} RunCostStep(v: Variant, st: State, keys: seq<Key>, c: nat, m: nat)
    requires c == st.leaf.Count() < CAP && m == Min(CAP, c + |keys|) && |keys| > 0
    requires RunCharge(Fixed(v), Shifting(v), Insert(v, st, keys[0]).stats,
                       InsertAll(v, Insert(v, st, keys[0]), keys[1..]).stats, c + 1, m)
    ensures RunCharge(Fixed(v), Shifting(v), st.stats, InsertAll(v, st, keys).stats, c, m)
  {
    assert InsertAll(v, st, keys) == InsertAll(v, Insert(v, st, keys[0]), keys[1..]);
    InsertCostStep(v, st, keys[0], keys[1..], c, m);
  }

  /** What a run of inserts charges when it takes the leaf from fill level
      `c` to `m`: the fixed part of each stored key, plus, for the shifting
      designs, at most one write per live key at each insert. */
  lemma {:induction false} InsertAllCost(v: Variant, st: State, keys: seq<Key>, c: nat, m: nat)
    requires c == st.leaf.Count() <= CAP && m == Min(CAP, c + |keys|)
    ensures RunCharge(Fixed(v), Shifting(v), st.stats, InsertAll(v, st, keys).stats, c, m)
    decreases |keys|
  {
    if |keys| == 0 || c == CAP {
      NoRoomCost(v, st, keys, c, m);
    } else {
      InsertAllCost(v, Insert(v, st, keys[0]), keys[1..], c + 1, m);
      RunCostStep(v, st, keys, c, m);
    }
  }

  /** The benchmark in `main`: 22 prefill keys and 100000 timed inserts
      leave every design's leaf full with the first 32 keys offered, in key
      order for the shift designs and in arrival order for `Indirect`. */
  lemma {:induction false} HarnessKeys(v: Variant, prefill: seq<Key>, bench: seq<Key>)
    requires |prefill| == PREFILL && |bench| == OPS
    ensures var r := RunHarness(v, prefill, bench);
      && r.leaf.Count() == CAP
      && multiset(r.leaf.keys) == multiset((prefill + bench)[..CAP])
      && (v != Indirect ==> Sorted(r.leaf.keys))
      && (v == Indirect ==> r.leaf.keys == (prefill + bench)[..CAP])
  {
    HarnessIsOneRun(v, prefill, bench);
    FillFromEmpty(v, Start, prefill + bench);
  }

  /** Any run of at least 32 keys fills an empty leaf with its first 32. */
  lemma {:induction false} FillFromEmpty(v: Variant, st: State, keys: seq<Key>)
    requires st.leaf.keys == [] && |keys| >= CAP
    ensures var r := InsertAll(v, st, keys);
      && r.leaf.Count() == CAP
      && multiset(r.leaf.keys) == multiset(keys[..CAP])
      && (v != Indirect ==> Sorted(r.leaf.keys))
      && (v == Indirect ==> r.leaf.keys == keys[..CAP])
  {
    InsertAllKeys(v, st, keys, 0, CAP);
    assert Sorted(st.leaf.keys);
    assert Extends(v != Indirect, st.leaf, InsertAll(v, st, keys).leaf, keys[..CAP]);
  }

  /** `main` runs the prefill and the benchmark on the same leaf and meter,
      so a design's run is one insert run over both key lists. */
  lemma {:induction false} HarnessIsOneRun(v: Variant, prefill: seq<Key>, bench: seq<Key>)
    ensures RunHarness(v, prefill, bench) == InsertAll(v, Start, prefill + bench)
  {
    InsertAllAppend(v, Start, prefill, bench);
  }

  /** Filling an empty leaf without logging: between one and 32 writes per
      insert, no flush, no fence. */
  lemma VolatileFillCost(keys: seq<Key>)
    requires |keys| >= CAP
    ensures var r := InsertAll(Volatile, Start, keys).stats;
      r.nclf == 0 && r.nmf == 0 && 32 <= r.nw <= 528
  {
    InsertAllCost(Volatile, Start, keys, 0, CAP);
  }

  /** Filling an empty leaf with logging: four more writes and two flush +
      fence pairs per insert on top of the volatile cost. */
  lemma LoggedFillCost(keys: seq<Key>)
    requires |keys| >= CAP
    ensures var r := InsertAll(Logged, Start, keys).stats;
      r.nclf == 64 && r.nmf == 64 && 160 <= r.nw <= 656
  {
    InsertAllCost(Logged, Start, keys, 0, CAP);
  }

  /** Filling an empty leaf through the slot array: two writes, one flush
      and one fence per insert, whatever the keys. */
  lemma IndirectFillCost(keys: seq<Key>)
    requires |keys| >= CAP
    ensures InsertAll(Indirect, Start, keys).stats == Stats(64, 32, 32)
  {
    InsertAllCost(Indirect, Start, keys, 0, CAP);
  }

  /** The counters of the same benchmark. `Indirect` reports exactly
      (64, 32, 32); the shift designs' flush and fence counts are exact and
      their write counts lie in the stated range (32..528 writes without
      logging, 160..656 with it), depending on the keys' order. */
  lemma HarnessCost(v: Variant, prefill: seq<Key>, bench: seq<Key>)
    requires |prefill| == PREFILL && |bench| == OPS
    ensures var r := RunHarness(v, prefill, bench).stats;
      && (v == Indirect ==> r == Stats(64, 32, 32))
      && (v == Volatile ==> r.nclf == 0 && r.nmf == 0 && 32 <= r.nw <= 528)
      && (v == Logged ==> r.nclf == 64 && r.nmf == 64 && 160 <= r.nw <= 656)
  {
    HarnessIsOneRun(v, prefill, bench);
    match v
    case Volatile => VolatileFillCost(prefill + bench);
    case Logged => LoggedFillCost(prefill + bench);
    case Indirect => IndirectFillCost(prefill + bench);
  }
}
