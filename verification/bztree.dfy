/** src/article3_bztree.cpp: a 32-slot append-only leaf whose every insert
    is one toy PMwCAS (persistent multi-word compare-and-swap) installing
    the new key and the new count together. The descriptor's targets are
    abstract locations of the leaf (a key slot or the count word) rather
    than raw addresses. */
module BzTree {
  import opened Keys
  import opened Meter
  import opened Leaves

  /** Leaf capacity. */
  const CAP := 32
  /** Prefill size of the benchmark: about 70% of a leaf. */
  const PREFILL := CAP * 7 / 10
  /** Timed inserts of the benchmark. */
  const OPS := 100000
  /** Benchmark keys searched for afterwards. */
  const SAMPLE := 5000

  /** A word of the leaf a descriptor entry can target. */
  datatype Loc = KeySlot(i: nat) | CountWord

  /** `PMwCAS_Entry`: store `newVal` at `target`. */
  datatype Entry = Entry(target: Loc, newVal: Key)

  /** `PMwCAS_Descriptor`: the entries, applied in list order. */
  datatype Descriptor = Descriptor(entries: seq<Entry>)

  /** `LeafNode`: the key array and the count of live keys. Slots at and
      after `count` hold whatever they held before; only the live prefix
      means anything. */
  datatype Node = Node(slots: seq<Key>, count: nat)
  {
    /** A node of the declared shape: `CAP` slots, at most `CAP` live. */
    predicate Valid()
    {
      |slots| == CAP && count <= CAP
    }

    /** The live keys, `keys[0..count)`, as a leaf. */
    function Live(): Leaf
      requires Valid()
    {
      Leaf(slots[..count])
    }
  }

  /** A node together with the meter its inserts are charged to. */
  datatype BzState = BzState(node: Node, stats: Stats)

  /** What `pmwcas` hands back: its verdict, the node and the meter. */
  datatype Outcome = Outcome(ok: bool, node: Node, stats: Stats)

  /** Whether `l` is a word of `n`: the count, or a slot inside the array. */
  predicate Addressable(n: Node, l: Loc)
  {
    match l
    case KeySlot(i) => i < |n.slots|
    case CountWord => true
  }

  /** Location `l` of `n` holds `v`. */
  predicate Holds(n: Node, l: Loc, v: nat)
  {
    match l
    case KeySlot(i) => i < |n.slots| && n.slots[i] == v
    case CountWord => n.count == v
  }

  /** `*(e.addr) = e.new_val` for one entry. A slot outside the array is not
      a word of this node, and storing to it changes nothing here. */
  function Store(n: Node, e: Entry): (r: Node)
    ensures |r.slots| == |n.slots|
    ensures Addressable(n, e.target) ==> Holds(r, e.target, e.newVal)
    ensures forall l: Loc, v: nat :: l != e.target && Holds(n, l, v) ==> Holds(r, l, v)
  {
    match e.target
    case KeySlot(i) => if i < |n.slots| then n.(slots := n.slots[i := e.newVal]) else n
    case CountWord => n.(count := e.newVal)
  }

  /** The update loop of `pmwcas`: every entry stored, in list order. */
  function ApplyEntries(n: Node, es: seq<Entry>): (r: Node)
    ensures |r.slots| == |n.slots|
    decreases |es|
  {
    if |es| == 0 then n else ApplyEntries(Store(n, es[0]), es[1..])
  }

  /** `pmwcas`: persist the descriptor (two words, a flush and a fence),
      apply every entry charging one word each, persist the final state
      (a flush and a fence), and report success. Nothing can make it fail. */
  function Pmwcas(n: Node, d: Descriptor, s: Stats): (r: Outcome)
    ensures r.ok
    ensures r.stats == Add(s, Stats(2 + |d.entries|, 2, 2))
  {
    var installed := Fence(Flush(Write(s, 2)));
    var applied := Write(installed, |d.entries|);
    Outcome(true, ApplyEntries(n, d.entries), Fence(Flush(applied)))
  }

  /** The update loop of `pmwcas` as the source runs it, one entry per
      iteration, against the fold it implements. */
  method ApplyInOrder(n: Node, es: seq<Entry>) returns (r: Node, writes: nat)
    ensures r == ApplyEntries(n, es)
    ensures writes == |es|
  {
    r, writes := n, 0;
    var i := 0;
    while i < |es|
      invariant 0 <= i <= |es|
      invariant writes == i
      invariant ApplyEntries(r, es[i..]) == ApplyEntries(n, es)
    {
      assert es[i..][0] == es[i] && es[i..][1..] == es[i + 1..];
      r := Store(r, es[i]);
      writes := writes + 1;
      i := i + 1;
    }
  }

  /** No entry of `es` targets `l`. */
  predicate Untargeted(es: seq<Entry>, l: Loc)
  {
    forall j :: 0 <= j < |es| ==> es[j].target != l
  }

  /** The entries of `es` target pairwise different words of `n`. */
  predicate DisjointTargets(n: Node, es: seq<Entry>)
  {
    && (forall j :: 0 <= j < |es| ==> Addressable(n, es[j].target))
    && (forall j, j' :: 0 <= j < j' < |es| ==> es[j].target != es[j'].target)
  }

  /** A word no entry targets keeps its value through the update loop. */
  lemma {:induction false} ApplyFrame(n: Node, es: seq<Entry>, l: Loc, v: nat)
    requires Untargeted(es, l) && Holds(n, l, v)
    ensures Holds(ApplyEntries(n, es), l, v)
    decreases |es|
  {
    if |es| > 0 {
      ApplyFrame(Store(n, es[0]), es[1..], l, v);
    }
  }

  /** With pairwise different targets, every target ends up holding its
      entry's new value. */
  lemma {:induction false} ApplyDisjoint(n: Node, es: seq<Entry>, j: nat)
    requires DisjointTargets(n, es) && j < |es|
    ensures Holds(ApplyEntries(n, es), es[j].target, es[j].newVal)
    decreases |es|
  {
    var n' := Store(n, es[0]);
    assert forall t :: 0 <= t < |es| - 1 ==> es[1..][t] == es[t + 1];
    if j == 0 {
      ApplyFrame(n', es[1..], es[0].target, es[0].newVal);
    } else {
      forall t | 0 <= t < |es[1..]|
        ensures Addressable(n', es[1..][t].target)
      {
        assert Addressable(n, es[t + 1].target);
      }
      ApplyDisjoint(n', es[1..], j - 1);
    }
  }

  /** What a `pmwcas` with pairwise different targets promises: success, the
      (2 + entries, 2, 2) charge, every target holding its new value, and
      every other word of the node unchanged. */
  lemma PmwcasEffect(n: Node, d: Descriptor, s: Stats, l: Loc, v: nat)
    requires DisjointTargets(n, d.entries)
    ensures var r := Pmwcas(n, d, s);
      && r.ok
      && r.stats == Add(s, Stats(2 + |d.entries|, 2, 2))
      && (forall j :: 0 <= j < |d.entries| ==> Holds(r.node, d.entries[j].target, d.entries[j].newVal))
      && (Untargeted(d.entries, l) && Holds(n, l, v) ==> Holds(r.node, l, v))
  {
    forall j | 0 <= j < |d.entries|
      ensures Holds(ApplyEntries(n, d.entries), d.entries[j].target, d.entries[j].newVal)
    {
      ApplyDisjoint(n, d.entries, j);
    }
    if Untargeted(d.entries, l) && Holds(n, l, v) {
      ApplyFrame(n, d.entries, l, v);
    }
  }

  /** The descriptor `bztree_insert` builds: the key into the first free
      slot, and the count raised by one. */
  function InsertDescriptor(n: Node, k: Key): (d: Descriptor)
    requires n.count < CAP
    ensures |d.entries| == 2
    ensures d.entries[0] == Entry(KeySlot(n.count), k)
    ensures d.entries[1] == Entry(CountWord, n.count + 1)
    ensures n.Valid() ==> DisjointTargets(n, d.entries)
  {
    Descriptor([Entry(KeySlot(n.count), k), Entry(CountWord, n.count + 1)])
  }

  /** `bztree_insert`: ignored on a full leaf, otherwise one `pmwcas` that
      stores the key and the new count together. */
  function BzInsert(st: BzState, k: Key): (r: BzState)
    ensures st.node.count >= CAP ==> r == st
    ensures st.node.count < CAP ==> r.stats == Add(st.stats, Stats(4, 2, 2))
    ensures |r.node.slots| == |st.node.slots|
  {
    if st.node.count >= CAP then st
    else
      var out := Pmwcas(st.node, InsertDescriptor(st.node, k), st.stats);
      BzState(out.node, out.stats)
  }

  /** Below capacity an insert stores the key in slot `count`, raises the
      count by one and leaves every other slot as it was; so the live keys
      grow by exactly `k` at the end. */
  lemma BzInsertEffect(st: BzState, k: Key)
    requires st.node.Valid() && st.node.count < CAP
    ensures var r := BzInsert(st, k).node;
      && r.Valid()
      && r.count == st.node.count + 1
      && r.slots == st.node.slots[st.node.count := k]
      && Extends(false, st.node.Live(), r.Live(), [k])
  {
    var n := st.node;
    var d := InsertDescriptor(n, k);
    var r := BzInsert(st, k).node;
    PmwcasEffect(n, d, st.stats, CountWord, n.count);
    assert Holds(r, d.entries[0].target, k) && Holds(r, d.entries[1].target, n.count + 1);
    forall i | 0 <= i < |n.slots| && i != n.count
      ensures r.slots[i] == n.slots[i]
    {
      PmwcasEffect(n, d, st.stats, KeySlot(i), n.slots[i]);
    }
    assert r.slots == n.slots[n.count := k];
    assert r.slots[..r.count] == n.slots[..n.count] + [k];
  }

  /** `search_leaf`: a scan of the live keys; the meter is not touched. */
  method SearchLeaf(n: Node, k: Key) returns (found: bool)
    requires n.Valid()
    ensures found <==> k in n.Live().keys
  {
    var i := 0;
    while i < n.count
      invariant 0 <= i <= n.count
      invariant forall j :: 0 <= j < i ==> n.slots[j] != k
    {
      if n.slots[i] == k {
        assert n.Live().keys[i] == k;
        return true;
      }
      i := i + 1;
    }
    assert forall j :: 0 <= j < n.count ==> n.Live().keys[j] == n.slots[j];
    return false;
  }

  /** The prefill and benchmark loops: every key in order. */
  function BzInsertAll(st: BzState, keys: seq<Key>): BzState
    decreases |keys|
  {
    if |keys| == 0 then st else BzInsertAll(BzInsert(st, keys[0]), keys[1..])
  }

  /** A full leaf ignores every further insert. */
  lemma {:induction false} FullLeafIgnoresInserts(st: BzState, keys: seq<Key>)
    requires st.node.count >= CAP
    ensures BzInsertAll(st, keys) == st
    decreases |keys|
  {
    if |keys| > 0 {
      FullLeafIgnoresInserts(st, keys[1..]);
    }
  }

  /** Running inserts back to back is one run over both key lists. */
  lemma {:induction false} BzInsertAllAppend(st: BzState, a: seq<Key>, b: seq<Key>)
    ensures BzInsertAll(BzInsertAll(st, a), b) == BzInsertAll(st, a + b)
    decreases |a|
  {
    if |a| > 0 {
      assert (a + b)[1..] == a[1..] + b;
      BzInsertAllAppend(BzInsert(st, a[0]), a[1..], b);
    } else {
      assert a + b == b;
    }
  }

  /** What a run that takes the leaf from fill level `c` to `m` leaves
      behind: a valid node holding `m` live keys, the old ones followed by
      the first `m - c` keys of the run, and exactly (4, 2, 2) per stored
      key on the meter. */
  predicate RunResult(st: BzState, keys: seq<Key>, r: BzState, c: nat, m: nat)
    requires st.node.Valid() && c <= m <= c + |keys|
  {
    && r.node.Valid()
    && r.node.count == m
    && Extends(false, st.node.Live(), r.node.Live(), keys[..m - c])
    && RunCharge(Stats(4, 2, 2), false, st.stats, r.stats, c, m)
  }

  /** An empty run, or any run on a full leaf, changes nothing. */
  lemma NoRoomRun(st: BzState, keys: seq<Key>, c: nat, m: nat)
    requires st.node.Valid() && c == st.node.count && m == Min(CAP, c + |keys|)
    requires |keys| == 0 || c == CAP
    ensures RunResult(st, keys, BzInsertAll(st, keys), c, m)
  {
    if c == CAP {
      FullLeafIgnoresInserts(st, keys);
    }
    assert BzInsertAll(st, keys) == st;
    assert keys[..m - c] == [];
    RunChargeNone(Stats(4, 2, 2), false, st.stats, c);
  }

  /** One insert below capacity in front of a run whose added keys are known. */
  lemma InsertKeysStep(st: BzState, k: Key, r: BzState, added: seq<Key>)
    requires st.node.Valid() && st.node.count < CAP && r.node.Valid()
    requires BzInsert(st, k).node.Valid()
    requires Extends(false, BzInsert(st, k).node.Live(), r.node.Live(), added)
    ensures Extends(false, st.node.Live(), r.node.Live(), [k] + added)
  {
    BzInsertEffect(st, k);
    ExtendsChain(false, st.node.Live(), BzInsert(st, k).node.Live(), r.node.Live(), [k], added);
  }

  /** A run on a leaf with room: its first insert, then the rest. */
  lemma {:induction false} RunStep(st: BzState, keys: seq<Key>, c: nat, m: nat)
    requires st.node.Valid() && c == st.node.count < CAP && m == Min(CAP, c + |keys|) && |keys| > 0
    requires BzInsert(st, keys[0]).node.Valid()
    requires RunResult(BzInsert(st, keys[0]), keys[1..], BzInsertAll(BzInsert(st, keys[0]), keys[1..]), c + 1, m)
    ensures RunResult(st, keys, BzInsertAll(st, keys), c, m)
  {
    var st1 := BzInsert(st, keys[0]);
    var r := BzInsertAll(st1, keys[1..]);
    KeysStep(st, keys, r, c, m);
    ChargeStep(st.stats, st1.stats, r.stats, c, m);
    assert BzInsertAll(st, keys) == r;
  }

  /** The keys of one stored key in front of a run whose keys are known. */
  lemma KeysStep(st: BzState, keys: seq<Key>, r: BzState, c: nat, m: nat)
    requires st.node.Valid() && c == st.node.count < CAP && c < m <= c + |keys|
    requires r.node.Valid() && BzInsert(st, keys[0]).node.Valid()
    requires Extends(false, BzInsert(st, keys[0]).node.Live(), r.node.Live(), keys[1..][..m - (c + 1)])
    ensures Extends(false, st.node.Live(), r.node.Live(), keys[..m - c])
  {
    TakeCons(keys, m - c, m - (c + 1));
    InsertKeysStep(st, keys[0], r, keys[1..][..m - (c + 1)]);
  }

  /** The charge of one stored key in front of a run whose charge is known. */
  lemma ChargeStep(s: Stats, s1: Stats, r: Stats, c: nat, m: nat)
    requires c < m && s1 == Add(s, Stats(4, 2, 2))
    requires RunCharge(Stats(4, 2, 2), false, s1, r, c + 1, m)
    ensures RunCharge(Stats(4, 2, 2), false, s, r, c, m)
  {
    RunChargeStep(Stats(4, 2, 2), false, s, s1, r, c, m);
  }

  /** A run that takes a valid leaf from fill level `c` to `m` appends
      exactly the first `m - c` keys of the run, drops the rest, and charges
      (4, 2, 2) per stored key. */
  lemma {:induction false} BzRun(st: BzState, keys: seq<Key>, c: nat, m: nat)
    requires st.node.Valid() && c == st.node.count && m == Min(CAP, c + |keys|)
    ensures RunResult(st, keys, BzInsertAll(st, keys), c, m)
    decreases |keys|
  {
    if |keys| == 0 || c == CAP {
      NoRoomRun(st, keys, c, m);
    } else {
      var st1 := BzInsert(st, keys[0]);
      BzInsertEffect(st, keys[0]);
      assert st1.node.Valid() && st1.node.count == c + 1 && |keys[1..]| == |keys| - 1;
      BzRun(st1, keys[1..], c + 1, m);
      RunStep(st, keys, c, m);
    }
  }

  /** `main`: a fresh leaf whose array holds arbitrary words, the prefill,
      then the benchmark inserts, all on one meter. */
  function RunHarness(garbage: seq<Key>, prefill: seq<Key>, bench: seq<Key>): BzState
  {
    BzInsertAll(BzInsertAll(BzState(Node(garbage, 0), Zero), prefill), bench)
  }

  /** The benchmark of `main`: 22 prefill keys and 100000 inserts fill the
      leaf with the first 32 keys in arrival order, whatever the array held
      before; the meter reads (128, 64, 64): 32 stored keys at (4, 2, 2). */
  lemma {:induction false} HarnessResult(garbage: seq<Key>, prefill: seq<Key>, bench: seq<Key>)
    requires |garbage| == CAP && |prefill| == PREFILL && |bench| == OPS
    ensures var r := RunHarness(garbage, prefill, bench);
      && r.node.Valid()
      && r.node.count == CAP
      && r.node.Live().keys == (prefill + bench)[..CAP]
      && r.stats == Stats(128, 64, 64)
  {
    var st := BzState(Node(garbage, 0), Zero);
    BzInsertAllAppend(st, prefill, bench);
    FillFromEmpty(st, prefill + bench);
  }

  /** Any run of at least 32 keys fills a valid empty leaf with its first 32
      in arrival order, at (4, 2, 2) each. */
  lemma {:induction false} FillFromEmpty(st: BzState, keys: seq<Key>)
    requires st.node.Valid() && st.node.count == 0 && |keys| >= CAP
    ensures var r := BzInsertAll(st, keys);
      && r.node.Valid()
      && r.node.count == CAP
      && r.node.Live().keys == keys[..CAP]
      && r.stats == Add(st.stats, Stats(128, 64, 64))
  {
    BzRun(st, keys, 0, CAP);
    assert st.node.Live().keys == [];
  }

  /** The check after the benchmark: of the first 5000 benchmark keys, at
      least the 10 that went into the leaf are found. */
  lemma {:induction false} SampleHits(garbage: seq<Key>, prefill: seq<Key>, bench: seq<Key>)
    requires |garbage| == CAP && |prefill| == PREFILL && |bench| == OPS
    ensures RunHarness(garbage, prefill, bench).node.Valid()
    ensures Hits(RunHarness(garbage, prefill, bench).node.Live(), bench[..SAMPLE]) >= CAP - PREFILL
  {
    var n := RunHarness(garbage, prefill, bench).node;
    HarnessResult(garbage, prefill, bench);
    forall i | 0 <= i < CAP - PREFILL
      ensures bench[..SAMPLE][i] in n.Live().keys
    {
      assert n.Live().keys[PREFILL + i] == (prefill + bench)[PREFILL + i] == bench[i];
    }
    HitsOfHeldPrefix(n.Live(), bench[..SAMPLE], CAP - PREFILL);
  }
}
