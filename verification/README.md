# Persistent-memory B+-tree leaf cost model

The repository simulates how much persistent-memory traffic different B+-tree
leaf designs cause. Every design is a leaf (a fixed 32- or 128-slot array with
a `count`, or an unbounded `std::vector`) with an `insert` that places a key
and charges a meter of three counters: word writes (`Nw`), cache-line flushes
(`Nclf`) and memory fences (`Nmf`). Each design also has a `search` that
answers membership and charges nothing. Small drivers fold inserts and
searches over key streams and report the counters.

This project models all of that as pure functions over immutable values and
proves what the designs promise:

- the keys an insert leaves behind, and the exact charge it adds;
- that a full array leaf ignores inserts;
- that searches answer membership;
- the final counters of every driver, in closed form.

Modules:

- `Meter`: the `Stats` record, `pcm_write`/`pcm_flush`/`pcm_fence`, and
  `RunCharge`, the closed-form charge bound for a run of inserts.
- `Keys`: keys, sortedness, the insert position, and the sorted insert with
  its characterisation as the unique sorted result.
- `Algorithms`: the source's loops, verified against `Keys`:
  - the scan plus tail shift;
  - the `lo`/`hi` binary search;
  - `std::lower_bound`;
  - the linear scan.
- `Leaves`: a leaf's live keys and the `Extends` relation ("exactly these keys
  were added, order kept").
- `Workload`: a mixed workload's operation stream.
- `VectorLeaf`: the unbounded vector leaves and the shared `run_mixed_workload`
  fold.
- One module per source file:
  - `WbTree` for `src/article2_wbtree.cpp`;
  - `WbTreeMixed` for `src/article2_extension.cpp`;
  - `SortedUnsorted` for `src/article1_sorted_unsorted.cpp`;
  - `SortedUnsortedMixed` for `src/article1_extension.cpp`;
  - `BzTree` for `src/article3_bztree.cpp`, including the toy PMwCAS;
  - `BzTreeMixed` for `src/article3_extension.cpp`.

The inserts of `src/article1_sorted_unsorted.cpp` charge process-wide globals.
Here they take and return an explicit `Stats`. The other files already pass a
`Stats&`, which becomes an argument and part of the result.

## Model

| member | source | states |
|---|---|---|
| Meter.Write | src/article2_wbtree.cpp:17 | The definition of `pcm_write(s, words)`, and of the global `pcm_write()` at `src/article1_sorted_unsorted.cpp:13` with one word. `Meter.PrimitivesAreIncrements` states its effect. |
| Meter.Flush | src/article2_wbtree.cpp:18 | The definition of `pcm_flush`, in both files' forms. `Meter.PrimitivesAreIncrements` states its effect. |
| Meter.Fence | src/article2_wbtree.cpp:19 | The definition of `pcm_fence`, in both files' forms. `Meter.PrimitivesAreIncrements` states its effect. |
| Meter.PrimitivesAreIncrements | src/article2_wbtree.cpp:17-19 | `pcm_write(s, w)` adds `w` word writes. `pcm_flush` adds one flush and `pcm_fence` one fence. Each touches only its own counter and never decreases anything. |
| Meter.TimesClosedForm | src/article2_extension.cpp:89-104 | `n` inserts of fixed cost `c` add `n * c` on every counter. |
| Meter.TimesSplit | src/article2_extension.cpp:89-104 | The charge of `m + n` equal inserts is the charge of `m` plus the charge of `n`: the prefill and the timed loop add up. |
| Meter.TimesMonotone | src/article2_extension.cpp:89-104 | A per-insert charge that is no larger on every counter stays no larger over any number of inserts. |
| Meter.RunChargeStep | src/article2_wbtree.cpp:35-41 | Take one insert at fill level `c` that pays the fixed charge plus at most `c` shift writes, followed by a run whose charge from `c + 1` to `m` is bounded. The whole run from `c` to `m` then satisfies the same closed-form bound. |
| Keys.InsertPos | src/article2_wbtree.cpp:31-32 | The position scan stops at the first index whose key is not less than `k`: every earlier key is smaller, and the key there (if any) is at least `k`. |
| Keys.InsertPosUnique | src/article2_extension.cpp:21 | Any index with those two properties is that position. So on a sorted leaf, the scan and `std::lower_bound` pick the same slot. |
| Keys.InsertAt | src/article2_wbtree.cpp:35-39 | The tail shift and the store: `k` lands at `p`, keys before `p` stay put, keys from `p` on move one slot right. The content grows by exactly `k`. |
| Keys.SortedInsert | src/article2_wbtree.cpp:31-40 | A sorted insert adds one entry. The new keys are the old keys plus `k` (as a multiset, and for membership in both directions). Sortedness is preserved. |
| Keys.InsertAtPosKeepsOrder | src/article2_wbtree.cpp:31-40 | Putting `k` at the scanned position keeps a sorted leaf sorted. |
| Keys.SortedArrangementUnique | src/article2_extension.cpp:21-22 | Two sorted arrangements of the same keys are the same sequence. |
| Keys.SortedInsertCharacterized | src/article2_wbtree.cpp:31-40 | The sorted insert is the only sorted sequence that holds the old keys plus `k`. |
| Algorithms.ShiftInsert | src/article2_wbtree.cpp:31-41 | The scan loop and the back-to-front shift loop produce exactly the sorted insert. They charge `count - pos + 1` writes: one per shifted key and one for the new key. |
| Algorithms.BinarySearch | src/article2_wbtree.cpp:45-55 | On sorted live keys, the `lo`/`hi` binary search returns true exactly when `k` is present. |
| Algorithms.LowerBound | src/article2_extension.cpp:30 | On sorted keys, `std::lower_bound` returns exactly the first index whose key is not less than `k`. |
| Algorithms.SortedContains | src/article2_extension.cpp:29-32 | On sorted keys, `lower_bound` followed by the equality test returns true exactly when `k` is present. |
| Algorithms.LinearSearch | src/article2_wbtree.cpp:120-125 | The linear scan returns true exactly when `k` is among the live keys, on any leaf. |
| Leaves.ExtendsChain | src/article2_wbtree.cpp:133-134 | Two consecutive insert runs add exactly both runs' keys. Order is kept by an ordered leaf; an unordered leaf appends in arrival order. |
| Leaves.Hits | src/article1_sorted_unsorted.cpp:113-116 | The `hits` counter of the sample searches (also `src/article3_bztree.cpp:124-126`) never exceeds the number of searched keys. |
| Leaves.HitsOfHeldPrefix | src/article1_sorted_unsorted.cpp:113-116 | If the leaf holds each of the first `n` searched keys, `hits` is at least `n`. |
| Workload.WriteKeys | src/article2_extension.cpp:95-104 | The keys the timed loop inserts: at most one per operation, each from a write operation. None if every operation is a search; all of them if every operation is a write. |
| Workload.WriteKeysCount | src/article2_extension.cpp:95-104 | The timed loop inserts exactly as many keys as the stream has operations whose drawn ratio made them writes. |
| Workload.WriteKeysComplete | src/article2_extension.cpp:99-100 | No write is dropped: the key of every write operation is among the inserted keys. |
| VectorLeaf.Insert | src/article1_extension.cpp:22-52 | The definition of one vector insert: `lower_bound` + `insert` or `push_back`, plus the design's fixed charge. `VectorLeaf.InsertExtends` states what it adds. |
| VectorLeaf.Search | src/article2_extension.cpp:29-32 | On a sorted vector, `lower_bound` plus the comparison finds `k` exactly when it is present. The sorted leaves of `src/article1_extension.cpp:54-61` and `src/article3_extension.cpp:32-35` search with the same code. |
| VectorLeaf.InsertAll | src/article1_extension.cpp:82-84 | The definition of the prefill loop, a fold of `Insert`. `VectorLeaf.InsertAllStats` and `VectorLeaf.InsertAllKeys` state its effect. |
| VectorLeaf.RunOps | src/article1_extension.cpp:88-97 | The definition of the timed loop over the operation stream. `VectorLeaf.RunOpsStats` and `VectorLeaf.RunOpsKeys` state its effect. |
| VectorLeaf.RunMixed | src/article1_extension.cpp:70-106 | The definition of `run_mixed_workload`: fresh leaf and meter, prefill, then the timed loop. `VectorLeaf.MixedStats`, `VectorLeaf.MixedKeys` and `VectorLeaf.MixedSize` state its result. |
| VectorLeaf.InsertExtends | src/article1_extension.cpp:22-52 | A vector insert adds exactly its key. `lower_bound` + `insert` keeps a sorted vector sorted, and `push_back` appends. |
| VectorLeaf.InsertAllStats | src/article1_extension.cpp:82-84 | The prefill loop charges the per-insert cost once per key. |
| VectorLeaf.InsertAllKeys | src/article1_extension.cpp:82-84 | The prefill loop adds exactly the prefill keys. |
| VectorLeaf.RunOpsStats | src/article1_extension.cpp:88-97 | In the timed loop only write operations are charged, each at the per-insert cost. Searches charge nothing. |
| VectorLeaf.RunOpsKeys | src/article1_extension.cpp:88-97 | In the timed loop only write operations change the leaf, which gains exactly the written keys. |
| VectorLeaf.MixedStats | src/article1_extension.cpp:70-106 | A whole `run_mixed_workload` ends with the per-insert cost times (prefill keys + write operations). |
| VectorLeaf.MixedKeys | src/article1_extension.cpp:70-106 | A whole run ends with the leaf holding exactly the prefill keys and the written keys. |
| VectorLeaf.MixedSameLeaf | src/article2_extension.cpp:78-113 | Two variants that place keys the same way end every run with the same leaf, whatever they charge. |
| VectorLeaf.MixedCostOrder | src/article2_extension.cpp:78-113 | A variant whose per-insert charge is no larger on every counter ends every run with counters no larger. |
| VectorLeaf.MixedClosedForm | src/article3_extension.cpp:62-97 | The final counters are, counter by counter, the per-insert charge multiplied by (prefill keys + write operations). |
| VectorLeaf.MixedSize | src/article3_extension.cpp:62-97 | The vector leaves have no capacity: after a run the leaf holds one entry per prefill key and write operation. |
| WbTree.Insert | src/article2_wbtree.cpp:29-118 | On a full leaf, all three designs change neither keys, count nor counters. Below capacity, each adds one key and its own charge. |
| WbTree.ChargeBounds | src/article2_wbtree.cpp:35-41 | Per design, flushes and fences are fixed: (0, 0), (2, 2) or (1, 1). The shifting designs pay 1 or 5 writes plus one per shifted key, at most one per live key. `LeafWBTree` always pays 2 writes. |
| WbTree.InsertExtends | src/article2_wbtree.cpp:29-118 | Below capacity an insert adds exactly `k`. The shift designs keep the leaf sorted and put `k` at the scanned position. `LeafWBTree` writes `k` at slot `count` and leaves earlier slots unchanged. |
| WbTree.LoggedMatchesVolatile | src/article2_wbtree.cpp:63-86 | The logging leaf ends with the same keys and count as the volatile one. It pays exactly 4 more writes, 2 more flushes and 2 more fences. |
| WbTree.OrderedInsertIsTheSortedLeaf | src/article2_wbtree.cpp:31-40 | The shift designs build the unique sorted leaf holding the old keys plus `k`. |
| WbTree.Search | src/article2_wbtree.cpp:45-55 | On the shift designs' sorted leaves the binary search finds `k` exactly when it is present. `LeafWBTree`'s linear scan (lines 120-125) does the same on any leaf. |
| WbTree.FullLeafIgnoresInserts | src/article2_wbtree.cpp:30 | Any run of inserts into a full leaf leaves keys, count and counters unchanged. |
| WbTree.InsertAll | src/article2_wbtree.cpp:129-138 | The definition of the insert loop of `run_insert_benchmark`, and of the prefill loops in `main`. `WbTree.InsertAllKeys` and `WbTree.InsertAllCost` state its effect. |
| WbTree.RunHarness | src/article2_wbtree.cpp:161-192 | The definition of one design's block in `main`: fresh leaf and `Stats`, prefill, benchmark. `WbTree.HarnessKeys` and `WbTree.HarnessCost` state its result. |
| WbTree.InsertAllAppend | src/article2_wbtree.cpp:163-166 | The prefill loop followed by the benchmark loop is one insert run over both key lists. |
| WbTree.InsertAllKeys | src/article2_wbtree.cpp:129-138 | A run taking the leaf from fill level `c` to `m`, the smaller of 32 and `c` plus the run's length, adds exactly the first `m - c` keys of the run and ignores the rest. |
| WbTree.InsertCostBounds | src/article2_wbtree.cpp:35-41 | One insert below capacity adds the fixed flushes and fences exactly. Its writes lie between the fixed writes and the fixed writes plus the fill level. |
| WbTree.InsertAllCost | src/article2_wbtree.cpp:129-138 | A run from fill level `c` to `m` charges the fixed part once per stored key on every counter. The shifting designs pay at most `c + ... + (m - 1)` more writes. |
| WbTree.HarnessIsOneRun | src/article2_wbtree.cpp:163-166 | A design's run in `main` is one insert run over the prefill keys followed by the benchmark keys. |
| WbTree.HarnessKeys | src/article2_wbtree.cpp:142-188 | After 22 prefill keys and 100000 benchmark keys, every design's leaf is full with the first 32 keys offered. The shift designs hold them sorted; `LeafWBTree` holds them in arrival order. |
| WbTree.FillFromEmpty | src/article2_wbtree.cpp:129-138 | Any run of at least 32 keys fills an empty leaf with its first 32 keys: sorted for the shift designs, in arrival order for `LeafWBTree`. |
| WbTree.VolatileFillCost | src/article2_wbtree.cpp:161-170 | Filling an empty volatile leaf costs no flush and no fence, and 32 to 528 writes. |
| WbTree.LoggedFillCost | src/article2_wbtree.cpp:172-181 | Filling an empty logging leaf costs 64 flushes and 64 fences, and 160 to 656 writes. |
| WbTree.IndirectFillCost | src/article2_wbtree.cpp:183-192 | Filling an empty `LeafWBTree` costs exactly (64, 32, 32), whatever the keys. |
| WbTree.HarnessCost | src/article2_wbtree.cpp:140-192 | The counters each design reports: `LeafWBTree` (64, 32, 32) exactly. The volatile and logging leaves get exact flush/fence counts and the write ranges above. |
| SortedUnsorted.InsertSorted | src/article1_sorted_unsorted.cpp:24-37 | On a full leaf `insert_sorted` changes nothing. Otherwise the count grows by one and the counters by (count - pos + 1, 1, 1). |
| SortedUnsorted.InsertSortedExtends | src/article1_sorted_unsorted.cpp:26-33 | Below capacity `insert_sorted` adds exactly `k`, keeps the leaf sorted and puts `k` at the scanned position. |
| SortedUnsorted.InsertSortedInPlace | src/article1_sorted_unsorted.cpp:24-37 | Running the scan and shift loops, charging one write per iteration, gives exactly the leaf and counters of `InsertSorted`. |
| SortedUnsorted.InsertUnsorted | src/article1_sorted_unsorted.cpp:40-46 | On a full leaf `insert_unsorted` changes nothing. Otherwise it stores `k` at slot `count`, keeps the earlier keys in place and charges (1, 1, 1). |
| SortedUnsorted.SortedCostsAtLeastUnsorted | src/article1_sorted_unsorted.cpp:24-46 | Below capacity both inserts end with the same keys. The sorted one never costs less, and writes strictly more exactly when it has to shift. |
| SortedUnsorted.SearchLeaf | src/article1_sorted_unsorted.cpp:49-54 | `search_leaf` returns true exactly when the target is among the live keys. |
| SortedUnsorted.InsertSortedAll | src/article1_sorted_unsorted.cpp:97 | The definition of the sorted benchmark loop, a fold of `insert_sorted`. `SortedUnsorted.SortedRunKeys` and `SortedUnsorted.SortedRunCost` state its effect. |
| SortedUnsorted.FullLeafIgnoresInserts | src/article1_sorted_unsorted.cpp:25 | Any run of sorted inserts into a full leaf changes nothing. |
| SortedUnsorted.SortedRunKeys | src/article1_sorted_unsorted.cpp:93-97 | A sorted run from fill level `c` to `m`, the smaller of 128 and `c` plus the run's length, adds exactly the first `m - c` keys, keeps the leaf sorted and ignores the rest. |
| SortedUnsorted.SortedRunCost | src/article1_sorted_unsorted.cpp:93-97 | That run charges exactly one flush and one fence per stored key. It charges at least one and at most `fill level + 1` writes per stored key. |
| SortedUnsorted.InsertSortedAt | src/article1_sorted_unsorted.cpp:26-36 | With `p` the scanned position: below capacity the leaf becomes `keys[..p] + [k] + keys[p..]` and pays `count - p + 1` writes. |
| SortedUnsorted.WorkedExample | src/article1_sorted_unsorted.cpp:24-37 | Inserting 5, 3, 8, 1 into an empty leaf gives [1, 3, 5, 8] and adds (8, 4, 4) to any counters. A search then finds 3 and not 9. |
| SortedUnsorted.SortedBenchmark | src/article1_sorted_unsorted.cpp:93-97 | 50000 benchmark keys fill a fresh leaf with the first 128 keys, sorted. That adds exactly 128 flushes and 128 fences and between 128 and 8256 writes. |
| SortedUnsorted.SampleHits | src/article1_sorted_unsorted.cpp:112-116 | Searching the first 5000 benchmark keys in the sorted leaf hits at least the 128 keys stored. |
| SortedUnsorted.HeldSampleHits | src/article1_sorted_unsorted.cpp:112-116 | A leaf holding the first 128 benchmark keys answers at least 128 of the first 5000 searches. |
| SortedUnsorted.NewIndex | src/article1_sorted_unsorted.cpp:60 | `SimpleBPlusTree(n)` has `n` leaves, all empty. |
| SortedUnsorted.TreeInsert | src/article1_sorted_unsorted.cpp:62-65 | A tree insert changes only leaf `key % leaves.size()`, exactly as `insert_unsorted` on that leaf would. Every other leaf is unchanged. |
| SortedUnsorted.Size | src/article1_sorted_unsorted.cpp:67-71 | `size()` adds up the leaf counts. It is 0 exactly when every leaf is empty. |
| SortedUnsorted.SizeUpdate | src/article1_sorted_unsorted.cpp:67-71 | Replacing one leaf changes `size()` by the difference of the two counts. |
| SortedUnsorted.TreeInsertSize | src/article1_sorted_unsorted.cpp:62-71 | `size()` grows by one, and the counters by (1, 1, 1), exactly when the target leaf had room. Otherwise neither changes. |
| SortedUnsorted.TreeInsertKeepsRouted | src/article1_sorted_unsorted.cpp:62-65 | A tree insert keeps the tree routed: every key sits in leaf `key % n` and no leaf is over capacity. |
| SortedUnsorted.EmptyTree | src/article1_sorted_unsorted.cpp:60 | A tree of empty leaves, such as a new one, is routed and has size 0. |
| SortedUnsorted.RoutedLookup | src/article1_sorted_unsorted.cpp:62-65 | In a routed tree a key is stored somewhere exactly when it is in the leaf it routes to. |
| SortedUnsorted.TreeInsertAll | src/article1_sorted_unsorted.cpp:84-86 | The prefill loop keeps the number of leaves. |
| SortedUnsorted.TreeInsertAllSize | src/article1_sorted_unsorted.cpp:82-86 | The prefill loop keeps the tree routed and raises `size()` by at most one per key. It charges exactly (1, 1, 1) per key stored. |
| SortedUnsorted.TreeRunFromEmpty | src/article1_sorted_unsorted.cpp:82-86 | From a tree that holds nothing, a run of tree inserts adds (s, s, s) to the counters, with `s` the keys it stored, at most one per insert. |
| SortedUnsorted.TreePrefillCounters | src/article1_sorted_unsorted.cpp:82-86 | From an empty tree on fresh counters, the prefill leaves the counters at (s, s, s), with `s` the size, at most the number of prefill keys. |
| SortedUnsorted.TreeInsertAllLeaves | src/article1_sorted_unsorted.cpp:62-65 | Where a run of tree inserts puts the keys does not depend on the counters it charges. |
| SortedUnsorted.TreeBench | src/article1_sorted_unsorted.cpp:103 | The tree benchmark loop, with its extra `pcm_write()` per key, ends with exactly the tree a plain run of tree inserts builds. |
| SortedUnsorted.TreeBenchCost | src/article1_sorted_unsorted.cpp:103 | The tree benchmark keeps the tree routed and stores at most one key per insert. It charges (1, 1, 1) per stored key plus one write per key, stored or not. |
| SortedUnsorted.TreeBenchCounters | src/article1_sorted_unsorted.cpp:100-104 | The same charges, counted on the meter the tree benchmark inherits from the sorted benchmark before it. |
| SortedUnsorted.MainRun | src/article1_sorted_unsorted.cpp:74-104 | `main` up to its report: prefill, sorted benchmark, tree benchmark. The final tree is the prefilled tree plus a plain run of the benchmark keys, and the baseline leaf holds the smaller of 128 and the number of benchmark keys, sorted. |
| SortedUnsorted.SortedRowCounters | src/article1_sorted_unsorted.cpp:74-124 | The counters of the `sorted` row. The prefill stores `s1` keys and the tree benchmark `s2` more. Flushes and fences are `s1 + 128 + s2`, and writes lie between `s1 + 128 + s2 + 50000` and `s1 + 8256 + s2 + 50000`. |
| SortedUnsorted.Quarter | src/article1_sorted_unsorted.cpp:125 | The `unsorted` row's `/4` on each unsigned counter rounds down: four times the result is at most the counter and more than the counter minus 4. |
| SortedUnsorted.UnsortedRowCounters | src/article1_sorted_unsorted.cpp:125 | The `unsorted` row reports a quarter of `stored + 128` flushes and fences, rounded down, where `stored` is the tree's final size. Its writes are a quarter of a value between `stored + 50128` and `stored + 58256`. |
| SortedUnsortedMixed.UnsortedAppends | src/article1_extension.cpp:22-28 | `UnsortedLeaf::insert` appends `k` after all earlier keys and charges (1, 1, 1). |
| SortedUnsortedMixed.SortedInserts | src/article1_extension.cpp:44-52 | `SortedLeaf::insert` adds exactly `k`, keeps the vector sorted and charges (4, 2, 1). |
| SortedUnsortedMixed.SortedCostsAtLeastUnsorted | src/article1_extension.cpp:22-52 | After the same insert both leaves hold the same keys, and the sorted leaf costs at least as much on every counter. |
| SortedUnsortedMixed.UnsortedSearch | src/article1_extension.cpp:30-37 | The linear scan finds `k` exactly when it is present. |
| SortedUnsortedMixed.MixedContents | src/article1_extension.cpp:70-106 | After a run the unsorted leaf is the prefill keys followed by the written keys. The sorted leaf holds the same keys, sorted, one entry per insert. |
| SortedUnsortedMixed.MixedCounters | src/article1_extension.cpp:70-110 | With 5000 prefill keys, 100000 operations and `w` writes, `n = 5000 + w`. The unsorted leaf ends at (n, n, n) and the sorted one at (4n, 2n, n). `n` is at most 105000. |
| SortedUnsortedMixed.ReadOnlyCounters | src/article1_extension.cpp:88-97 | When every operation is a search, only the prefill is charged: (5000, 5000, 5000) and (20000, 10000, 5000). |
| SortedUnsortedMixed.MixedSortedCostsMore | src/article1_extension.cpp:70-106 | Over any run the sorted leaf costs at least as much as the unsorted one on every counter. |
| WbTreeMixed.InsertsKeepOrder | src/article2_extension.cpp:20-65 | The three inserts add exactly `k` and keep the vector sorted. They charge (4, 2, 1), (8, 4, 2) and (2, 1, 1). |
| WbTreeMixed.SameLeafAsBaseline | src/article2_extension.cpp:39-46 | The logging and wB+-tree leaves build exactly the baseline's vector from the same key. |
| WbTreeMixed.InsertCostOrder | src/article2_extension.cpp:24-64 | Per insert, wB+-tree ≤ baseline ≤ logging on every counter, and logging costs strictly more than baseline on all three. |
| WbTreeMixed.MixedContents | src/article2_extension.cpp:78-113 | After any run the three leaves are the same sorted vector of the prefill and written keys. |
| WbTreeMixed.MixedCostChain | src/article2_extension.cpp:78-113 | Over any run, wB+-tree ≤ baseline ≤ logging on every counter. |
| WbTreeMixed.MixedCounters | src/article2_extension.cpp:78-117 | With `n = 5000 + w` inserts, the final counters are (4n, 2n, n), (8n, 4n, 2n) and (2n, n, n). |
| BzTreeMixed.InsertsKeepOrder | src/article3_extension.cpp:23-49 | Both inserts add exactly `k`, keep the vector sorted and build the same vector. They charge (3, 3, 2) and (4, 2, 1). |
| BzTreeMixed.InsertCostTradeOff | src/article3_extension.cpp:27-48 | Per insert, the BzTree leaf writes strictly less but flushes and fences strictly more than the simple leaf. |
| BzTreeMixed.MixedContents | src/article3_extension.cpp:62-97 | After any run both leaves are the same sorted vector, one entry per prefill key and write operation. |
| BzTreeMixed.MixedCounters | src/article3_extension.cpp:62-101 | With `n = 5000 + w` inserts the counters are (3n, 3n, 2n) and (4n, 2n, n). So the BzTree leaf writes less but flushes and fences more. |
| BzTree.Store | src/article3_bztree.cpp:49 | Storing an entry's new value puts it at its target word and leaves every other word as it was. The slot array keeps its size. |
| BzTree.ApplyEntries | src/article3_bztree.cpp:48-51 | The update loop keeps the slot array's size. |
| BzTree.Pmwcas | src/article3_bztree.cpp:34-57 | `pmwcas` always reports success and charges exactly 2 writes plus one per entry, 2 flushes and 2 fences. |
| BzTree.ApplyInOrder | src/article3_bztree.cpp:48-51 | Running the loop entry by entry gives the in-order fold and charges one write per entry. |
| BzTree.ApplyFrame | src/article3_bztree.cpp:48-51 | A word that no entry targets keeps its value. |
| BzTree.ApplyDisjoint | src/article3_bztree.cpp:48-51 | With pairwise different targets inside the node, every target ends up holding its entry's new value. |
| BzTree.PmwcasEffect | src/article3_bztree.cpp:34-57 | With disjoint targets, `pmwcas` succeeds and charges 2 writes plus one per entry, 2 flushes and 2 fences. Every target holds its new value and every other word is unchanged. |
| BzTree.InsertDescriptor | src/article3_bztree.cpp:75-78 | The insert's descriptor has exactly two entries: first `k` into slot `count`, then the count word set to `count + 1`. On a 32-slot leaf the two targets are distinct words of the leaf. |
| BzTree.BzInsert | src/article3_bztree.cpp:72-81 | On a full leaf nothing changes and nothing is charged. Otherwise one `pmwcas` charges exactly (4, 2, 2). |
| BzTree.BzInsertEffect | src/article3_bztree.cpp:72-81 | Below capacity the insert writes `k` into slot `count` and raises `count` by one. Every other slot is unchanged, so the live keys gain `k` at the end. This is derived from `BzTree.PmwcasEffect` applied to the insert's descriptor. |
| BzTree.SearchLeaf | src/article3_bztree.cpp:86-90 | `search_leaf` returns true exactly when `k` is among the live keys. |
| BzTree.FullLeafIgnoresInserts | src/article3_bztree.cpp:73 | Any run of inserts into a full leaf changes nothing. |
| BzTree.BzInsertAll | src/article3_bztree.cpp:107-117 | The definition of the prefill and benchmark loops, a fold of `bztree_insert`. `BzTree.BzRun` states its effect. |
| BzTree.RunHarness | src/article3_bztree.cpp:95-117 | The definition of `main` up to its report: a leaf over arbitrary array contents, prefill, benchmark, one meter. `BzTree.HarnessResult` states its result. |
| BzTree.BzInsertAllAppend | src/article3_bztree.cpp:107-117 | The prefill loop followed by the benchmark loop is one insert run over both key lists. |
| BzTree.BzRun | src/article3_bztree.cpp:107-117 | A run from fill level `c` to `m` appends exactly the first `m - c` keys in arrival order, drops the rest, and charges (4, 2, 2) per stored key. |
| BzTree.FillFromEmpty | src/article3_bztree.cpp:107-117 | Any run of at least 32 keys fills a valid empty leaf with its first 32 keys in arrival order and adds (128, 64, 64). |
| BzTree.HarnessResult | src/article3_bztree.cpp:95-117 | Whatever the array held before, 22 prefill keys and 100000 inserts leave the first 32 keys offered, in arrival order. The counters read (128, 64, 64). |
| BzTree.SampleHits | src/article3_bztree.cpp:123-126 | Searching the first 5000 benchmark keys hits at least the 10 benchmark keys that went into the leaf. |

## Left out

- Timing, throughput and all output are not modelled: the clocks, `duration<double>`, `mkdir`, the CSV files and `cout`. They are wall-clock time, floating point and I/O, with no bearing on the leaves.
- The random key streams are not modelled. Each driver takes its keys as an arbitrary input sequence.
- The random write/search choice of a mixed workload (`r < write_ratio`) is an input flag on each operation.
- The counters are unbounded, so 64-bit wrap-around of the `uint64_t` counters is not modelled. The harness totals stay far below 2^64.
- The process-wide static counters of `src/article1_sorted_unsorted.cpp:12-15` are an explicit `Stats` value threaded through every insert.
- Searches take no meter, because none of them touches it.
- `Meter.Write`, `Meter.Flush` and `Meter.Fence` carry no contract of their own. `Meter.PrimitivesAreIncrements` states their effect once; a contract on each primitive would be re-derived at every charge in every proof.
- The descriptor target `(uint64_t*)&leaf.count` (`src/article3_bztree.cpp:77`) writes 8 bytes into an `int` through a pointer cast. It is modelled as an abstract count location with the intended effect `count := count + 1`. Raw memory is not modelled.
- Descriptor entries may only target the leaf's own words. A key slot past the array is not a word of the node, and storing to it changes nothing.
- The uninitialised slots of a fresh `LeafNode` in `src/article3_bztree.cpp` are an arbitrary `garbage` input. Only `keys[0..count)` is meaningful, and `HarnessResult` holds for every `garbage`.
- The two BzTree charges are kept as written in their own files: (4, 2, 2) derived from `pmwcas` in `BzTree`, and (3, 3, 2) hard-coded in `BzTreeMixed`.
- `SortedUnsorted.TreeInsert` requires at least one leaf, because the source divides by `leaves.size()`.
- WbTree.VolatileFillCost: states a write range (32 to 528) rather than one number, because the exact count depends on the order of the keys offered.
- WbTree.LoggedFillCost: states a write range (160 to 656), for the same reason.
- WbTree.HarnessCost: states the write ranges of the two shift designs for the same reason. Flush and fence counts, and all of `LeafWBTree`'s counters, are exact.
- SortedUnsorted.SortedBenchmark: states a write range (128 to 8256) for the same reason.
- SortedUnsorted.SortedRowCounters: states a write range for the same reason. The numbers of keys the tree prefill and the tree benchmark store depend on the keys, so they are variables.
- SortedUnsorted.UnsortedRowCounters: states the write quarter within a range, for the same reason.
- SortedUnsorted.SampleHits: states a lower bound on `hits` (the 128 stored keys). Duplicates among the other searched keys can add hits that depend on the keys.
- BzTree.SampleHits: states a lower bound on `hits` (10), for the same reason.
- The binary searches (`WbTree.Search` for the shift designs, and every `lower_bound` search) require a sorted leaf. Every leaf the drivers build is sorted (`WbTree.HarnessKeys`, the `MixedContents` lemmas), and on an unsorted leaf the C++ calls promise nothing.
- The vector leaves' `lower_bound` insert is modelled by the first-not-less scan. The two agree on sorted vectors (`Keys.InsertPosUnique`, `Algorithms.LowerBound`), and the drivers' vectors are always sorted.
