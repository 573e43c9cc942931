/** A leaf node and the meter it is charged to. */
module Leaves {
  import opened Keys
  import opened Meter

  /** The live keys of a leaf: `keys[0..count)` of a fixed array, or the
      whole `std::vector`. `count` is the length of the sequence. */
  datatype Leaf = Leaf(keys: seq<Key>)
  {
    function Count(): nat
    {
      |keys|
    }
  }

  /** A leaf together with the counters of the run that owns it. */
  datatype State = State(leaf: Leaf, stats: Stats)

  /** A default-constructed leaf (`count = 0` or an empty vector) and a
      fresh meter. */
  const Start := State(Leaf([]), Zero)

  /** `after` is `before` with the keys `added` inserted: exactly those keys
      more, order kept by an ordered leaf, appended in order by an unordered one. */
  predicate Extends(ordered: bool, before: Leaf, after: Leaf, added: seq<Key>)
  {
    && |after.keys| == |before.keys| + |added|
    && multiset(after.keys) == multiset(before.keys) + multiset(added)
    && (ordered && Sorted(before.keys) ==> Sorted(after.keys))
    && (!ordered ==> after.keys == before.keys + added)
  }

  /** Two extensions in a row are one extension by both key runs. */
  lemma ExtendsChain(ordered: bool, a: Leaf, b: Leaf, c: Leaf, x: seq<Key>, y: seq<Key>)
    requires Extends(ordered, a, b, x) && Extends(ordered, b, c, y)
    ensures Extends(ordered, a, c, x + y)
  {
    assert multiset(x + y) == multiset(x) + multiset(y);
    if !ordered {
      assert c.keys == a.keys + x + y;
    }
  }

  /** How many of `targets` the leaf holds: a driver's `hits` counter after
      its sample searches. */
  function Hits(leaf: Leaf, targets: seq<Key>): (h: nat)
    ensures h <= |targets|
  {
    if |targets| == 0 then 0
    else (if targets[0] in leaf.keys then 1 else 0) + Hits(leaf, targets[1..])
  }

  /** Every target in front of `targets[n..]` that the leaf holds is a hit. */
  lemma {:induction false} HitsOfHeldPrefix(leaf: Leaf, targets: seq<Key>, n: nat)
    requires n <= |targets|
    requires forall i :: 0 <= i < n ==> targets[i] in leaf.keys
    ensures Hits(leaf, targets) >= n
    decreases n
  {
    if n > 0 {
      HitsOfHeldPrefix(leaf, targets[1..], n - 1);
    }
  }
}
