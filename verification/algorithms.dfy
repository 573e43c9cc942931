/** The loops the leaves run, written as the source writes them and proved
    against the functional definitions in `Keys`: the position scan plus
    tail shift of the fixed-array sorted inserts, the `lo`/`hi` binary search
    of the sorted array leaves, `std::lower_bound` with the equality test of
    the `std::vector` leaves, and the linear scan of the unsorted leaves. */
module Algorithms {
  import opened Keys

  /** Fixed-array sorted insert on the live keys `keys[0..count)`: scan to
      the first key not less than `k`, copy the tail one slot right from the
      back (one word write per copied key), store `k` (one more write).
      `writes` is the number of word writes the loop charges. */
  method ShiftInsert(keys: seq<Key>, k: Key) returns (r: seq<Key>, writes: nat)
    ensures r == SortedInsert(keys, k)
    ensures writes == |keys| - InsertPos(keys, k) + 1
  {
    var pos := 0;
    while pos < |keys| && keys[pos] < k
      invariant 0 <= pos <= |keys|
      invariant forall i :: 0 <= i < pos ==> keys[i] < k
    {
      pos := pos + 1;
    }
    InsertPosUnique(keys, k, pos);
    // Slot `count` is about to be overwritten; its old contents are never read.
    var a := keys + [k];
    var i := |keys|;
    writes := 0;
    while i > pos
      invariant pos <= i <= |keys|
      invariant |a| == |keys| + 1
      invariant forall j :: 0 <= j < i ==> a[j] == keys[j]
      invariant forall j :: i < j < |a| ==> a[j] == keys[j - 1]
      invariant writes == |keys| - i
    {
      a := a[i := a[i - 1]];
      writes := writes + 1;
      i := i - 1;
    }
    a := a[pos := k];
    writes := writes + 1;
    r := a;
    assert r == InsertAt(keys, pos, k);
  }

  /** Binary search over sorted live keys with inclusive bounds `lo`, `hi`
      and midpoint `(lo + hi) / 2`. */
  method BinarySearch(keys: seq<Key>, k: Key) returns (found: bool)
    requires Sorted(keys)
    ensures found <==> k in keys
  {
    var lo: int := 0;
    var hi: int := |keys| - 1;
    while lo <= hi
      invariant 0 <= lo <= hi + 1 <= |keys|
      invariant forall i :: 0 <= i < lo ==> keys[i] < k
      invariant forall i :: hi < i < |keys| ==> k < keys[i]
      decreases hi - lo
    {
      var mid := (lo + hi) / 2;
      if keys[mid] == k {
        return true;
      }
      if keys[mid] < k {
        lo := mid + 1;
      } else {
        hi := mid - 1;
      }
    }
    return false;
  }

  /** `std::lower_bound`: the first index whose key is not less than `k`. */
  method LowerBound(keys: seq<Key>, k: Key) returns (p: nat)
    requires Sorted(keys)
    ensures p == InsertPos(keys, k)
  {
    var lo, hi := 0, |keys|;
    while lo < hi
      invariant 0 <= lo <= hi <= |keys|
      invariant forall i :: 0 <= i < lo ==> keys[i] < k
      invariant forall i :: hi <= i < |keys| ==> k <= keys[i]
    {
      var mid := (lo + hi) / 2;
      if keys[mid] < k {
        lo := mid + 1;
      } else {
        hi := mid;
      }
    }
    InsertPosUnique(keys, k, lo);
    p := lo;
  }

  /** The `std::vector` leaves' search: `lower_bound`, then
      `it != keys.end() && *it == key`. */
  method SortedContains(keys: seq<Key>, k: Key) returns (found: bool)
    requires Sorted(keys)
    ensures found <==> k in keys
  {
    var it := LowerBound(keys, k);
    found := it < |keys| && keys[it] == k;
    if k in keys {
      var j :| 0 <= j < |keys| && keys[j] == k;
      assert it <= j && keys[it] <= keys[j];
    }
  }

  /** Linear scan over the live keys, stopping at the first match. */
  method LinearSearch(keys: seq<Key>, k: Key) returns (found: bool)
    ensures found <==> k in keys
  {
    var i := 0;
    while i < |keys|
      invariant 0 <= i <= |keys|
      invariant forall j :: 0 <= j < i ==> keys[j] != k
    {
      if keys[i] == k {
        return true;
      }
      i := i + 1;
    }
    return false;
  }
}
