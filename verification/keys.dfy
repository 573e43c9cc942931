/** Keys and the sorted insert that every ordered leaf performs: the
    fixed-array variants scan for the first key not less than the new one and
    shift the tail right; the `std::vector` variants call `std::lower_bound`
    and `vector::insert`. On a sorted leaf both land on the same index. */
module Keys {

  /** A `uint64_t` key. Duplicates are allowed. */
  type Key = k: nat | k < 0x1_0000_0000_0000_0000

  /** The smaller of two counts: how far a run can fill a leaf of fixed
      capacity. */
  function Min(a: nat, b: nat): nat
  {
    if a <= b then a else b
  }

  /** Keys in non-decreasing order. */
  predicate Sorted(s: seq<Key>)
  {
    forall i, j :: 0 <= i < j < |s| ==> s[i] <= s[j]
  }

  /** The index of the first key that is not less than `k`, or `|s|` when
      every key is less than `k`. */
  function InsertPos(s: seq<Key>, k: Key): (p: nat)
    ensures p <= |s|
    ensures forall i :: 0 <= i < p ==> s[i] < k
    ensures p < |s| ==> k <= s[p]
  {
    if |s| == 0 || k <= s[0] then 0 else 1 + InsertPos(s[1..], k)
  }

  /** Any index with the two defining properties of `InsertPos` is it. */
  lemma InsertPosUnique(s: seq<Key>, k: Key, q: nat)
    requires q <= |s|
    requires forall i :: 0 <= i < q ==> s[i] < k
    requires q < |s| ==> k <= s[q]
    ensures q == InsertPos(s, k)
  {
  }

  /** `s` with `k` placed at index `p` and the tail from `p` moved one slot right. */
  function InsertAt(s: seq<Key>, p: nat, k: Key): (r: seq<Key>)
    requires p <= |s|
    ensures |r| == |s| + 1
    ensures r[p] == k
    ensures forall i :: 0 <= i < p ==> r[i] == s[i]
    ensures forall i :: p < i < |r| ==> r[i] == s[i - 1]
    ensures multiset(r) == multiset(s) + multiset{k}
  {
    assert s == s[..p] + s[p..];
    s[..p] + [k] + s[p..]
  }

  /** The sorted insert: `k` goes in front of the first key not less than it. */
  function SortedInsert(s: seq<Key>, k: Key): (r: seq<Key>)
    ensures |r| == |s| + 1
    ensures multiset(r) == multiset(s) + multiset{k}
    ensures forall x :: x in r <==> x in s || x == k
    ensures Sorted(s) ==> Sorted(r)
  {
    var r := InsertAt(s, InsertPos(s, k), k);
    assert forall x :: x in r <==> x in multiset(r);
    assert forall x :: x in s <==> x in multiset(s);
    if Sorted(s) then
      InsertAtPosKeepsOrder(s, k);
      r
    else
      r
  }

  /** Placing `k` at `InsertPos` keeps a sorted sequence sorted: everything
      before it is smaller and everything after it is at least `k`. */
  lemma InsertAtPosKeepsOrder(s: seq<Key>, k: Key)
    requires Sorted(s)
    ensures Sorted(InsertAt(s, InsertPos(s, k), k))
  {
    var p := InsertPos(s, k);
    var r := InsertAt(s, p, k);
    forall i, j | 0 <= i < j < |r|
      ensures r[i] <= r[j]
    {
      if j < p {
        assert r[i] == s[i] && r[j] == s[j];
      } else if j == p {
        assert r[i] == s[i] < k;
      } else if i == p {
        assert r[j] == s[j - 1] && s[p] <= s[j - 1];
      } else if i < p {
        assert r[i] == s[i] < k && k <= s[p] <= s[j - 1] == r[j];
      } else {
        assert r[i] == s[i - 1] && r[j] == s[j - 1];
      }
    }
  }

  /** The head of a sorted sequence is no larger than any of its keys. */
  lemma HeadIsLeast(a: seq<Key>, x: Key)
    requires Sorted(a) && x in multiset(a)
    ensures |a| > 0 && a[0] <= x
  {
    assert x in a;
  }

  /** Two sorted arrangements of the same keys are the same sequence. */
  lemma {:induction false} SortedArrangementUnique(a: seq<Key>, b: seq<Key>)
    requires Sorted(a) && Sorted(b)
    requires multiset(a) == multiset(b)
    ensures a == b
    decreases |a|
  {
    if |a| == 0 {
      assert |multiset(b)| == 0;
    } else {
      HeadIsLeast(b, a[0]);
      HeadIsLeast(a, b[0]);
      var a', b' := a[1..], b[1..];
      assert a == [a[0]] + a';
      assert b == [b[0]] + b';
      assert multiset(a') == multiset(a) - multiset{a[0]};
      assert multiset(b') == multiset(b) - multiset{b[0]};
      assert a[0] == b[0];
      assert multiset(a') == multiset(b');
      assert Sorted(a') && Sorted(b');
      SortedArrangementUnique(a', b');
    }
  }

  /** The sorted insert is the only sorted sequence holding the old keys plus
      `k`: any sorted leaf with that content equals it. */
  lemma SortedInsertCharacterized(s: seq<Key>, k: Key, t: seq<Key>)
    requires Sorted(s) && Sorted(t)
    requires multiset(t) == multiset(s) + multiset{k}
    ensures t == SortedInsert(s, k)
  {
    SortedArrangementUnique(t, SortedInsert(s, k));
  }

  /** The first `n` keys are the head followed by the first `n - 1` keys of the tail. */
  lemma TakeCons(keys: seq<Key>, n: nat, n1: nat)
    requires n == n1 + 1 <= |keys|
    ensures [keys[0]] + keys[1..][..n1] == keys[..n]
  {
  }
}
