/** The operation stream of a mixed workload. The random key and the random
    write/search decision (`r < write_ratio`) of each operation are inputs. */
module Workload {
  import opened Keys

  /** One operation: its key, and whether the drawn ratio made it an insert. */
  datatype Op = Op(key: Key, isWrite: bool)

  /** The write/search decision of every operation, in stream order. */
  function Flags(ops: seq<Op>): seq<bool>
  {
    seq(|ops|, i requires 0 <= i < |ops| => ops[i].isWrite)
  }

  /** The keys of the operations classified as writes, in stream order. */
  function WriteKeys(ops: seq<Op>): (ks: seq<Key>)
    ensures |ks| <= |ops|
    ensures forall i :: 0 <= i < |ks| ==> Op(ks[i], true) in ops
    ensures (forall i :: 0 <= i < |ops| ==> !ops[i].isWrite) ==> ks == []
    ensures (forall i :: 0 <= i < |ops| ==> ops[i].isWrite) ==> |ks| == |ops|
  {
    if |ops| == 0 then []
    else if ops[0].isWrite then [ops[0].key] + WriteKeys(ops[1..])
    else WriteKeys(ops[1..])
  }

  /** The first operation adds one write to the count exactly when it is one. */
  lemma WritesOfCons(ops: seq<Op>)
    requires |ops| > 0
    ensures multiset(Flags(ops))[true] == (if ops[0].isWrite then 1 else 0) + multiset(Flags(ops[1..]))[true]
  {
    assert Flags(ops) == [ops[0].isWrite] + Flags(ops[1..]);
  }

  /** The timed loop inserts once per write operation: as many keys as the
      stream has writes. */
  lemma {:induction false} WriteKeysCount(ops: seq<Op>)
    ensures |WriteKeys(ops)| == multiset(Flags(ops))[true]
    decreases |ops|
  {
    if |ops| > 0 {
      WritesOfCons(ops);
      WriteKeysCount(ops[1..]);
    }
  }

  /** No write is dropped: the key of every write operation is inserted. */
  lemma {:induction false} WriteKeysComplete(ops: seq<Op>)
    ensures forall i :: 0 <= i < |ops| && ops[i].isWrite ==> ops[i].key in WriteKeys(ops)
    decreases |ops|
  {
    if |ops| > 0 {
      WriteKeysComplete(ops[1..]);
      assert forall i :: 1 <= i < |ops| ==> ops[i] == ops[1..][i - 1];
    }
  }
}
