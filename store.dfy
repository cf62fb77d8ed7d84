/** The ordered key-value store, abstracted as a finite map, and its atomic
    write batches of Put and Merge operations. */
module Store {
  import opened Wrappers
  import opened DbKv
  import opened MergeOperator

  type Db = map<Key, Value>

  /** One operation of a write batch. */
  datatype Op = MergeOp(key: Key, value: Value) | PutOp(key: Key, value: Value)

  function Get(db: Db, key: Key): Option<Value>
  {
    if key in db then Some(db[key]) else None
  }

  /** A Put overwrites; a Merge goes through the merge hook, and a declined
      merge fails the operation. */
  function ApplyOp(db: Db, op: Op): Option<Db>
  {
    match op
    case PutOp(k, v) => Some(db[k := v])
    case MergeOp(k, v) =>
      match Merge(k, Get(db, k), v)
      case Merged(nv) => Some(db[k := nv])
      case Declined => None
  }

  /** A write batch applies all of its operations in order, or none of them. */
  function ApplyBatch(db: Db, ops: seq<Op>): Option<Db>
    decreases |ops|
  {
    if ops == [] then Some(db)
    else
      match ApplyOp(db, ops[0])
      case None => None
      case Some(next) => ApplyBatch(next, ops[1..])
  }

  /** Every Merge of the batch is on a key kind the hook accepts. */
  predicate MergesAccepted(ops: seq<Op>)
  {
    forall i :: 0 <= i < |ops| && ops[i].MergeOp? ==> Mergeable(ops[i].key)
  }

  /** A batch commits exactly when the hook accepts all of its merges;
      otherwise nothing of it is applied. */
  lemma {:induction false} ApplyBatchCommits(db: Db, ops: seq<Op>)
    ensures ApplyBatch(db, ops).Some? <==> MergesAccepted(ops)
    decreases |ops|
  {
    if ops != [] {
      var first := ApplyOp(db, ops[0]);
      if first.Some? {
        ApplyBatchCommits(first.value, ops[1..]);
        assert MergesAccepted(ops) <==> MergesAccepted(ops[1..]) by {
          forall i | 1 <= i < |ops| ensures ops[i] == ops[1..][i - 1] { }
        }
      } else {
        assert ops[0].MergeOp? && !Mergeable(ops[0].key);
      }
    }
  }

  /** The operations of a batch that touch `key`, in batch order. */
  function OpsOn(ops: seq<Op>, key: Key): (r: seq<Op>)
    ensures forall i :: 0 <= i < |r| ==> r[i].key == key
    decreases |ops|
  {
    if ops == [] then []
    else (if ops[0].key == key then [ops[0]] else []) + OpsOn(ops[1..], key)
  }

  /** The effect of one operation on the value of its own key. */
  function StepValue(key: Key, current: Option<Value>, op: Op): Option<Value>
  {
    match op
    case PutOp(_, v) => Some(v)
    case MergeOp(_, v) =>
      match Merge(key, current, v)
      case Merged(nv) => Some(nv)
      case Declined => current
  }

  /** The effect of a sequence of operations on the value of one key. */
  function ApplyToValue(key: Key, current: Option<Value>, ops: seq<Op>): Option<Value>
    decreases |ops|
  {
    if ops == [] then current else ApplyToValue(key, StepValue(key, current, ops[0]), ops[1..])
  }

  lemma {:induction false} OpsOnAppend(a: seq<Op>, b: seq<Op>, key: Key)
    ensures OpsOn(a + b, key) == OpsOn(a, key) + OpsOn(b, key)
    decreases |a|
  {
    if a == [] {
      assert a + b == b;
    } else {
      assert (a + b)[1..] == a[1..] + b;
      OpsOnAppend(a[1..], b, key);
    }
  }

  lemma {:induction false} ApplyToValueAppend(key: Key, current: Option<Value>, a: seq<Op>, b: seq<Op>)
    ensures ApplyToValue(key, current, a + b) == ApplyToValue(key, ApplyToValue(key, current, a), b)
    decreases |a|
  {
    if a == [] {
      assert a + b == b;
    } else {
      assert (a + b)[1..] == a[1..] + b;
      ApplyToValueAppend(key, StepValue(key, current, a[0]), a[1..], b);
    }
  }

  /** The value a committed batch leaves under a key depends only on the
      operations on that key, applied in batch order to its old value. */
  lemma {:induction false} ApplyBatchAt(db: Db, ops: seq<Op>, key: Key)
    requires MergesAccepted(ops)
    ensures ApplyBatch(db, ops).Some?
    ensures Get(ApplyBatch(db, ops).value, key) == ApplyToValue(key, Get(db, key), OpsOn(ops, key))
    decreases |ops|
  {
    ApplyBatchCommits(db, ops);
    if ops != [] {
      var next := ApplyOp(db, ops[0]).value;
      assert MergesAccepted(ops[1..]) by {
        forall i | 0 <= i < |ops| - 1 && ops[1..][i].MergeOp? ensures Mergeable(ops[1..][i].key) {
          assert ops[1..][i] == ops[i + 1];
        }
      }
      ApplyBatchAt(next, ops[1..], key);
      if ops[0].key == key {
        assert Get(next, key) == StepValue(key, Get(db, key), ops[0]);
        assert OpsOn(ops, key) == [ops[0]] + OpsOn(ops[1..], key);
        assert ([ops[0]] + OpsOn(ops[1..], key))[1..] == OpsOn(ops[1..], key);
      } else {
        assert Get(next, key) == Get(db, key);
        assert OpsOn(ops, key) == OpsOn(ops[1..], key);
      }
    }
  }

  /** Two Puts leave their keys holding their values, the second winning. */
  lemma ApplyTwoPuts(db: Db, k1: Key, v1: Value, k2: Key, v2: Value)
    ensures ApplyBatch(db, [PutOp(k1, v1), PutOp(k2, v2)]) == Some(db[k1 := v1][k2 := v2])
  {
    var ops := [PutOp(k1, v1), PutOp(k2, v2)];
    assert ops[1..] == [PutOp(k2, v2)];
    assert ops[1..][1..] == [];
    assert ApplyBatch(db[k1 := v1][k2 := v2], []) == Some(db[k1 := v1][k2 := v2]);
    assert ApplyBatch(db[k1 := v1], [PutOp(k2, v2)]) == Some(db[k1 := v1][k2 := v2]);
  }
}
