/** The key-value store (pkg/storage/store.go): single-key and batched compare-and-set on
    versions. A batch runs in one database transaction, so a failure changes nothing. */
module Store {
  import opened Options

  type Key = string

  /** kvEntry: expires 0 means never, otherwise an absolute time. */
  datatype Cell = Cell(value: string, version: nat, expires: int)

  type KV = map<Key, Cell>

  datatype WriteOp = WriteOp(key: Key, value: string, expected: nat, expires: int, isDelete: bool)

  function VersionOf(kv: KV, key: Key): (v: nat) {
    if key in kv then kv[key].version else 0
  }

  /** The version check of one batch operation: an absent key must be expected at 0. */
  predicate Expected(kv: KV, op: WriteOp) {
    if op.key in kv then kv[op.key].version == op.expected else op.expected == 0
  }

  function Effect(kv: KV, op: WriteOp): (r: KV) {
    if op.isDelete then kv - {op.key}
    else kv[op.key := Cell(op.value, VersionOf(kv, op.key) + 1, op.expires)]
  }

  /** writeBatchWithCASInTxn: each check sees the writes before it. */
  function ApplyBatch(kv: KV, ops: seq<WriteOp>): (r: Option<KV>)
    decreases |ops|
  {
    if ops == [] then Some(kv)
    else if !Expected(kv, ops[0]) then None
    else ApplyBatch(Effect(kv, ops[0]), ops[1..])
  }

  predicate DistinctKeys(ops: seq<WriteOp>) {
    forall i, j | 0 <= i < j < |ops| :: ops[i].key != ops[j].key
  }

  /** A batch over distinct keys succeeds exactly when each key has its expected version in
      the store it starts from; it then writes those keys and no others. */
  lemma {:induction false} BatchCriterion(kv: KV, ops: seq<WriteOp>)
    requires DistinctKeys(ops)
    ensures ApplyBatch(kv, ops).Some? <==> forall i | 0 <= i < |ops| :: Expected(kv, ops[i])
    ensures ApplyBatch(kv, ops).Some? ==>
      var kv' := ApplyBatch(kv, ops).value;
      && (forall i | 0 <= i < |ops| ::
            if ops[i].isDelete then ops[i].key !in kv'
            else ops[i].key in kv' && kv'[ops[i].key] == Cell(ops[i].value, ops[i].expected + 1, ops[i].expires))
      && (forall k | (forall i | 0 <= i < |ops| :: ops[i].key != k) ::
            (k in kv' <==> k in kv) && (k in kv ==> kv'[k] == kv[k]))
    decreases |ops|
  {
    if ops != [] {
      var first, rest := ops[0], ops[1..];
      var mid := Effect(kv, first);
      BatchCriterion(mid, rest);
      assert forall i | 0 <= i < |rest| :: rest[i] == ops[i + 1] && (Expected(mid, rest[i]) <==> Expected(kv, rest[i]));
      if Expected(kv, first) {
        assert forall i | 1 <= i < |ops| :: ops[i] == rest[i - 1];
      }
    }
  }

  /** Keys a batch does not mention keep their cells, whatever the keys' order. */
  lemma {:induction false} BatchFrame(kv: KV, ops: seq<WriteOp>, k: Key)
    requires ApplyBatch(kv, ops).Some? && forall i | 0 <= i < |ops| :: ops[i].key != k
    ensures var kv' := ApplyBatch(kv, ops).value; (k in kv' <==> k in kv) && (k in kv ==> kv'[k] == kv[k])
    decreases |ops|
  {
    if ops != [] {
      BatchFrame(Effect(kv, ops[0]), ops[1..], k);
    }
  }

  /** The batch loop. */
  method WriteBatch(kv: KV, ops: seq<WriteOp>) returns (r: Option<KV>)
    ensures r == ApplyBatch(kv, ops)
  {
    var txn := kv;
    assert ops[0..] == ops;
    for i := 0 to |ops|
      invariant ApplyBatch(txn, ops[i..]) == ApplyBatch(kv, ops)
    {
      var op := ops[i];
      assert ops[i..][1..] == ops[i + 1..];
      if op.isDelete {
        if op.key !in txn {
          if op.expected != 0 {
            return None;
          }
          assert txn - {op.key} == txn;
        } else {
          if txn[op.key].version != op.expected {
            return None;
          }
          txn := txn - {op.key};
        }
      } else {
        if op.key !in txn {
          if op.expected != 0 {
            return None;
          }
          txn := txn[op.key := Cell(op.value, 1, op.expires)];
        } else {
          if txn[op.key].version != op.expected {
            return None;
          }
          txn := txn[op.key := Cell(op.value, txn[op.key].version + 1, op.expires)];
        }
      }
    }
    return Some(txn);
  }

  // ---------------------------------------------------------------- single keys

  predicate IsExpired(expires: int, now: int) {
    expires > 0 && expires <= now
  }

  /** A key that is present and not past its expiry. */
  predicate Live(kv: KV, key: Key, now: int) {
    key in kv && !IsExpired(kv[key].expires, now)
  }

  datatype PutStatus = PutOk | NoKey | VersionMismatch

  datatype PutResult = PutResult(kv: KV, oldValue: string, status: PutStatus)

  /** PutCASWithTTL */
  function PutCAS(kv: KV, key: Key, value: string, expected: nat, expires: int, now: int): (r: PutResult) {
    if !Live(kv, key, now) then
      if expected != 0 then PutResult(kv, "", NoKey)
      else PutResult(kv[key := Cell(value, 1, expires)], "", PutOk)
    else if kv[key].version != expected then PutResult(kv, "", VersionMismatch)
    else PutResult(kv[key := Cell(value, expected + 1, expires)], kv[key].value, PutOk)
  }

  /** A put takes effect exactly when the caller knows the key's current version, counting
      an expired key as absent; it then raises the version by one and touches no other key. */
  lemma PutCASExact(kv: KV, key: Key, value: string, expected: nat, expires: int, now: int)
    ensures var r := PutCAS(kv, key, value, expected, expires, now);
      && (r.status == PutOk <==> expected == (if Live(kv, key, now) then kv[key].version else 0))
      && (r.status == PutOk ==> r.kv[key] == Cell(value, expected + 1, expires) && r.kv - {key} == kv - {key})
      && (r.status != PutOk ==> r.kv == kv)
  {
    var r := PutCAS(kv, key, value, expected, expires, now);
    assert r.kv - {key} == kv - {key};
  }

  /** doDelete on an owned shard: an absent or expired key is left as it is. */
  function DeleteKey(kv: KV, key: Key, now: int): (r: KV) {
    if Live(kv, key, now) then kv - {key} else kv
  }

  /** After a delete no reader sees the key, and every other key is as before; a key past its
      expiry stays in the store. */
  lemma DeleteExact(kv: KV, key: Key, now: int)
    ensures var r := DeleteKey(kv, key, now);
      && r - {key} == kv - {key}
      && (key in r <==> key in kv && 0 < kv[key].expires <= now) && (key in r ==> r[key] == kv[key])
  {
    assert DeleteKey(kv, key, now) - {key} == kv - {key};
  }
}
