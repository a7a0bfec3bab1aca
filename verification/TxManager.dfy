/** TxManager (pkg/kv/tx.go) as it runs: records in the store, lock table and cache in memory,
    changed step by step. Each method is proved against the handler of the same name; taking
    and dropping the mutex inside one is not modelled. */
module TxManager {
  import opened Options
  import opened Store
  import opened TxGroup

  lemma KeysSnoc(writes: seq<WriteKey>, i: nat)
    requires i < |writes|
    ensures Keys(writes[..i + 1]) == Keys(writes[..i]) + {writes[i].key}
  {
    var a, b := writes[..i], writes[..i + 1];
    assert forall j | 0 <= j < |a| :: a[j] == b[j];
    assert b[i] == writes[i];
    forall k | k in Keys(b)
      ensures k in Keys(a) + {writes[i].key}
    {
      var j :| 0 <= j < |b| && b[j].key == k;
      if j < i {
        assert a[j].key == k;
      }
    }
    forall k | k in Keys(a)
      ensures k in Keys(b)
    {
      var j :| 0 <= j < |a| && a[j].key == k;
      assert b[j].key == k;
    }
  }

  lemma {:induction false} LockedSnoc(locks: map<Key, TxId>, tx: TxId, writes: seq<WriteKey>, w: WriteKey)
    ensures Locked(locks, tx, writes + [w]) == Locked(locks, tx, writes)[w.key := tx]
    decreases |writes|
  {
    var all := writes + [w];
    if writes == [] {
      assert all[1..] == [];
    } else {
      assert all[1..] == writes[1..] + [w];
      LockedSnoc(locks[writes[0].key := tx], tx, writes[1..], w);
    }
  }

  lemma {:induction false} RebuildSnoc(g: Group, records: seq<TxRecord>, rec: TxRecord, answers: Answers)
    ensures RebuildAll(g, records + [rec], answers) == RebuildOne(RebuildAll(g, records, answers), rec, answers)
    decreases |records|
  {
    hide RebuildOne;
    var all := records + [rec];
    if records == [] {
      assert all[1..] == [];
    } else {
      assert all[1..] == records[1..] + [rec];
      RebuildSnoc(RebuildOne(g, records[0], answers), records[1..], rec, answers);
    }
  }

  lemma NothingRebuilt(g: Group, answers: Answers)
    ensures RebuildAll(g, [], answers) == g
  {}

  /** The scan so far: every record not in rest, once. */
  ghost predicate Visits(records: map<TxId, TxRecord>, rest: set<TxId>, order: seq<TxRecord>) {
    && (forall i | 0 <= i < |order| ::
          order[i].tx in records && records[order[i].tx] == order[i] && order[i].tx !in rest)
    && (forall i, j | 0 <= i < j < |order| :: order[i].tx != order[j].tx)
    && (forall tx | tx in records && tx !in rest :: exists i :: 0 <= i < |order| && order[i].tx == tx)
  }

  lemma VisitsMore(records: map<TxId, TxRecord>, rest: set<TxId>, order: seq<TxRecord>, tx: TxId)
    requires Visits(records, rest, order) && tx in rest && tx in records && records[tx].tx == tx
    ensures Visits(records, rest - {tx}, order + [records[tx]])
  {
    var more := order + [records[tx]];
    forall t | t in records && t !in rest - {tx}
      ensures exists i :: 0 <= i < |more| && more[i].tx == t
    {
      if t == tx {
        assert more[|order|].tx == t;
      } else {
        var i :| 0 <= i < |order| && order[i].tx == t;
        assert more[i].tx == t;
      }
    }
  }

  class Manager {
    const groupID: int
    // in the store
    var kv: KV
    var prepared: map<TxId, TxRecord>
    var committed: set<TxId>
    var aborted: set<TxId>
    var decisions: map<TxId, DecisionRecord>
    // in memory
    var lockTable: map<Key, TxId>
    var preparedTxs: map<TxId, TxRecord>
    // what was done to the store
    ghost var history: seq<Event>

    ghost function View(): (g: Group)
      reads this
    {
      Group(groupID, kv, prepared, committed, aborted, decisions, lockTable, preparedTxs, history)
    }

    constructor (groupID: int)
      ensures View() == Group(groupID, map[], map[], {}, {}, map[], map[], map[], [])
    {
      this.groupID := groupID;
      kv, prepared, committed, aborted, decisions := map[], map[], {}, {}, map[];
      lockTable, preparedTxs, history := map[], map[], [];
    }

    /** The shared tail of a commit: drop the keys' locks whoever holds them. */
    method DropLocks(writes: seq<WriteKey>)
      modifies this`lockTable
      ensures lockTable == old(lockTable) - Keys(writes)
    {
      for i := 0 to |writes|
        invariant lockTable == old(lockTable) - Keys(writes[..i])
      {
        KeysSnoc(writes, i);
        lockTable := lockTable - {writes[i].key};
      }
      assert writes[..|writes|] == writes;
    }

    method TakeLocks(tx: TxId, writes: seq<WriteKey>)
      modifies this`lockTable
      ensures lockTable == Locked(old(lockTable), tx, writes)
    {
      for i := 0 to |writes|
        invariant lockTable == Locked(old(lockTable), tx, writes[..i])
      {
        LockedSnoc(old(lockTable), tx, writes[..i], writes[i]);
        assert writes[..i + 1] == writes[..i] + [writes[i]];
        lockTable := lockTable[writes[i].key := tx];
      }
      assert writes[..|writes|] == writes;
    }

    /** releaseLocksForTxLocked: walk the table in any order. */
    method ReleaseLocks(tx: TxId)
      modifies this`lockTable
      ensures lockTable == Released(old(lockTable), tx)
    {
      var rest := lockTable.Keys;
      while rest != {}
        invariant rest <= old(lockTable).Keys
        invariant lockTable == map k | k in old(lockTable) && (k in rest || old(lockTable)[k] != tx) ::
          old(lockTable)[k]
        decreases |rest|
      {
        var k :| k in rest;
        if lockTable[k] == tx {
          lockTable := lockTable - {k};
        }
        rest := rest - {k};
      }
    }

    method ExecuteCommit(rec: TxRecord)
      modifies this
      ensures View() == TxGroup.ExecuteCommit(old(View()), rec)
    {
      var batch := BuildOps(rec.writes);
      var r := WriteBatch(kv, batch);
      if r == None {
        return;
      }
      kv, committed, history := r.value, committed + {rec.tx}, history + [Applied(rec.tx, rec.writes)];
      DropLocks(rec.writes);
      preparedTxs := preparedTxs - {rec.tx};
      prepared := prepared - {rec.tx};
    }

    method BuildOps(writes: seq<WriteKey>) returns (ops: seq<WriteOp>)
      ensures ops == Ops(writes)
    {
      ops := [];
      for i := 0 to |writes|
        invariant |ops| == i && forall j | 0 <= j < i :: ops[j] == Op(writes[j])
      {
        var w := writes[i];
        ops := ops + [WriteOp(w.key, w.value, w.version, 0, w.isDelete)];
      }
    }

    method ExecuteAbort(rec: TxRecord)
      modifies this
      ensures View() == TxGroup.ExecuteAbort(old(View()), rec)
    {
      aborted := aborted + {rec.tx};
      DropLocks(rec.writes);
      preparedTxs := preparedTxs - {rec.tx};
      prepared := prepared - {rec.tx};
    }

    method QueryDecision(rec: TxRecord, answers: Answers) returns (d: Option<Decision>)
      ensures d == TxGroup.QueryDecision(View(), rec, answers)
    {
      if rec.coordinator == groupID {
        if rec.tx in decisions {
          return Some(decisions[rec.tx].decision);
        }
        return None;
      }
      if rec.tx in answers {
        return Some(answers[rec.tx]);
      }
      return None;
    }

    method ResolveLock(tx: TxId, answers: Answers) returns (released: bool)
      modifies this
      ensures Resolved(View(), released) == TxGroup.ResolveLock(old(View()), tx, answers)
    {
      if tx in committed {
        ReleaseLocks(tx);
        return true;
      }
      if tx in aborted {
        ReleaseLocks(tx);
        return true;
      }
      if tx !in preparedTxs {
        if tx !in prepared {
          ReleaseLocks(tx);
          return true;
        }
        preparedTxs := preparedTxs[tx := prepared[tx]];
      }
      assert preparedTxs == old(preparedTxs)[tx := preparedTxs[tx]];
      var rec := preparedTxs[tx];
      var d := QueryDecision(rec, answers);
      if d == Some(Committed) {
        ExecuteCommit(rec);
        return true;
      }
      if d == Some(Aborted) {
        ExecuteAbort(rec);
        return true;
      }
      return false;
    }

    method ClearConflicts(tx: TxId, writes: seq<WriteKey>, answers: Answers) returns (clear: bool)
      modifies this
      ensures Resolved(View(), clear) == TxGroup.ClearConflicts(old(View()), tx, writes, answers)
    {
      assert writes[0..] == writes;
      for i := 0 to |writes|
        invariant TxGroup.ClearConflicts(View(), tx, writes[i..], answers) ==
          TxGroup.ClearConflicts(old(View()), tx, writes, answers)
      {
        assert writes[i..][1..] == writes[i + 1..];
        var key := writes[i].key;
        if key in lockTable && lockTable[key] != tx {
          var released := ResolveLock(lockTable[key], answers);
          if !released {
            return false;
          }
          if key in lockTable && lockTable[key] != tx {
            return false;
          }
        }
      }
      return true;
    }

    method Prepare(rec: TxRecord, answers: Answers, now: int) returns (err: Err)
      modifies this
      ensures Replied(View(), err) == TxGroup.Prepare(old(View()), rec, answers, now)
    {
      var clear := ClearConflicts(rec.tx, rec.writes, answers);
      if !clear {
        return TxConflict;
      }
      for i := 0 to |rec.readSet|
        modifies {}
        invariant forall j | 0 <= j < i :: ReadValid(kv, rec.readSet[j], now)
      {
        var r := rec.readSet[i];
        var present, version := r.key in kv, VersionOf(kv, r.key);
        if present && IsExpired(kv[r.key].expires, now) {
          present, version := false, 0;
        }
        if (!present && r.expected != 0) || (present && r.expected != version) {
          assert !ReadValid(kv, rec.readSet[i], now);
          return TxConflict;
        }
      }
      TakeLocks(rec.tx, rec.writes);
      prepared := prepared[rec.tx := rec];
      preparedTxs := preparedTxs[rec.tx := rec];
      return OK;
    }

    method RecordDecision(tx: TxId, d: DecisionRecord) returns (err: Err)
      modifies this`decisions
      ensures Replied(View(), err) == TxGroup.RecordDecision(old(View()), tx, d)
    {
      if tx in decisions {
        if decisions[tx].decision == d.decision {
          return OK;
        }
        return TxConflict;
      }
      decisions := decisions[tx := d];
      return OK;
    }

    method Commit(tx: TxId) returns (err: Err)
      modifies this
      ensures Replied(View(), err) == TxGroup.Commit(old(View()), tx)
    {
      if tx in committed {
        return OK;
      }
      if tx in aborted {
        return TxConflict;
      }
      if tx in prepared && |prepared[tx].participants| > 0 && groupID == prepared[tx].coordinator {
        if tx !in decisions || decisions[tx].decision != Committed {
          return TxConflict;
        }
      }
      if tx !in preparedTxs {
        if tx !in prepared {
          return TxNotFound;
        }
        preparedTxs := preparedTxs[tx := prepared[tx]];
        TakeLocks(prepared[tx].tx, prepared[tx].writes);
      }
      var rec := preparedTxs[tx];
      var batch := BuildOps(rec.writes);
      var r := WriteBatch(kv, batch);
      if r == None {
        return TxConflict;
      }
      kv, committed, history := r.value, committed + {rec.tx}, history + [Applied(rec.tx, rec.writes)];
      DropLocks(rec.writes);
      preparedTxs := preparedTxs - {rec.tx};
      prepared := prepared - {rec.tx};
      return OK;
    }

    method Abort(tx: TxId) returns (err: Err)
      modifies this
      ensures Replied(View(), err) == TxGroup.Abort(old(View()), tx)
    {
      if tx in committed {
        return TxConflict;
      }
      if tx in aborted {
        return OK;
      }
      aborted := aborted + {tx};
      if tx in preparedTxs {
        var writes := preparedTxs[tx].writes;
        for i := 0 to |writes|
          modifies this`lockTable
          invariant lockTable == map k | k in old(lockTable) && !(k in Keys(writes[..i]) && old(lockTable)[k] == tx) ::
            old(lockTable)[k]
        {
          KeysSnoc(writes, i);
          var key := writes[i].key;
          if key in lockTable && lockTable[key] == tx {
            lockTable := lockTable - {key};
          }
        }
        assert writes[..|writes|] == writes;
        preparedTxs := preparedTxs - {tx};
      }
      assert preparedTxs == old(preparedTxs) - {tx};
      prepared := prepared - {tx};
      return OK;
    }

    /** Rebuild after a restart, visiting the records in the order reported. */
    method RebuildLockTable(answers: Answers) returns (ghost order: seq<TxRecord>)
      requires forall tx | tx in prepared :: prepared[tx].tx == tx
      modifies this
      ensures IsScan(old(View()), order)
      ensures View() == Restart(old(View()), order, answers)
    {
      hide RebuildAll, RebuildOne;
      lockTable, preparedTxs := map[], map[];
      var records := prepared;
      var rest := records.Keys;
      order := [];
      assert RebuildAll(View(), order, answers) == View() by { NothingRebuilt(View(), answers); }
      while rest != {}
        invariant rest <= records.Keys && Visits(records, rest, order)
        invariant View() == RebuildAll(Forget(old(View())), order, answers)
        decreases |rest|
      {
        var tx :| tx in rest;
        RebuildRecord(records[tx], answers);
        RebuildSnoc(Forget(old(View())), order, records[tx], answers);
        VisitsMore(records, rest, order, tx);
        order := order + [records[tx]];
        rest := rest - {tx};
      }
    }

    method RebuildRecord(rec: TxRecord, answers: Answers)
      modifies this
      ensures View() == RebuildOne(old(View()), rec, answers)
    {
      if rec.tx in committed {
        prepared := prepared - {rec.tx};
        return;
      }
      if rec.tx in aborted {
        prepared := prepared - {rec.tx};
        return;
      }
      var d := QueryDecision(rec, answers);
      if d == Some(Committed) {
        ExecuteCommit(rec);
        return;
      }
      if d == Some(Aborted) {
        ExecuteAbort(rec);
        return;
      }
      TakeLocks(rec.tx, rec.writes);
      preparedTxs := preparedTxs[rec.tx := rec];
    }

    /** doExpire: candidate keys one by one, leaving locked keys alone; reports the removed. */
    method ExpireKeys(keys: seq<Key>, cutoff: int) returns (expired: seq<Key>)
      modifies this`kv, this`history
      ensures View() == Expire(old(View()), keys, cutoff)
      ensures forall k :: k in expired <==>
        k in keys && k in old(kv) && k !in lockTable && IsExpired(old(kv)[k].expires, cutoff)
      ensures kv == map k | k in old(kv) && k !in expired :: old(kv)[k]
    {
      assert keys[0..] == keys;
      expired := [];
      for i := 0 to |keys|
        invariant Expire(View(), keys[i..], cutoff) == Expire(old(View()), keys, cutoff)
        invariant forall k ::
          k in expired <==> k in keys[..i] && k in old(kv) && k !in lockTable && IsExpired(old(kv)[k].expires, cutoff)
        invariant kv == map k | k in old(kv) && k !in expired :: old(kv)[k]
      {
        assert keys[i..][1..] == keys[i + 1..];
        assert keys[..i + 1] == keys[..i] + [keys[i]];
        if keys[i] !in lockTable && keys[i] in kv && IsExpired(kv[keys[i]].expires, cutoff) {
          kv, history := kv - {keys[i]}, history + [Removed(keys[i])];
          expired := expired + [keys[i]];
        }
      }
      assert keys[..|keys|] == keys;
    }
  }
}
