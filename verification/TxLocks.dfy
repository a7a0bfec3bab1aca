/** The lock table of one group (pkg/kv/tx.go): who holds which key, what a restart rebuilds,
    and why a prepared write set stays applicable. */
module TxLocks {
  import opened Store
  import opened TxGroup

  /** Prepared here, with no terminal marker. */
  ghost predicate Pending(g: Group, tx: TxId) {
    tx in g.prepared && tx !in g.committed && tx !in g.aborted
  }

  /** Every key has the version the write expects. */
  predicate Applies(kv: KV, writes: seq<WriteKey>) {
    forall i | 0 <= i < |writes| :: Expected(kv, Op(writes[i]))
  }

  lemma AppliesExact(kv: KV, writes: seq<WriteKey>)
    requires DistinctKeys(Ops(writes))
    ensures ApplyBatch(kv, Ops(writes)).Some? <==> Applies(kv, writes)
  {
    hide ApplyBatch, Expected;
    BatchCriterion(kv, Ops(writes));
    assert forall i | 0 <= i < |writes| :: Ops(writes)[i] == Op(writes[i]);
  }

  ghost predicate Owns(g: Group, tx: TxId)
    requires tx in g.prepared
  {
    forall k | k in Keys(g.prepared[tx].writes) :: k in g.locks && g.locks[k] == tx
  }

  /** The lock invariant. */
  ghost predicate LocksHeld(g: Group) {
    forall tx | Pending(g, tx) :: Owns(g, tx)
  }

  ghost predicate Separate(g: Group) {
    forall t, u | Pending(g, t) && Pending(g, u) && t != u :: Keys(g.prepared[t].writes) !! Keys(g.prepared[u].writes)
  }

  lemma HeldSeparate(g: Group)
    requires LocksHeld(g)
    ensures Separate(g)
  {
    forall t, u | Pending(g, t) && Pending(g, u) && t != u
      ensures Keys(g.prepared[t].writes) !! Keys(g.prepared[u].writes)
    {
      hide Keys;
      assert Owns(g, t) && Owns(g, u);
    }
  }

  ghost predicate RecordsWellFormed(g: Group) {
    && (forall tx | tx in g.prepared :: g.prepared[tx].tx == tx && DistinctKeys(Ops(g.prepared[tx].writes)))
    && (forall tx | tx in g.cache :: tx in g.prepared && g.cache[tx] == g.prepared[tx])
  }

  ghost predicate Held(g: Group) {
    RecordsWellFormed(g) && LocksHeld(g)
  }

  /** Locks are still held, whoever is pending was so before with the same record, and its
      batch applies exactly if it did before. */
  ghost predicate Steady(g: Group, g': Group) {
    && Held(g')
    && forall t | Pending(g', t) ::
         && Pending(g, t) && g'.prepared[t] == g.prepared[t]
         && (Applies(g'.kv, g.prepared[t].writes) <==> Applies(g.kv, g.prepared[t].writes))
  }

  lemma SteadyTransitive(a: Group, b: Group, c: Group)
    requires Steady(a, b) && Steady(b, c)
    ensures Steady(a, c)
  {
    hide Held, Applies;
  }

  ghost predicate Agree(a: KV, b: KV, k: Key) {
    (k in a <==> k in b) && (k in a ==> a[k] == b[k])
  }

  lemma SameCells(a: KV, b: KV, writes: seq<WriteKey>)
    requires forall k | k in Keys(writes) :: Agree(a, b, k)
    ensures Applies(a, writes) <==> Applies(b, writes)
  {
    assert forall i | 0 <= i < |writes| :: writes[i].key in Keys(writes);
  }

  lemma BatchAgrees(kv: KV, writes: seq<WriteKey>, k: Key)
    requires ApplyBatch(kv, Ops(writes)).Some? && k !in Keys(writes)
    ensures Agree(ApplyBatch(kv, Ops(writes)).value, kv, k)
  {
    assert forall i | 0 <= i < |writes| :: writes[i].key in Keys(writes);
    BatchFrame(kv, Ops(writes), k);
  }

  // ---------------------------------------------------------------- finishing a transaction

  /** Only this transaction's record goes; other keys keep their locks and cells. */
  ghost predicate Finishes(g: Group, g': Group, tx: TxId, keys: set<Key>) {
    && g.committed <= g'.committed && g.aborted <= g'.aborted
    && g'.prepared == g.prepared - {tx}
    && (forall t | t in g'.cache :: t != tx && t in g.cache && g'.cache[t] == g.cache[t])
    && (forall k | k in g.locks && k !in keys :: k in g'.locks && g'.locks[k] == g.locks[k])
    && (forall k | k !in keys :: Agree(g.kv, g'.kv, k))
  }

  lemma FinishKeeps(g: Group, g': Group, tx: TxId)
    requires Held(g) && Pending(g, tx) && Finishes(g, g', tx, Keys(g.prepared[tx].writes))
    ensures Steady(g, g')
  {
    hide Keys, Applies, DistinctKeys;
    HeldSeparate(g);
    forall t | Pending(g', t)
      ensures Pending(g, t) && Owns(g', t)
        && (Applies(g'.kv, g.prepared[t].writes) <==> Applies(g.kv, g.prepared[t].writes))
    {
      assert Pending(g, t) && Owns(g, t);
      SameCells(g.kv, g'.kv, g.prepared[t].writes);
    }
  }

  /** Executing a commit succeeds exactly if the write set applies, and disturbs nobody else. */
  lemma ExecuteCommitKeeps(g: Group, tx: TxId)
    requires Held(g) && Pending(g, tx)
    ensures Steady(g, ExecuteCommit(g, g.prepared[tx]))
    ensures tx in ExecuteCommit(g, g.prepared[tx]).committed <==> Applies(g.kv, g.prepared[tx].writes)
  {
    hide Keys, Applies, ApplyBatch, DistinctKeys;
    var rec := g.prepared[tx];
    AppliesExact(g.kv, rec.writes);
    if Applies(g.kv, rec.writes) {
      var kv' := ApplyBatch(g.kv, Ops(rec.writes)).value;
      forall k | k !in Keys(rec.writes)
        ensures Agree(g.kv, kv', k)
      {
        BatchAgrees(g.kv, rec.writes, k);
      }
      assert Finishes(g, ApplyCommit(g, rec, kv'), tx, Keys(rec.writes)) by { hide LocksHeld; }
      FinishKeeps(g, ApplyCommit(g, rec, kv'), tx);
    }
  }

  lemma ExecuteAbortKeeps(g: Group, tx: TxId)
    requires Held(g) && Pending(g, tx)
    ensures Steady(g, ExecuteAbort(g, g.prepared[tx]))
  {
    hide Keys, Applies, DistinctKeys;
    FinishKeeps(g, ExecuteAbort(g, g.prepared[tx]), tx);
  }

  // ---------------------------------------------------------------- handlers

  /** Records, markers and store as they were, and no pending transaction's lock gone. */
  lemma LocksOnly(g: Group, g': Group)
    requires Held(g) && RecordsWellFormed(g')
    requires g'.prepared == g.prepared && g'.committed == g.committed && g'.aborted == g.aborted && g'.kv == g.kv
    requires forall k | k in g.locks && Pending(g, g.locks[k]) :: k in g'.locks && g'.locks[k] == g.locks[k]
    ensures Steady(g, g')
  {
    hide Keys, Applies, DistinctKeys;
    forall t | Pending(g', t)
      ensures Owns(g', t)
    {
      assert Pending(g, t) && Owns(g, t);
    }
  }

  lemma LoadKeeps(g: Group, tx: TxId)
    requires Held(g) && tx in g.prepared
    ensures Steady(g, g.(cache := g.cache[tx := g.prepared[tx]]))
  {
    hide LocksHeld, Applies, DistinctKeys;
    LocksOnly(g, g.(cache := g.cache[tx := g.prepared[tx]]));
  }

  lemma LockedExact(locks: map<Key, TxId>, tx: TxId, writes: seq<WriteKey>)
    ensures forall k :: k in Locked(locks, tx, writes) <==> k in locks || k in Keys(writes)
    ensures forall k | k in Locked(locks, tx, writes) ::
      Locked(locks, tx, writes)[k] == if k in Keys(writes) then tx else locks[k]
    decreases |writes|
  {
    if writes != [] {
      LockedExact(locks[writes[0].key := tx], tx, writes[1..]);
      assert Keys(writes) == {writes[0].key} + Keys(writes[1..]) by { KeysSplit(writes); }
    }
  }

  lemma KeysSplit(writes: seq<WriteKey>)
    requires writes != []
    ensures Keys(writes) == {writes[0].key} + Keys(writes[1..])
  {
    var rest := writes[1..];
    assert forall i | 0 <= i < |rest| :: rest[i] == writes[i + 1];
    assert forall i | 1 <= i < |writes| :: writes[i] == rest[i - 1];
  }

  /** Resolving a lock only ever takes locks away, and none from whoever stays pending. */
  lemma ResolveLockKeeps(g: Group, tx: TxId, answers: Answers)
    requires Held(g)
    ensures Steady(g, ResolveLock(g, tx, answers).group)
    ensures var locks := ResolveLock(g, tx, answers).group.locks;
      forall k | k in locks :: k in g.locks && locks[k] == g.locks[k]
  {
    hide LocksHeld, Keys, ApplyBatch, DistinctKeys, Applies, Steady;
    if !Pending(g, tx) {
      LocksOnly(g, g.(locks := Released(g.locks, tx)));
    } else {
      LoadKeeps(g, tx);
      var loaded := g.(cache := g.cache[tx := g.prepared[tx]]);
      assert Held(loaded) by { SteadyHeld(g, loaded); }
      match QueryDecision(loaded, g.prepared[tx], answers)
      case Some(Committed) =>
        ExecuteCommitKeeps(loaded, tx);
        SteadyTransitive(g, loaded, ExecuteCommit(loaded, g.prepared[tx]));
      case Some(Aborted) =>
        ExecuteAbortKeeps(loaded, tx);
        SteadyTransitive(g, loaded, ExecuteAbort(loaded, g.prepared[tx]));
      case None =>
    }
  }

  lemma SteadyHeld(g: Group, g': Group)
    requires Steady(g, g')
    ensures Held(g')
  {}

  lemma SteadySelf(g: Group)
    requires Held(g)
    ensures Steady(g, g)
  {}

  /** When Prepare gets past its conflict loop, every key it will write is free or its own. */
  lemma {:induction false} ClearConflictsKeeps(g: Group, tx: TxId, writes: seq<WriteKey>, answers: Answers)
    requires Held(g)
    ensures var r := ClearConflicts(g, tx, writes, answers);
      && Steady(g, r.group)
      && (forall k | k in r.group.locks :: k in g.locks && r.group.locks[k] == g.locks[k])
      && (r.released ==> forall k | k in Keys(writes) :: !LockedByOther(r.group, k, tx))
    decreases |writes|
  {
    hide Held, Steady, ResolveLock, Keys;
    SteadySelf(g);
    if writes == [] {
      NoKeys();
    } else {
      KeysSplit(writes);
      if !LockedByOther(g, writes[0].key, tx) {
        ClearConflictsKeeps(g, tx, writes[1..], answers);
      } else {
        var r := ResolveLock(g, g.locks[writes[0].key], answers);
        ResolveLockKeeps(g, g.locks[writes[0].key], answers);
        SteadyHeld(g, r.group);
        ClearConflictsKeeps(r.group, tx, writes[1..], answers);
        SteadyTransitive(g, r.group, ClearConflicts(r.group, tx, writes[1..], answers).group);
      }
    }
  }

  lemma NoKeys()
    ensures Keys([]) == {}
  {}

  /** Prepare keeps the locks held, whatever versions it found, and disturbs nobody else. */
  lemma PrepareKeeps(g: Group, rec: TxRecord, answers: Answers, now: int)
    requires Held(g) && DistinctKeys(Ops(rec.writes))
    ensures var r := Prepare(g, rec, answers, now);
      && Held(r.group)
      && (r.err != OK ==> Steady(g, r.group))
      && (r.err == OK ==> rec.tx in r.group.prepared && r.group.prepared[rec.tx] == rec)
      && (forall t | t != rec.tx && Pending(r.group, t) ::
            && Pending(g, t) && r.group.prepared[t] == g.prepared[t]
            && (Applies(r.group.kv, g.prepared[t].writes) <==> Applies(g.kv, g.prepared[t].writes)))
  {
    hide Keys, Applies, DistinctKeys, ClearConflicts, ReadValid, Locked;
    ClearConflictsKeeps(g, rec.tx, rec.writes, answers);
    var c := ClearConflicts(g, rec.tx, rec.writes, answers).group;
    var r := Prepare(g, rec, answers, now);
    if r.err == OK {
      LockedExact(c.locks, rec.tx, rec.writes);
      forall t | Pending(r.group, t)
        ensures Owns(r.group, t)
      {
        if t != rec.tx {
          assert Pending(c, t) && Owns(c, t);
        }
      }
    }
  }

  /** A commit request succeeds for a pending transaction, decided if this group coordinates,
      exactly if its write set applies. */
  lemma CommitKeeps(g: Group, tx: TxId)
    requires Held(g)
    ensures Steady(g, Commit(g, tx).group)
    ensures Pending(g, tx) && !DecisionMissing(g, tx) ==>
      (Commit(g, tx).err == OK <==> Applies(g.kv, g.prepared[tx].writes))
  {
    hide LocksHeld, Keys, ApplyBatch, DistinctKeys, Locked, Applies, Steady;
    SteadySelf(g);
    if Pending(g, tx) && !DecisionMissing(g, tx) {
      var rec := g.prepared[tx];
      var loaded := if tx in g.cache then g
        else g.(cache := g.cache[tx := rec], locks := Locked(g.locks, rec.tx, rec.writes));
      assert loaded.kv == g.kv && Pending(loaded, tx) && loaded.prepared == g.prepared;
      assert Steady(g, loaded) by { RelockKeeps(g, tx); }
      SteadyHeld(g, loaded);
      ExecuteCommitKeeps(loaded, tx);
      AppliesExact(loaded.kv, rec.writes);
      SteadyTransitive(g, loaded, ExecuteCommit(loaded, rec));
    }
  }

  lemma RelockKeeps(g: Group, tx: TxId)
    requires Held(g) && Pending(g, tx)
    ensures Steady(g, g.(cache := g.cache[tx := g.prepared[tx]], locks := Locked(g.locks, tx, g.prepared[tx].writes)))
  {
    hide Applies, DistinctKeys, Locked, Keys;
    var rec := g.prepared[tx];
    LockedExact(g.locks, tx, rec.writes);
    assert Owns(g, tx);
    LocksOnly(g, g.(cache := g.cache[tx := rec], locks := Locked(g.locks, tx, rec.writes)));
  }

  lemma AbortKeeps(g: Group, tx: TxId)
    requires Held(g)
    ensures Steady(g, Abort(g, tx).group)
  {
    hide Keys, Applies, DistinctKeys;
    var g' := Abort(g, tx).group;
    if Pending(g, tx) {
      FinishKeeps(g, g', tx);
    } else if tx !in g.committed && tx !in g.aborted {
      forall t | Pending(g', t)
        ensures Owns(g', t)
      {
        assert Owns(g, t);
      }
    }
  }

  /** A change to the store that leaves locked keys alone. */
  lemma StoreKeeps(g: Group, g': Group)
    requires Held(g) && g' == g.(kv := g'.kv, history := g'.history)
    requires forall k | k in g.locks :: Agree(g.kv, g'.kv, k)
    ensures Steady(g, g')
  {
    hide Keys, Applies, DistinctKeys;
    forall t | Pending(g', t)
      ensures Owns(g', t) && (Applies(g'.kv, g.prepared[t].writes) <==> Applies(g.kv, g.prepared[t].writes))
    {
      assert Owns(g, t);
      SameCells(g.kv, g'.kv, g.prepared[t].writes);
    }
  }

  /** Expiry never touches a key that a pending transaction will write. */
  lemma {:induction false} ExpireKeeps(g: Group, keys: seq<Key>, cutoff: int)
    requires Held(g)
    ensures Steady(g, Expire(g, keys, cutoff))
    decreases |keys|
  {
    hide Held, Steady;
    SteadySelf(g);
    if keys != [] {
      var k := keys[0];
      if k in g.locks || k !in g.kv || !IsExpired(g.kv[k].expires, cutoff) {
        ExpireKeeps(g, keys[1..], cutoff);
      } else {
        var next := g.(kv := g.kv - {k}, history := g.history + [Removed(k)]);
        StoreKeeps(g, next);
        SteadyHeld(g, next);
        ExpireKeeps(next, keys[1..], cutoff);
        SteadyTransitive(g, next, Expire(next, keys[1..], cutoff));
      }
    }
  }

  // ---------------------------------------------------------------- plain writes

  /** The write changes the version of a key that the transaction will write. */
  predicate Bumps(before: KV, after: KV, key: Key, writes: seq<WriteKey>) {
    key in Keys(writes) && VersionOf(after, key) != VersionOf(before, key)
  }

  /** A write to one key leaves a write set's verdict alone exactly if it does not change the
      version of one of its keys. */
  lemma BumpsExact(before: KV, after: KV, key: Key, writes: seq<WriteKey>)
    requires Applies(before, writes) && forall k | k != key :: Agree(before, after, k)
    ensures Applies(after, writes) <==> !Bumps(before, after, key, writes)
  {
    forall i | 0 <= i < |writes|
      ensures Expected(after, Op(writes[i])) <==>
        writes[i].key != key || VersionOf(after, key) == VersionOf(before, key)
    {
      assert Expected(before, Op(writes[i]));
      if writes[i].key != key {
        assert Agree(before, after, writes[i].key);
      }
    }
    if Bumps(before, after, key, writes) {
      var i :| 0 <= i < |writes| && writes[i].key == key;
      assert !Expected(after, Op(writes[i]));
    }
    assert forall i | 0 <= i < |writes| :: writes[i].key in Keys(writes);
  }

  /** Put and Delete leave every lock where it is. */
  lemma PlainKeeps(g: Group, g': Group)
    requires Held(g) && g' == g.(kv := g'.kv, history := g'.history)
    ensures Held(g')
  {
    hide Keys, DistinctKeys;
    forall t | Pending(g', t)
      ensures Owns(g', t)
    {
      assert Owns(g, t);
    }
  }
}
