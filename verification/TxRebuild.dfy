/** RebuildLockTable (pkg/kv/tx.go:78-144): what a restart makes of every prepare record,
    whatever order the scan visits them in. */
module TxRebuild {
  import opened Options
  import opened Store
  import opened TxGroup
  import opened TxLocks

  /** Nothing is known about the outcome: the transaction stays in doubt. */
  ghost predicate InDoubt(g: Group, tx: TxId, answers: Answers) {
    Pending(g, tx) && QueryDecision(g, g.prepared[tx], answers) == None
  }

  /** The outcome is COMMITTED but the write set no longer applies. */
  ghost predicate Stuck(g: Group, tx: TxId, answers: Answers) {
    Learned(g, tx, answers, Committed) && !Applies(g.kv, g.prepared[tx].writes)
  }

  ghost predicate Learned(g: Group, tx: TxId, answers: Answers, d: Decision) {
    Pending(g, tx) && QueryDecision(g, g.prepared[tx], answers) == Some(d)
  }

  /** Not visited yet: all as before, and the same verdict on its write set. */
  ghost predicate Waiting(f: Group, g: Group, tx: TxId)
    requires tx in f.prepared
  {
    && tx in g.prepared && g.prepared[tx] == f.prepared[tx]
    && (tx in g.committed <==> tx in f.committed) && (tx in g.aborted <==> tx in f.aborted)
    && (Pending(f, tx) ==> (Applies(g.kv, f.prepared[tx].writes) <==> Applies(f.kv, f.prepared[tx].writes)))
  }

  /** Visited: settled if finished or decided, kept with its record if in doubt or stuck. */
  ghost predicate Visited(f: Group, g: Group, tx: TxId, answers: Answers)
    requires tx in f.prepared
  {
    && (tx in g.prepared <==> InDoubt(f, tx, answers) || Stuck(f, tx, answers))
    && (tx in g.prepared ==>
          g.prepared[tx] == f.prepared[tx]
            && (Applies(g.kv, f.prepared[tx].writes) <==> Applies(f.kv, f.prepared[tx].writes)))
    && (tx in g.committed <==>
          tx in f.committed || (Learned(f, tx, answers, Committed) && !Stuck(f, tx, answers)))
    && (tx in g.aborted <==>
          tx in f.aborted || Learned(f, tx, answers, Aborted))
  }

  /** Every visited in-doubt transaction is cached and holds its keys. */
  ghost predicate DoubtsLocked(f: Group, g: Group, visited: set<TxId>, answers: Answers) {
    forall tx | tx in visited && InDoubt(f, tx, answers) ::
      && tx in g.cache && g.cache[tx] == f.prepared[tx]
      && forall k | k in Keys(f.prepared[tx].writes) :: k in g.locks && g.locks[k] == tx
  }

  /** Nothing else is cached or locked. */
  ghost predicate OnlyDoubts(f: Group, g: Group, visited: set<TxId>, answers: Answers) {
    && (forall tx | tx in g.cache :: tx in visited && InDoubt(f, tx, answers))
    && (forall k | k in g.locks ::
          g.locks[k] in visited && InDoubt(f, g.locks[k], answers) && k in Keys(f.prepared[g.locks[k]].writes))
  }

  ghost predicate LocksExact(f: Group, g: Group, visited: set<TxId>, answers: Answers) {
    DoubtsLocked(f, g, visited, answers) && OnlyDoubts(f, g, visited, answers)
  }

  ghost predicate Scanned(f: Group, g: Group, visited: set<TxId>, answers: Answers) {
    && g.id == f.id && g.decisions == f.decisions
    && (forall tx | tx in g.prepared :: tx in f.prepared)
    && (forall tx | tx in f.prepared :: if tx in visited then Visited(f, g, tx, answers) else Waiting(f, g, tx))
    && (forall tx | tx !in f.prepared ::
          (tx in g.committed <==> tx in f.committed) && (tx in g.aborted <==> tx in f.aborted))
    && LocksExact(f, g, visited, answers)
  }

  ghost predicate WellFormed(f: Group) {
    && Separate(f)
    && forall tx | tx in f.prepared :: f.prepared[tx].tx == tx && DistinctKeys(Ops(f.prepared[tx].writes))
  }

  /** Every other transaction stands as it did. */
  ghost predicate SameOthers(f: Group, g: Group, r: Group, tx: TxId) {
    && r.id == g.id && r.decisions == g.decisions
    && (forall t | t != tx ::
          && (t in r.prepared <==> t in g.prepared) && (t in r.prepared ==> r.prepared[t] == g.prepared[t])
          && (t in r.committed <==> t in g.committed) && (t in r.aborted <==> t in g.aborted))
    && (forall t | t != tx && Pending(f, t) ::
          Applies(r.kv, f.prepared[t].writes) <==> Applies(g.kv, f.prepared[t].writes))
  }

  lemma VisitOne(f: Group, g: Group, r: Group, visited: set<TxId>, tx: TxId, answers: Answers)
    requires Scanned(f, g, visited, answers) && tx in f.prepared && tx !in visited && SameOthers(f, g, r, tx)
    requires Visited(f, r, tx, answers) && LocksExact(f, r, visited + {tx}, answers)
    ensures Scanned(f, r, visited + {tx}, answers)
  {
    hide LocksExact, Applies;
    forall t | t in f.prepared && t !in visited && t != tx
      ensures Waiting(f, r, t)
    {
      assert Waiting(f, g, t);
    }
    forall t | t in f.prepared && t in visited
      ensures Visited(f, r, t, answers)
    {
      assert Visited(f, g, t, answers);
    }
  }

  /** Committing a waiting transaction leaves the other waiting ones as they were. */
  lemma CommitVisit(f: Group, g: Group, visited: set<TxId>, tx: TxId, answers: Answers)
    requires WellFormed(f) && Scanned(f, g, visited, answers) && tx in f.prepared && tx !in visited
    requires Learned(f, tx, answers, Committed)
    ensures Scanned(f, ExecuteCommit(g, f.prepared[tx]), visited + {tx}, answers)
  {
    hide Keys, Applies, ApplyBatch, DistinctKeys, LocksExact;
    var rec := f.prepared[tx];
    assert Waiting(f, g, tx);
    AppliesExact(g.kv, rec.writes);
    var r := ExecuteCommit(g, rec);
    SettleVisit(f, g, r, visited, tx, answers);
    forall t | t != tx && Pending(f, t)
      ensures Applies(r.kv, f.prepared[t].writes) <==> Applies(g.kv, f.prepared[t].writes)
    {
      CommitLeaves(f, g, tx, t);
    }
    assert Visited(f, r, tx, answers);
    assert SameOthers(f, g, r, tx);
    VisitOne(f, g, r, visited, tx, answers);
  }

  lemma CommitLeaves(f: Group, g: Group, tx: TxId, t: TxId)
    requires Separate(f) && Pending(f, tx) && Pending(f, t) && t != tx
    ensures Applies(ExecuteCommit(g, f.prepared[tx]).kv, f.prepared[t].writes) <==> Applies(g.kv, f.prepared[t].writes)
  {
    hide Keys, Applies, ApplyBatch;
    var rec := f.prepared[tx];
    var kv' := ExecuteCommit(g, rec).kv;
    if ApplyBatch(g.kv, Ops(rec.writes)).Some? {
      forall k | k in Keys(f.prepared[t].writes)
        ensures Agree(g.kv, kv', k)
      {
        BatchAgrees(g.kv, rec.writes, k);
      }
      SameCells(g.kv, kv', f.prepared[t].writes);
    }
  }

  /** Dropping a transaction's keys from the table takes no lock from another. */
  lemma SettleVisit(f: Group, g: Group, g': Group, visited: set<TxId>, tx: TxId, answers: Answers)
    requires Separate(f) && LocksExact(f, g, visited, answers) && tx !in visited && Pending(f, tx)
      && !InDoubt(f, tx, answers)
    requires g'.locks == g.locks - Keys(f.prepared[tx].writes) || g'.locks == g.locks
    requires g'.cache == g.cache - {tx} || g'.cache == g.cache
    ensures LocksExact(f, g', visited + {tx}, answers)
  {
    hide Keys, Separate, QueryDecision;
    assert OnlyDoubts(f, g', visited + {tx}, answers) by { hide DoubtsLocked; }
    assert DoubtsLocked(f, g', visited + {tx}, answers) by {
      hide OnlyDoubts;
      forall t | t in visited && InDoubt(f, t, answers)
        ensures forall k | k in Keys(f.prepared[t].writes) :: k in g'.locks && g'.locks[k] == t
      {
        PendingSeparate(f, t, tx);
      }
    }
  }

  lemma AbortVisit(f: Group, g: Group, visited: set<TxId>, tx: TxId, answers: Answers)
    requires WellFormed(f) && Scanned(f, g, visited, answers) && tx in f.prepared && tx !in visited
    requires Learned(f, tx, answers, Aborted)
    ensures Scanned(f, ExecuteAbort(g, f.prepared[tx]), visited + {tx}, answers)
  {
    hide Keys, Applies, DistinctKeys, LocksExact;
    assert Waiting(f, g, tx);
    var r := ExecuteAbort(g, f.prepared[tx]);
    SettleVisit(f, g, r, visited, tx, answers);
    VisitOne(f, g, r, visited, tx, answers);
  }

  lemma DoubtVisit(f: Group, g: Group, visited: set<TxId>, tx: TxId, answers: Answers)
    requires WellFormed(f) && Scanned(f, g, visited, answers) && tx in f.prepared && tx !in visited
      && InDoubt(f, tx, answers)
    ensures Scanned(f, RebuildOne(g, f.prepared[tx], answers), visited + {tx}, answers)
  {
    hide Keys, Applies, DistinctKeys, Locked, LocksExact;
    assert Waiting(f, g, tx);
    var r := RebuildOne(g, f.prepared[tx], answers);
    DoubtLocks(f, g, r, visited, tx, answers);
    VisitOne(f, g, r, visited, tx, answers);
  }

  lemma DoubtLocks(f: Group, g: Group, r: Group, visited: set<TxId>, tx: TxId, answers: Answers)
    requires Separate(f) && LocksExact(f, g, visited, answers) && tx !in visited && InDoubt(f, tx, answers)
    requires r.locks == Locked(g.locks, tx, f.prepared[tx].writes) && r.cache == g.cache[tx := f.prepared[tx]]
    ensures LocksExact(f, r, visited + {tx}, answers)
  {
    hide Keys, Locked, Separate, QueryDecision, DoubtsLocked;
    LockedExact(g.locks, tx, f.prepared[tx].writes);
    DoubtStillLocked(f, g, r, visited, tx, answers);
  }

  lemma DoubtStillLocked(f: Group, g: Group, r: Group, visited: set<TxId>, tx: TxId, answers: Answers)
    requires Separate(f) && DoubtsLocked(f, g, visited, answers) && tx !in visited && InDoubt(f, tx, answers)
    requires r.locks == Locked(g.locks, tx, f.prepared[tx].writes) && r.cache == g.cache[tx := f.prepared[tx]]
    ensures DoubtsLocked(f, r, visited + {tx}, answers)
  {
    hide Keys, Locked, Separate, QueryDecision;
    LockedExact(g.locks, tx, f.prepared[tx].writes);
    forall t | t in visited && InDoubt(f, t, answers)
      ensures forall k | k in Keys(f.prepared[t].writes) :: k in r.locks && r.locks[k] == t
    {
      PendingSeparate(f, t, tx);
    }
  }

  lemma PendingSeparate(f: Group, t: TxId, u: TxId)
    requires Separate(f) && Pending(f, t) && Pending(f, u) && t != u
    ensures Keys(f.prepared[t].writes) !! Keys(f.prepared[u].writes)
  {}

  lemma FinishedLocks(f: Group, g: Group, r: Group, visited: set<TxId>, tx: TxId, answers: Answers)
    requires LocksExact(f, g, visited, answers) && !Pending(f, tx) && r.locks == g.locks && r.cache == g.cache
    ensures LocksExact(f, r, visited + {tx}, answers)
  {
    hide Keys, QueryDecision;
  }

  lemma FinishedVisit(f: Group, g: Group, visited: set<TxId>, tx: TxId, answers: Answers)
    requires WellFormed(f) && Scanned(f, g, visited, answers) && tx in f.prepared && tx !in visited && !Pending(f, tx)
    ensures Scanned(f, RebuildOne(g, f.prepared[tx], answers), visited + {tx}, answers)
  {
    hide Keys, Applies, DistinctKeys, QueryDecision, ExecuteCommit, ExecuteAbort, LocksExact;
    assert Waiting(f, g, tx);
    var r := RebuildOne(g, f.prepared[tx], answers);
    FinishedLocks(f, g, r, visited, tx, answers);
    VisitOne(f, g, r, visited, tx, answers);
  }

  lemma Visit(f: Group, g: Group, visited: set<TxId>, tx: TxId, answers: Answers)
    requires WellFormed(f) && Scanned(f, g, visited, answers) && tx in f.prepared && tx !in visited
    ensures Scanned(f, RebuildOne(g, f.prepared[tx], answers), visited + {tx}, answers)
  {
    hide Scanned, WellFormed, ExecuteCommit, ExecuteAbort;
    if Pending(f, tx) {
      StillPending(f, g, visited, tx, answers);
      match QueryDecision(f, f.prepared[tx], answers)
      case Some(Committed) => CommitVisit(f, g, visited, tx, answers);
      case Some(Aborted) => AbortVisit(f, g, visited, tx, answers);
      case None => DoubtVisit(f, g, visited, tx, answers);
    } else {
      FinishedVisit(f, g, visited, tx, answers);
    }
  }

  lemma StillPending(f: Group, g: Group, visited: set<TxId>, tx: TxId, answers: Answers)
    requires WellFormed(f) && Scanned(f, g, visited, answers) && tx !in visited && Pending(f, tx)
    ensures Pending(g, tx) && g.prepared[tx] == f.prepared[tx] && f.prepared[tx].tx == tx
    ensures QueryDecision(g, f.prepared[tx], answers) == QueryDecision(f, f.prepared[tx], answers)
  {
    hide LocksExact, Separate, Applies, DistinctKeys;
    assert Waiting(f, g, tx);
  }

  ghost function Ids(records: seq<TxRecord>): (r: set<TxId>) {
    set i | 0 <= i < |records| :: records[i].tx
  }

  lemma IdsSplit(records: seq<TxRecord>)
    requires records != []
    ensures Ids(records) == {records[0].tx} + Ids(records[1..])
  {
    var rest := records[1..];
    assert forall i | 0 <= i < |rest| :: rest[i] == records[i + 1];
    assert forall i | 1 <= i < |records| :: records[i] == rest[i - 1];
  }

  lemma {:induction false} VisitAll(f: Group, g: Group, visited: set<TxId>, records: seq<TxRecord>, answers: Answers)
    requires WellFormed(f) && Scanned(f, g, visited, answers)
    requires forall i | 0 <= i < |records| ::
      records[i].tx in f.prepared && f.prepared[records[i].tx] == records[i] && records[i].tx !in visited
    requires forall i, j | 0 <= i < j < |records| :: records[i].tx != records[j].tx
    ensures Scanned(f, RebuildAll(g, records, answers), visited + Ids(records), answers)
    decreases |records|
  {
    hide Scanned, WellFormed, RebuildOne;
    if records == [] {
      assert visited + Ids(records) == visited;
    } else {
      var tx, rest := records[0].tx, records[1..];
      Visit(f, g, visited, tx, answers);
      assert forall i | 0 <= i < |rest| :: rest[i] == records[i + 1];
      VisitAll(f, RebuildOne(g, records[0], answers), visited + {tx}, rest, answers);
      IdsSplit(records);
      assert visited + {tx} + Ids(rest) == visited + Ids(records);
    }
  }

  /** A restart settles every record by its markers or decision and keeps in-doubt and stuck
      ones; the lock table and the cache become exactly those of the in-doubt transactions;
      and the lock invariant holds afterwards if and only if no transaction is stuck. */
  lemma RestartExact(g: Group, records: seq<TxRecord>, answers: Answers)
    requires WellFormed(g) && IsScan(g, records)
    ensures var r := Restart(g, records, answers);
      && (forall tx | tx in g.prepared :: Visited(g, r, tx, answers))
      && LocksExact(g, r, g.prepared.Keys, answers)
      && r.prepared.Keys == (set tx | tx in g.prepared && (InDoubt(g, tx, answers) || Stuck(g, tx, answers)))
      && (LocksHeld(r) <==> forall tx | tx in g.prepared :: !Stuck(g, tx, answers))
  {
    hide *;
    var r := Restart(g, records, answers);
    ScanAll(g, records, answers);
    AllVisited(g, r, answers);
    HeldUnlessStuck(g, r, answers);
  }

  lemma ScanAll(g: Group, records: seq<TxRecord>, answers: Answers)
    requires WellFormed(g) && IsScan(g, records)
    ensures Scanned(Forget(g), Restart(g, records, answers), g.prepared.Keys, answers)
  {
    hide Applies, DistinctKeys, RebuildAll, Visited, Keys;
    var f := Forget(g);
    assert Scanned(f, f, {}, answers);
    assert WellFormed(f) by { assert forall tx :: Pending(f, tx) == Pending(g, tx); }
    VisitAll(f, f, {}, records, answers);
    assert {} + Ids(records) == g.prepared.Keys;
  }

  /** Forgetting memory changes nothing that the scan goes by. */
  lemma AllVisited(g: Group, r: Group, answers: Answers)
    requires Scanned(Forget(g), r, g.prepared.Keys, answers)
    ensures forall tx | tx in g.prepared :: Visited(g, r, tx, answers)
    ensures LocksExact(g, r, g.prepared.Keys, answers)
    ensures r.prepared.Keys == (set tx | tx in g.prepared && (InDoubt(g, tx, answers) || Stuck(g, tx, answers)))
  {
    hide Applies, Keys, DoubtsLocked, OnlyDoubts;
    var f := Forget(g);
    SameVerdicts(g, answers);
    SameLocks(g, r, answers);
    forall tx | tx in g.prepared
      ensures Visited(g, r, tx, answers)
    {
      assert Visited(f, r, tx, answers);
    }
  }

  lemma SameVerdicts(g: Group, answers: Answers)
    ensures forall tx :: InDoubt(Forget(g), tx, answers) <==> InDoubt(g, tx, answers)
    ensures forall tx :: Stuck(Forget(g), tx, answers) <==> Stuck(g, tx, answers)
  {}

  lemma SameLocks(g: Group, r: Group, answers: Answers)
    requires LocksExact(Forget(g), r, g.prepared.Keys, answers)
    ensures LocksExact(g, r, g.prepared.Keys, answers)
  {
    hide Keys, InDoubt;
    SameVerdicts(g, answers);
  }

  lemma HeldUnlessStuck(g: Group, r: Group, answers: Answers)
    requires forall tx | tx in g.prepared :: Visited(g, r, tx, answers)
    requires LocksExact(g, r, g.prepared.Keys, answers) && forall tx | tx in r.prepared :: tx in g.prepared
    ensures LocksHeld(r) <==> forall tx | tx in g.prepared :: !Stuck(g, tx, answers)
  {
    forall tx | tx in g.prepared && Stuck(g, tx, answers)
      ensures !LocksHeld(r)
    {
      assert Visited(g, r, tx, answers) && Pending(r, tx);
      var writes := g.prepared[tx].writes;
      assert writes != [];
      assert writes[0].key in Keys(writes);
      assert !Owns(r, tx);
    }
    forall tx | Pending(r, tx) && !Stuck(g, tx, answers)
      ensures Owns(r, tx)
    {
      assert Visited(g, r, tx, answers);
    }
  }

  /** A restart that meets no stuck transaction disturbs nobody who stays in doubt. */
  lemma RestartKeeps(g: Group, records: seq<TxRecord>, answers: Answers)
    requires Held(g) && IsScan(g, records) && forall tx :: !Stuck(g, tx, answers)
    ensures Steady(g, Restart(g, records, answers))
  {
    hide Applies, DistinctKeys, Restart, Keys;
    HeldSeparate(g);
    RestartExact(g, records, answers);
    var r := Restart(g, records, answers);
    forall tx | tx in r.prepared
      ensures InDoubt(g, tx, answers) && r.prepared[tx] == g.prepared[tx]
      ensures Applies(r.kv, g.prepared[tx].writes) <==> Applies(g.kv, g.prepared[tx].writes)
    {
      assert tx in r.prepared.Keys;
      assert Visited(g, r, tx, answers);
    }
    assert LocksHeld(r);
  }

  /** One that does loses a lock. */
  lemma RestartLoses(g: Group, records: seq<TxRecord>, answers: Answers, tx: TxId)
    requires Held(g) && IsScan(g, records) && Stuck(g, tx, answers)
    ensures !LocksHeld(Restart(g, records, answers))
  {
    hide Applies, DistinctKeys, Restart, Keys, LocksHeld, Visited, LocksExact;
    HeldSeparate(g);
    RestartExact(g, records, answers);
  }
}
