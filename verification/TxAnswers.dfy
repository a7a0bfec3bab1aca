/** What a group's answers mean (pkg/kv/tx.go): when each handler says OK, and what it then
    leaves in the store, the markers and the lock table. */
module TxAnswers {
  import opened Options
  import opened Store
  import opened TxGroup
  import opened TxLocks

  /** The version a reader sees at this time: 0 for a key that is absent or past its expiry. */
  function SeenVersion(kv: KV, key: Key, now: int): (v: nat) {
    if key in kv && (kv[key].expires <= 0 || now < kv[key].expires) then kv[key].version else 0
  }

  /** Every read of the record still holds at this time. */
  ghost predicate ReadsCurrent(kv: KV, rec: TxRecord, now: int) {
    forall r | r in rec.readSet :: SeenVersion(kv, r.key, now) == r.expected
  }

  /** No key the record writes is held by another transaction. */
  ghost predicate WritesFree(locks: map<Key, TxId>, rec: TxRecord) {
    forall w | w in rec.writes && w.key in locks :: locks[w.key] == rec.tx
  }

  ghost predicate Shrinks(before: map<Key, TxId>, after: map<Key, TxId>) {
    forall k | k in after :: k in before && after[k] == before[k]
  }

  // ---------------------------------------------------------------- prepare

  /** Resolving a lock only takes locks away; unless it says so, it takes none. */
  lemma ResolveShrinks(g: Group, tx: TxId, answers: Answers)
    ensures var r := ResolveLock(g, tx, answers);
      Shrinks(g.locks, r.group.locks) && (!r.released ==> r.group.locks == g.locks)
  {
    hide ApplyBatch;
  }

  /** The conflict loop succeeds exactly if in the end no key to be written is held by another. */
  lemma {:induction false} ConflictsCleared(g: Group, tx: TxId, writes: seq<WriteKey>, answers: Answers)
    ensures var r := ClearConflicts(g, tx, writes, answers);
      && Shrinks(g.locks, r.group.locks)
      && (r.released <==> forall w | w in writes && w.key in r.group.locks :: r.group.locks[w.key] == tx)
      && ((forall w | w in writes && w.key in g.locks :: g.locks[w.key] == tx) ==> r.group == g)
    decreases |writes|
  {
    hide ResolveLock;
    if writes != [] {
      var w, rest := writes[0], writes[1..];
      assert writes == [w] + rest;
      if !LockedByOther(g, w.key, tx) {
        ConflictsCleared(g, tx, rest, answers);
      } else {
        var r := ResolveLock(g, g.locks[w.key], answers);
        ResolveShrinks(g, g.locks[w.key], answers);
        if r.released && !LockedByOther(r.group, w.key, tx) {
          ConflictsCleared(r.group, tx, rest, answers);
        } else {
          assert w in writes;
        }
      }
    }
  }

  /** Prepare answers OK if and only if, old locks once resolved, no key it writes is held by
      another and every version it has read is still current; it then holds all its keys. */
  lemma PrepareExact(g: Group, rec: TxRecord, answers: Answers, now: int)
    ensures var r := Prepare(g, rec, answers, now);
      && (r.err == OK <==> WritesFree(r.group.locks, rec) && ReadsCurrent(r.group.kv, rec, now))
      && (r.err == OK || r.err == TxConflict)
      && (r.err == OK ==>
            && rec.tx in r.group.prepared && r.group.prepared[rec.tx] == rec
            && forall w | w in rec.writes :: w.key in r.group.locks && r.group.locks[w.key] == rec.tx)
  {
    hide ClearConflicts, Locked;
    var c := ClearConflicts(g, rec.tx, rec.writes, answers);
    ConflictsCleared(g, rec.tx, rec.writes, answers);
    ReadsExact(c.group.kv, rec, now);
    HoldsAll(c.group.locks, rec);
  }

  lemma ReadsExact(kv: KV, rec: TxRecord, now: int)
    ensures ReadsCurrent(kv, rec, now) <==> forall i | 0 <= i < |rec.readSet| :: ReadValid(kv, rec.readSet[i], now)
  {
    forall i | 0 <= i < |rec.readSet|
      ensures ReadValid(kv, rec.readSet[i], now) <==>
        SeenVersion(kv, rec.readSet[i].key, now) == rec.readSet[i].expected
    {}
  }

  lemma HoldsAll(locks: map<Key, TxId>, rec: TxRecord)
    ensures var after := Locked(locks, rec.tx, rec.writes);
      forall w | w in rec.writes :: w.key in after && after[w.key] == rec.tx
  {
    LockedExact(locks, rec.tx, rec.writes);
    forall w | w in rec.writes
      ensures w.key in Keys(rec.writes)
    {
      var i :| 0 <= i < |rec.writes| && rec.writes[i] == w;
    }
  }

  /** In particular a prepare that finds its keys free and its reads current answers OK at once,
      and one that has read a version since replaced does not. */
  lemma PrepareAtOnce(g: Group, rec: TxRecord, answers: Answers, now: int)
    requires WritesFree(g.locks, rec)
    ensures var r := Prepare(g, rec, answers, now);
      && (r.err == OK <==> ReadsCurrent(g.kv, rec, now))
      && r.group.kv == g.kv && r.group.committed == g.committed && r.group.aborted == g.aborted
      && (r.err != OK ==> r.group == g)
  {
    hide ClearConflicts, Locked;
    ConflictsCleared(g, rec.tx, rec.writes, answers);
    ReadsExact(g.kv, rec, now);
  }

  // ---------------------------------------------------------------- resolving a lock

  /** Records are stored under their ids, and what is cached is stored. */
  ghost predicate Kept(g: Group) {
    && (forall t | t in g.cache :: t in g.prepared && g.cache[t] == g.prepared[t])
    && (forall t | t in g.prepared :: g.prepared[t].tx == t)
  }

  /** The transaction's keys are free again and no other lock has changed. */
  ghost predicate Unlocked(before: map<Key, TxId>, after: map<Key, TxId>, keys: set<Key>) {
    && (forall k | k in keys :: k !in after)
    && (forall k | k !in keys :: (k in after <==> k in before) && (k in after ==> after[k] == before[k]))
  }

  /** The record is gone, with its keys' locks. */
  ghost predicate CleanedUp(g: Group, r: Group, rec: TxRecord) {
    && r.prepared == g.prepared - {rec.tx} && r.cache == g.cache - {rec.tx}
    && Unlocked(g.locks, r.locks, Keys(rec.writes))
    && r.decisions == g.decisions && r.id == g.id
  }

  /** Executing a commit applies the whole batch with its marker and frees the keys, or does
      nothing at all. */
  lemma CommitExecuted(g: Group, rec: TxRecord)
    ensures var r := ExecuteCommit(g, rec);
      match ApplyBatch(g.kv, Ops(rec.writes))
      case None => r == g
      case Some(kv) =>
        && r.kv == kv && r.committed == g.committed + {rec.tx} && r.aborted == g.aborted && CleanedUp(g, r, rec)
        && r.history == g.history + [Applied(rec.tx, rec.writes)]
  {
    hide ApplyBatch, Ops;
  }

  lemma AbortExecuted(g: Group, rec: TxRecord)
    ensures var r := ExecuteAbort(g, rec);
      && r.kv == g.kv && r.aborted == g.aborted + {rec.tx} && r.committed == g.committed && CleanedUp(g, r, rec)
      && r.history == g.history
  {}

  /** The coordinator group knows its own decision and asks nobody; any other group goes by the
      coordinator's answer alone. */
  lemma QueryExact(g: Group, rec: TxRecord, answers: Answers, d: Decision)
    ensures QueryDecision(g, rec, answers) == Some(d) <==>
      if rec.coordinator == g.id then rec.tx in g.decisions && g.decisions[rec.tx].decision == d
      else rec.tx in answers && answers[rec.tx] == d
  {}

  /** What resolving a transaction's lock does: a finished or forgotten one loses all its locks
      and only those; a pending one is finished as its coordinator decided, and kept, with all
      its locks, while the decision is not known. */
  lemma ResolveExact(g: Group, tx: TxId, answers: Answers)
    requires Kept(g)
    ensures var r := ResolveLock(g, tx, answers);
      if !Pending(g, tx) then
        && r.released && r.group == g.(locks := r.group.locks)
        && forall k :: k in r.group.locks <==> k in g.locks && g.locks[k] != tx
      else
        var rec := g.prepared[tx];
        match QueryDecision(g, rec, answers)
        case None => !r.released && r.group == g.(cache := g.cache[tx := rec])
        case Some(Aborted) =>
          r.released && tx in r.group.aborted && r.group.kv == g.kv && CleanedUp(g, r.group, rec)
        case Some(Committed) =>
          && r.released
          && if ApplyBatch(g.kv, Ops(rec.writes)).None? then r.group == g.(cache := g.cache[tx := rec])
             else
               && tx in r.group.committed && Some(r.group.kv) == ApplyBatch(g.kv, Ops(rec.writes))
               && CleanedUp(g, r.group, rec)
  {
    hide ApplyBatch, Ops, ExecuteCommit, ExecuteAbort;
    if Pending(g, tx) {
      var loaded := g.(cache := g.cache[tx := g.prepared[tx]]);
      assert loaded.cache - {tx} == g.cache - {tx};
      CommitExecuted(loaded, g.prepared[tx]);
      AbortExecuted(loaded, g.prepared[tx]);
    }
  }

  lemma ResolveKept(g: Group, tx: TxId, answers: Answers)
    requires Kept(g)
    ensures var r := ResolveLock(g, tx, answers).group;
      Kept(r) && (forall t | Pending(r, t) :: Pending(g, t))
  {
    hide ApplyBatch;
  }

  /** Why a holder still stands in the way: its decision is not known, or it is to be committed
      and cannot be, or it was finished just now and the key was not among those it wrote. */
  ghost predicate Blocking(g: Group, r: Group, holder: TxId, answers: Answers) {
    if Pending(r, holder) then
      match QueryDecision(r, r.prepared[holder], answers)
      case None => true
      case Some(Committed) => ApplyBatch(r.kv, Ops(r.prepared[holder].writes)).None?
      case Some(Aborted) => false
    else Pending(g, holder)
  }

  /** Prepare resolves the locks in its way: what is left standing is blocking. */
  lemma {:induction false} ConflictRemains(g: Group, tx: TxId, writes: seq<WriteKey>, answers: Answers)
    requires Kept(g) && !ClearConflicts(g, tx, writes, answers).released
    ensures var r := ClearConflicts(g, tx, writes, answers).group;
      exists w :: w in writes && w.key in r.locks && r.locks[w.key] != tx && Blocking(g, r, r.locks[w.key], answers)
    decreases |writes|
  {
    hide ResolveLock, Blocking;
    var w, rest := writes[0], writes[1..];
    assert w in writes && forall v | v in rest :: v in writes;
    if !LockedByOther(g, w.key, tx) {
      ConflictRemains(g, tx, rest, answers);
    } else {
      var h := g.locks[w.key];
      var r := ResolveLock(g, h, answers);
      ResolveKept(g, h, answers);
      if !r.released || LockedByOther(r.group, w.key, tx) {
        ResolveShrinks(g, h, answers);
        StillBlocking(g, h, w.key, answers);
      } else {
        ConflictRemains(r.group, tx, rest, answers);
        var c := ClearConflicts(r.group, tx, rest, answers).group;
        var v :| v in rest && v.key in c.locks && c.locks[v.key] != tx && Blocking(r.group, c, c.locks[v.key], answers);
        assert Blocking(g, c, c.locks[v.key], answers) by {
          BlockingBefore(g, r.group, c, c.locks[v.key], answers);
        }
      }
    }
  }

  lemma BlockingBefore(g: Group, mid: Group, r: Group, holder: TxId, answers: Answers)
    requires Blocking(mid, r, holder, answers) && forall t | Pending(mid, t) :: Pending(g, t)
    ensures Blocking(g, r, holder, answers)
  {
    hide ApplyBatch;
  }

  lemma StillBlocking(g: Group, holder: TxId, key: Key, answers: Answers)
    requires Kept(g) && key in g.locks && g.locks[key] == holder
    requires var r := ResolveLock(g, holder, answers).group; key in r.locks && r.locks[key] == holder
    ensures Blocking(g, ResolveLock(g, holder, answers).group, holder, answers)
  {
    hide ApplyBatch, ResolveLock;
    ResolveExact(g, holder, answers);
  }

  // ---------------------------------------------------------------- commit, abort, decisions

  /** This group coordinates the transaction and has not decided to commit it. */
  ghost predicate Undecided(g: Group, rec: TxRecord) {
    && rec.participants != [] && rec.coordinator == g.id
    && !(rec.tx in g.decisions && g.decisions[rec.tx].decision == Committed)
  }

  /** Commit answers OK exactly with a commit marker in place. It finds nothing exactly without
      marker or record. A pending transaction is committed if and only if its decision is not
      missing here and its batch applies: once, with its keys freed; otherwise store, markers
      and records stay. */
  lemma CommitExact(g: Group, tx: TxId)
    requires Kept(g)
    ensures var r := Commit(g, tx);
      && (r.err == OK <==> tx in r.group.committed)
      && (r.err == TxNotFound <==> tx !in g.committed && tx !in g.aborted && tx !in g.prepared)
      && (!Pending(g, tx) ==> r.group == g)
      && (Pending(g, tx) ==>
            var rec := g.prepared[tx];
            var batch := ApplyBatch(g.kv, Ops(rec.writes));
            && (r.err == OK <==> !Undecided(g, rec) && batch.Some?)
            && (r.err == OK ==>
                  && r.group.kv == batch.value && r.group.aborted == g.aborted
                  && r.group.committed == g.committed + {tx} && CleanedUp(g, r.group, rec))
            && (r.err != OK ==>
                  && r.err == TxConflict && r.group.kv == g.kv && r.group.prepared == g.prepared
                  && r.group.committed == g.committed && r.group.aborted == g.aborted))
  {
    hide ApplyBatch, Ops, Locked, ApplyCommit;
    if Pending(g, tx) && !DecisionMissing(g, tx) {
      var rec := g.prepared[tx];
      var loaded := if tx in g.cache then g
        else g.(cache := g.cache[tx := rec], locks := Locked(g.locks, rec.tx, rec.writes));
      LockedExact(g.locks, tx, rec.writes);
      assert loaded.cache - {tx} == g.cache - {tx};
      CommitExecuted(loaded, rec);
    }
  }

  /** Abort is refused exactly for a committed transaction. Otherwise the marker is in place
      afterwards and the record gone; it frees the keys of the cached record that the
      transaction holds, and nothing else. */
  lemma AbortExact(g: Group, tx: TxId)
    ensures var r := Abort(g, tx);
      && (r.err == TxConflict <==> tx in g.committed) && (r.err == OK <==> tx !in g.committed)
      && r.group.kv == g.kv && r.group.committed == g.committed && r.group.history == g.history
      && (r.err != OK || tx in g.aborted ==> r.group == g)
      && (r.err == OK ==> r.group.aborted == g.aborted + {tx})
      && (r.err == OK && tx !in g.aborted ==>
            && r.group.prepared == g.prepared - {tx} && r.group.cache == g.cache - {tx}
            && Unlocked(g.locks, r.group.locks,
                 if tx !in g.cache then {}
                 else set k | k in Keys(g.cache[tx].writes) && k in g.locks && g.locks[k] == tx))
  {}

  /** The first decision recorded stands: a record is accepted exactly if it agrees with what is
      recorded afterwards, and only a first one changes anything. */
  lemma DecisionExact(g: Group, tx: TxId, d: DecisionRecord)
    ensures var r := RecordDecision(g, tx, d);
      && tx in r.group.decisions
      && r.err == (if r.group.decisions[tx].decision == d.decision then OK else TxConflict)
      && (tx in g.decisions ==> r.group == g)
      && (tx !in g.decisions ==> r.group.decisions[tx] == d && r.group == g.(decisions := r.group.decisions))
      && r.group.decisions - {tx} == g.decisions - {tx}
  {
    assert RecordDecision(g, tx, d).group.decisions - {tx} == g.decisions - {tx};
  }

  /** The status of a transaction: its decision, else its marker, else its record, else that
      nothing is known. */
  lemma StatusExact(g: Group, tx: TxId)
    requires g.committed !! g.aborted
    ensures var s := ResolveStatus(g, tx);
      var marked := tx in g.committed || tx in g.aborted;
      && (tx in g.decisions ==> s == IsDecided(g.decisions[tx].decision))
      && (tx !in g.decisions ==> (s == IsDecided(Committed) <==> tx in g.committed))
      && (tx !in g.decisions ==> (s == IsDecided(Aborted) <==> tx in g.aborted))
      && (s.IsPrepared? <==> tx !in g.decisions && !marked && tx in g.prepared)
      && (s.IsPrepared? ==> s.record == g.prepared[tx])
      && (s == IsNotFound <==> tx !in g.decisions && !marked && tx !in g.prepared)
  {}
}
