/** What every handler keeps inside one group, whatever messages arrive: each write set is
    applied at most once and exactly when its commit marker exists, and markers follow
    decisions. */
module TxLocal {
  import opened Options
  import opened Store
  import opened TxGroup

  /** The store that the history produces from nothing; None if a batch in it would fail. */
  function Replay(history: seq<Event>): (kv: Option<KV>) {
    if history == [] then Some(map[])
    else
      match Replay(history[..|history| - 1])
      case None => None
      case Some(kv) =>
        match history[|history| - 1]
        case Applied(_, writes) => ApplyBatch(kv, Ops(writes))
        case Stored(k, cell) => Some(kv[k := cell])
        case Removed(k) => Some(kv - {k})
  }

  /** How often the transaction's write set was applied. */
  function Times(history: seq<Event>, tx: TxId): (n: nat) {
    if history == [] then 0
    else
      var e := history[|history| - 1];
      Times(history[..|history| - 1], tx) + if e.Applied? && e.tx == tx then 1 else 0
  }

  lemma Appended(history: seq<Event>, e: Event)
    ensures (history + [e])[..|history + [e]| - 1] == history
    ensures forall tx :: Times(history + [e], tx) == Times(history, tx) + if e.Applied? && e.tx == tx then 1 else 0
    ensures Replay(history).Some? ==>
      var kv := Replay(history).value;
      Replay(history + [e]) ==
        match e
        case Applied(_, writes) => ApplyBatch(kv, Ops(writes))
        case Stored(k, cell) => Some(kv[k := cell])
        case Removed(k) => Some(kv - {k})
  {
    var longer := history + [e];
    assert longer[..|longer| - 1] == history && longer[|longer| - 1] == e;
  }

  /** Exactly once: the store is what its history says, and a write set occurs in it once if
      its commit marker exists and otherwise not at all. */
  ghost predicate ExactlyOnce(g: Group) {
    && Replay(g.history) == Some(g.kv)
    && forall tx :: Times(g.history, tx) == if tx in g.committed then 1 else 0
  }

  ghost predicate GroupOk(g: Group) {
    && ExactlyOnce(g)
    && g.committed !! g.aborted
    && (forall tx | tx in g.prepared :: g.prepared[tx].tx == tx)
    && (forall tx | tx in g.cache :: tx in g.prepared && g.cache[tx] == g.prepared[tx])
  }

  /** The group moves on: new markers only for transactions approved for them, records only
      dropped for marked transactions, write sets only applied as recorded. */
  ghost predicate Evolves(g: Group, g': Group, yes: set<TxId>, no: set<TxId>) {
    && g'.id == g.id && g'.decisions == g.decisions
    && g.committed <= g'.committed <= g.committed + yes
    && g.aborted <= g'.aborted <= g.aborted + no
    && (forall tx | tx in g'.prepared :: tx in g.prepared && g'.prepared[tx] == g.prepared[tx])
    && (forall tx | tx in g.prepared :: tx in g'.prepared || tx in g'.committed || tx in g'.aborted)
    && (forall e | e in g'.history && e.Applied? ::
          e in g.history || (e.tx in g.prepared && g.prepared[e.tx].writes == e.writes))
    && GroupOk(g')
  }

  /** The answers a group gets about its records are among the approved decisions. */
  ghost predicate Approved(g: Group, answers: Answers, yes: set<TxId>, no: set<TxId>) {
    forall tx | tx in g.prepared ::
      match QueryDecision(g, g.prepared[tx], answers)
      case Some(Committed) => tx in yes
      case Some(Aborted) => tx in no
      case None => true
  }

  lemma EvolvesReflexive(g: Group, yes: set<TxId>, no: set<TxId>)
    requires GroupOk(g)
    ensures Evolves(g, g, yes, no)
  {}

  lemma EvolvesTransitive(a: Group, b: Group, c: Group, yes: set<TxId>, no: set<TxId>)
    requires Evolves(a, b, yes, no) && Evolves(b, c, yes, no)
    ensures Evolves(a, c, yes, no)
  {
    hide GroupOk;
  }

  lemma ApprovedLater(g: Group, g': Group, answers: Answers, yes: set<TxId>, no: set<TxId>)
    requires Approved(g, answers, yes, no) && Evolves(g, g', yes, no)
    ensures Approved(g', answers, yes, no)
  {
    hide GroupOk;
  }

  /** Only memory changes. */
  lemma MemoryOnly(g: Group, g': Group, yes: set<TxId>, no: set<TxId>)
    requires GroupOk(g) && g' == g.(locks := g'.locks, cache := g'.cache)
    requires forall tx | tx in g'.cache :: tx in g.prepared && g'.cache[tx] == g.prepared[tx]
    ensures Evolves(g, g', yes, no)
  {
    assert ExactlyOnce(g');
  }

  lemma ApplyCommitOnce(g: Group, rec: TxRecord, kv: KV)
    requires ExactlyOnce(g) && rec.tx !in g.committed && ApplyBatch(g.kv, Ops(rec.writes)) == Some(kv)
    ensures ExactlyOnce(ApplyCommit(g, rec, kv))
  {
    hide Replay, Times;
    Appended(g.history, Applied(rec.tx, rec.writes));
  }

  lemma CommitEvolves(g: Group, rec: TxRecord, kv: KV, yes: set<TxId>, no: set<TxId>)
    requires GroupOk(g) && rec.tx in g.prepared && rec == g.prepared[rec.tx]
    requires rec.tx !in g.committed && rec.tx !in g.aborted && rec.tx in yes
    requires ApplyBatch(g.kv, Ops(rec.writes)) == Some(kv)
    ensures Evolves(g, ApplyCommit(g, rec, kv), yes, no)
  {
    hide ExactlyOnce;
    ApplyCommitOnce(g, rec, kv);
  }

  lemma ExecuteCommitEvolves(g: Group, rec: TxRecord, yes: set<TxId>, no: set<TxId>)
    requires GroupOk(g) && rec.tx in g.prepared && rec == g.prepared[rec.tx]
    requires rec.tx !in g.committed && rec.tx !in g.aborted && rec.tx in yes
    ensures Evolves(g, ExecuteCommit(g, rec), yes, no)
  {
    hide GroupOk, ApplyCommit;
    match ApplyBatch(g.kv, Ops(rec.writes))
    case None => EvolvesReflexive(g, yes, no);
    case Some(kv) => CommitEvolves(g, rec, kv, yes, no);
  }

  lemma ExecuteAbortEvolves(g: Group, rec: TxRecord, yes: set<TxId>, no: set<TxId>)
    requires GroupOk(g) && rec.tx in g.prepared
    requires rec.tx !in g.committed && rec.tx in no
    ensures Evolves(g, ExecuteAbort(g, rec), yes, no)
  {
    assert ExactlyOnce(ExecuteAbort(g, rec));
  }

  lemma ResolveLockEvolves(g: Group, tx: TxId, answers: Answers, yes: set<TxId>, no: set<TxId>)
    requires GroupOk(g) && Approved(g, answers, yes, no)
    ensures Evolves(g, ResolveLock(g, tx, answers).group, yes, no)
  {
    hide ExactlyOnce, ExecuteCommit, ExecuteAbort, Evolves;
    if tx in g.committed || tx in g.aborted || (tx !in g.cache && tx !in g.prepared) {
      MemoryOnly(g, g.(locks := Released(g.locks, tx)), yes, no);
    } else {
      var rec := g.prepared[tx];
      var loaded := g.(cache := g.cache[tx := rec]);
      MemoryOnly(g, loaded, yes, no);
      assert GroupOk(loaded) by { LoadedOk(g, tx); }
      match QueryDecision(loaded, rec, answers)
      case Some(Committed) =>
        ExecuteCommitEvolves(loaded, rec, yes, no);
        EvolvesTransitive(g, loaded, ExecuteCommit(loaded, rec), yes, no);
      case Some(Aborted) =>
        ExecuteAbortEvolves(loaded, rec, yes, no);
        EvolvesTransitive(g, loaded, ExecuteAbort(loaded, rec), yes, no);
      case None =>
    }
  }

  lemma LoadedOk(g: Group, tx: TxId)
    requires GroupOk(g) && tx in g.prepared
    ensures GroupOk(g.(cache := g.cache[tx := g.prepared[tx]]))
  {
    assert ExactlyOnce(g.(cache := g.cache[tx := g.prepared[tx]]));
  }

  lemma EvolvedOk(g: Group, g': Group, yes: set<TxId>, no: set<TxId>)
    requires Evolves(g, g', yes, no)
    ensures GroupOk(g')
  {}

  lemma {:induction false} ClearConflictsEvolves(g: Group, tx: TxId, writes: seq<WriteKey>, answers: Answers,
                                                 yes: set<TxId>, no: set<TxId>)
    requires GroupOk(g) && Approved(g, answers, yes, no)
    ensures Evolves(g, ClearConflicts(g, tx, writes, answers).group, yes, no)
    decreases |writes|
  {
    hide GroupOk, Evolves, Approved, ResolveLock;
    if writes == [] {
      EvolvesReflexive(g, yes, no);
    } else if !LockedByOther(g, writes[0].key, tx) {
      ClearConflictsEvolves(g, tx, writes[1..], answers, yes, no);
    } else {
      var r := ResolveLock(g, g.locks[writes[0].key], answers);
      ResolveLockEvolves(g, g.locks[writes[0].key], answers, yes, no);
      if r.released && !LockedByOther(r.group, writes[0].key, tx) {
        EvolvedOk(g, r.group, yes, no);
        ApprovedLater(g, r.group, answers, yes, no);
        ClearConflictsEvolves(r.group, tx, writes[1..], answers, yes, no);
        EvolvesTransitive(g, r.group, ClearConflicts(r.group, tx, writes[1..], answers).group, yes, no);
      }
    }
  }

  /** A successful Prepare adds its record and nothing else beyond resolving old locks. */
  lemma PrepareEvolves(g: Group, rec: TxRecord, answers: Answers, now: int, yes: set<TxId>, no: set<TxId>)
    requires GroupOk(g) && Approved(g, answers, yes, no)
    ensures var r := Prepare(g, rec, answers, now);
      var c := ClearConflicts(g, rec.tx, rec.writes, answers).group;
      && Evolves(g, c, yes, no)
      && GroupOk(r.group)
      && (r.err == OK ==>
            r.group ==
              c.(prepared := c.prepared[rec.tx := rec], cache := c.cache[rec.tx := rec], locks := r.group.locks))
      && (r.err != OK ==> r.group == c)
  {
    hide Evolves, Approved, ClearConflicts;
    ClearConflictsEvolves(g, rec.tx, rec.writes, answers, yes, no);
    var c := ClearConflicts(g, rec.tx, rec.writes, answers).group;
    EvolvedOk(g, c, yes, no);
    assert ExactlyOnce(Prepare(g, rec, answers, now).group);
  }

  /** A Commit request for an approved transaction. */
  lemma CommitRequestEvolves(g: Group, tx: TxId, yes: set<TxId>, no: set<TxId>)
    requires GroupOk(g) && tx in yes
    ensures Evolves(g, Commit(g, tx).group, yes, no)
    ensures Commit(g, tx).err == OK ==> tx in Commit(g, tx).group.committed
  {
    hide ExactlyOnce, ApplyCommit, Evolves;
    if tx in g.committed || tx in g.aborted || DecisionMissing(g, tx) || (tx !in g.cache && tx !in g.prepared) {
      EvolvesReflexive(g, yes, no);
    } else {
      var rec := g.prepared[tx];
      var loaded := if tx in g.cache then g
        else g.(cache := g.cache[tx := rec], locks := Locked(g.locks, rec.tx, rec.writes));
      MemoryOnly(g, loaded, yes, no);
      EvolvedOk(g, loaded, yes, no);
      match ApplyBatch(loaded.kv, Ops(rec.writes))
      case None =>
      case Some(kv) =>
        CommitEvolves(loaded, rec, kv, yes, no);
        EvolvesTransitive(g, loaded, ApplyCommit(loaded, rec, kv), yes, no);
        assert tx in ApplyCommit(loaded, rec, kv).committed by { Marked(loaded, rec, kv); }
    }
  }

  lemma Marked(g: Group, rec: TxRecord, kv: KV)
    ensures rec.tx in ApplyCommit(g, rec, kv).committed
  {}

  lemma AbortRequestEvolves(g: Group, tx: TxId, yes: set<TxId>, no: set<TxId>)
    requires GroupOk(g) && tx in no
    ensures Evolves(g, Abort(g, tx).group, yes, no)
  {
    assert ExactlyOnce(Abort(g, tx).group);
  }

  lemma RebuildOneEvolves(g: Group, rec: TxRecord, answers: Answers, yes: set<TxId>, no: set<TxId>)
    requires GroupOk(g) && Approved(g, answers, yes, no)
    requires rec.tx in g.prepared && rec == g.prepared[rec.tx] && rec.tx !in g.cache
    ensures Evolves(g, RebuildOne(g, rec, answers), yes, no)
    ensures forall tx | tx in g.prepared && tx != rec.tx :: tx in RebuildOne(g, rec, answers).prepared
    ensures forall tx | tx in RebuildOne(g, rec, answers).cache :: tx in g.cache || tx == rec.tx
  {
    hide ExactlyOnce, ApplyBatch, Evolves;
    if rec.tx in g.committed || rec.tx in g.aborted {
      RecordDropped(g, rec.tx, yes, no);
    } else {
      match QueryDecision(g, rec, answers)
      case Some(Committed) => ExecuteCommitEvolves(g, rec, yes, no);
      case Some(Aborted) => ExecuteAbortEvolves(g, rec, yes, no);
      case None => MemoryOnly(g, RebuildOne(g, rec, answers), yes, no);
    }
  }

  lemma RecordDropped(g: Group, tx: TxId, yes: set<TxId>, no: set<TxId>)
    requires GroupOk(g) && tx !in g.cache && (tx in g.committed || tx in g.aborted)
    ensures Evolves(g, g.(prepared := g.prepared - {tx}), yes, no)
  {
    assert ExactlyOnce(g.(prepared := g.prepared - {tx}));
  }

  lemma {:induction false} RebuildEvolves(g: Group, records: seq<TxRecord>, answers: Answers, yes: set<TxId>,
                                          no: set<TxId>)
    requires GroupOk(g) && Approved(g, answers, yes, no)
    requires forall i | 0 <= i < |records| ::
      records[i].tx in g.prepared && g.prepared[records[i].tx] == records[i] && records[i].tx !in g.cache
    requires forall i, j | 0 <= i < j < |records| :: records[i].tx != records[j].tx
    ensures Evolves(g, RebuildAll(g, records, answers), yes, no)
    decreases |records|
  {
    hide GroupOk, Approved, RebuildOne;
    if records == [] {
      EvolvesReflexive(g, yes, no);
    } else {
      var rec, rest := records[0], records[1..];
      var g1 := RebuildOne(g, rec, answers);
      RebuildOneEvolves(g, rec, answers, yes, no);
      EvolvedOk(g, g1, yes, no);
      ApprovedLater(g, g1, answers, yes, no);
      assert forall i | 0 <= i < |rest| :: rest[i] == records[i + 1] && rest[i].tx != rec.tx;
      RebuildEvolves(g1, rest, answers, yes, no);
      EvolvesTransitive(g, g1, RebuildAll(g1, rest, answers), yes, no);
    }
  }

  lemma RestartEvolves(g: Group, records: seq<TxRecord>, answers: Answers, yes: set<TxId>, no: set<TxId>)
    requires GroupOk(g) && Approved(g, answers, yes, no) && IsScan(g, records)
    ensures Evolves(g, Restart(g, records, answers), yes, no)
  {
    hide GroupOk, RebuildAll;
    var f := Forget(g);
    MemoryOnly(g, f, yes, no);
    EvolvedOk(g, f, yes, no);
    ApprovedLater(g, f, answers, yes, no);
    RebuildEvolves(f, records, answers, yes, no);
    EvolvesTransitive(g, f, RebuildAll(f, records, answers), yes, no);
  }

  /** A change to the store outside transactions. */
  lemma StoreEvolves(g: Group, kv: KV, e: Event, yes: set<TxId>, no: set<TxId>)
    requires GroupOk(g)
    requires match e
      case Applied(_, _) => false
      case Stored(k, cell) => kv == g.kv[k := cell]
      case Removed(k) => kv == g.kv - {k}
    ensures Evolves(g, g.(kv := kv, history := g.history + [e]), yes, no)
  {
    hide Replay, Times;
    Appended(g.history, e);
    assert ExactlyOnce(g.(kv := kv, history := g.history + [e]));
  }

  lemma {:induction false} ExpireEvolves(g: Group, keys: seq<Key>, cutoff: int, yes: set<TxId>, no: set<TxId>)
    requires GroupOk(g)
    ensures Evolves(g, Expire(g, keys, cutoff), yes, no)
    decreases |keys|
  {
    hide GroupOk, Evolves;
    if keys == [] {
      EvolvesReflexive(g, yes, no);
    } else {
      var k := keys[0];
      if k in g.locks || k !in g.kv || !IsExpired(g.kv[k].expires, cutoff) {
        ExpireEvolves(g, keys[1..], cutoff, yes, no);
      } else {
        var next := g.(kv := g.kv - {k}, history := g.history + [Removed(k)]);
        StoreEvolves(g, g.kv - {k}, Removed(k), yes, no);
        EvolvedOk(g, next, yes, no);
        ExpireEvolves(next, keys[1..], cutoff, yes, no);
        EvolvesTransitive(g, next, Expire(next, keys[1..], cutoff), yes, no);
      }
    }
  }

  lemma PutEvolves(g: Group, key: Key, value: string, expected: nat, expires: int, now: int, yes: set<TxId>,
                   no: set<TxId>)
    requires GroupOk(g)
    ensures Evolves(g, Put(g, key, value, expected, expires, now), yes, no)
  {
    hide GroupOk, Evolves;
    EvolvesReflexive(g, yes, no);
    var p := PutCAS(g.kv, key, value, expected, expires, now);
    if p.status == PutOk {
      StoreEvolves(g, p.kv, Stored(key, p.kv[key]), yes, no);
    }
  }

  lemma DeleteEvolves(g: Group, key: Key, now: int, yes: set<TxId>, no: set<TxId>)
    requires GroupOk(g)
    ensures Evolves(g, Delete(g, key, now), yes, no)
  {
    hide GroupOk, Evolves;
    EvolvesReflexive(g, yes, no);
    if Live(g.kv, key, now) {
      StoreEvolves(g, g.kv - {key}, Removed(key), yes, no);
    }
  }
}
