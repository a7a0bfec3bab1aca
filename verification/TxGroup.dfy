/** One group's part in two-phase commit (pkg/kv/tx.go): transaction records, markers,
    decisions and the lock table, with every handler one atomic step. */
module TxGroup {
  import opened Options
  import opened Store

  type TxId = string

  datatype ReadKey = ReadKey(key: Key, expected: nat)
  datatype WriteKey = WriteKey(key: Key, value: string, version: nat, isDelete: bool)

  /** preparedTxRecord and, identically, the arguments of Prepare. */
  datatype TxRecord = TxRecord(tx: TxId, readSet: seq<ReadKey>, writes: seq<WriteKey>, coordinator: int,
                               participants: seq<int>)

  datatype Decision = Committed | Aborted

  datatype DecisionRecord = DecisionRecord(decision: Decision, participants: seq<int>, writes: seq<WriteKey>)

  datatype Err = OK | TxConflict | TxNotFound

  /** What has been done to the store, in order (history). */
  datatype Event = Applied(tx: TxId, writes: seq<WriteKey>) | Stored(key: Key, cell: Cell) | Removed(key: Key)

  /** kv and the next four fields are on disk; locks and cache are in memory. */
  datatype Group = Group(
    id: int,
    kv: KV,
    prepared: map<TxId, TxRecord>, committed: set<TxId>, aborted: set<TxId>, decisions: map<TxId, DecisionRecord>,
    locks: map<Key, TxId>, cache: map<TxId, TxRecord>,
    history: seq<Event>)

  /** Remote coordinators' answers; a transaction without one is unknown. */
  type Answers = map<TxId, Decision>

  function Op(w: WriteKey): (op: WriteOp) {
    WriteOp(w.key, w.value, w.version, 0, w.isDelete)
  }

  function Ops(writes: seq<WriteKey>): (ops: seq<WriteOp>)
    ensures |ops| == |writes| && forall i | 0 <= i < |writes| :: ops[i] == Op(writes[i])
  {
    seq(|writes|, i requires 0 <= i < |writes| => Op(writes[i]))
  }

  function Keys(writes: seq<WriteKey>): (ks: set<Key>) {
    set i | 0 <= i < |writes| :: writes[i].key
  }

  // ---------------------------------------------------------------- executing decisions

  /** The atomic write of the batch and the commit marker, then the clean-up. */
  function ApplyCommit(g: Group, rec: TxRecord, kv: KV): (r: Group) {
    g.(kv := kv, committed := g.committed + {rec.tx},
       locks := g.locks - Keys(rec.writes), cache := g.cache - {rec.tx}, prepared := g.prepared - {rec.tx},
       history := g.history + [Applied(rec.tx, rec.writes)])
  }

  /** executeCommit: a failed batch leaves everything as it was. */
  function ExecuteCommit(g: Group, rec: TxRecord): (r: Group) {
    match ApplyBatch(g.kv, Ops(rec.writes))
    case None => g
    case Some(kv) => ApplyCommit(g, rec, kv)
  }

  function ExecuteAbort(g: Group, rec: TxRecord): (r: Group) {
    g.(aborted := g.aborted + {rec.tx},
       locks := g.locks - Keys(rec.writes), cache := g.cache - {rec.tx}, prepared := g.prepared - {rec.tx})
  }

  /** queryCoordinatorDecision */
  function QueryDecision(g: Group, rec: TxRecord, answers: Answers): (d: Option<Decision>) {
    if rec.coordinator == g.id then
      if rec.tx in g.decisions then Some(g.decisions[rec.tx].decision) else None
    else if rec.tx in answers then Some(answers[rec.tx]) else None
  }

  /** releaseLocksForTxLocked */
  function Released(locks: map<Key, TxId>, tx: TxId): (r: map<Key, TxId>) {
    map k | k in locks && locks[k] != tx :: locks[k]
  }

  datatype Resolved = Resolved(group: Group, released: bool)

  /** resolveLockLocked */
  function ResolveLock(g: Group, tx: TxId, answers: Answers): (r: Resolved) {
    if tx in g.committed || tx in g.aborted then Resolved(g.(locks := Released(g.locks, tx)), true)
    else if tx !in g.cache && tx !in g.prepared then Resolved(g.(locks := Released(g.locks, tx)), true)
    else
      var rec := if tx in g.cache then g.cache[tx] else g.prepared[tx];
      var loaded := g.(cache := g.cache[tx := rec]);
      match QueryDecision(loaded, rec, answers)
      case Some(Committed) => Resolved(ExecuteCommit(loaded, rec), true)
      case Some(Aborted) => Resolved(ExecuteAbort(loaded, rec), true)
      case None => Resolved(loaded, false)
  }

  // ---------------------------------------------------------------- prepare

  predicate LockedByOther(g: Group, key: Key, tx: TxId) {
    key in g.locks && g.locks[key] != tx
  }

  /** The first loop of Prepare: every write key must be free or freed. */
  function ClearConflicts(g: Group, tx: TxId, writes: seq<WriteKey>, answers: Answers): (r: Resolved)
    decreases |writes|
  {
    if writes == [] then Resolved(g, true)
    else if !LockedByOther(g, writes[0].key, tx) then ClearConflicts(g, tx, writes[1..], answers)
    else
      var r := ResolveLock(g, g.locks[writes[0].key], answers);
      if !r.released || LockedByOther(r.group, writes[0].key, tx) then Resolved(r.group, false)
      else ClearConflicts(r.group, tx, writes[1..], answers)
  }

  predicate ReadValid(kv: KV, r: ReadKey, now: int) {
    r.expected == if Live(kv, r.key, now) then kv[r.key].version else 0
  }

  function Locked(locks: map<Key, TxId>, tx: TxId, writes: seq<WriteKey>): (r: map<Key, TxId>)
    decreases |writes|
  {
    if writes == [] then locks else Locked(locks[writes[0].key := tx], tx, writes[1..])
  }

  datatype Replied = Replied(group: Group, err: Err)

  function Prepare(g: Group, rec: TxRecord, answers: Answers, now: int): (r: Replied) {
    var c := ClearConflicts(g, rec.tx, rec.writes, answers);
    if !c.released then Replied(c.group, TxConflict)
    else if exists i | 0 <= i < |rec.readSet| :: !ReadValid(c.group.kv, rec.readSet[i], now) then
      Replied(c.group, TxConflict)
    else
      Replied(c.group.(
        locks := Locked(c.group.locks, rec.tx, rec.writes),
        prepared := c.group.prepared[rec.tx := rec],
        cache := c.group.cache[rec.tx := rec]), OK)
  }

  // ---------------------------------------------------------------- commit, abort, decisions

  /** The coordinator group itself commits only a transaction it has decided to commit. */
  predicate DecisionMissing(g: Group, tx: TxId) {
    && tx in g.prepared && g.prepared[tx].participants != [] && g.prepared[tx].coordinator == g.id
    && (tx !in g.decisions || g.decisions[tx].decision != Committed)
  }

  function Commit(g: Group, tx: TxId): (r: Replied) {
    if tx in g.committed then Replied(g, OK)
    else if tx in g.aborted then Replied(g, TxConflict)
    else if DecisionMissing(g, tx) then Replied(g, TxConflict)
    else if tx !in g.cache && tx !in g.prepared then Replied(g, TxNotFound)
    else
      var rec := if tx in g.cache then g.cache[tx] else g.prepared[tx];
      var loaded := if tx in g.cache then g
        else g.(cache := g.cache[tx := rec], locks := Locked(g.locks, rec.tx, rec.writes));
      match ApplyBatch(loaded.kv, Ops(rec.writes))
      case None => Replied(loaded, TxConflict)
      case Some(kv) => Replied(ApplyCommit(loaded, rec, kv), OK)
  }

  function Abort(g: Group, tx: TxId): (r: Replied) {
    if tx in g.committed then Replied(g, TxConflict)
    else if tx in g.aborted then Replied(g, OK)
    else
      var locks :=
        if tx in g.cache then map k | k in g.locks && !(k in Keys(g.cache[tx].writes) && g.locks[k] == tx) :: g.locks[k]
        else g.locks;
      Replied(
        g.(aborted := g.aborted + {tx}, locks := locks, cache := g.cache - {tx}, prepared := g.prepared - {tx}), OK)
  }

  /** RecordDecision: the first decision written stands. */
  function RecordDecision(g: Group, tx: TxId, d: DecisionRecord): (r: Replied) {
    if tx in g.decisions then Replied(g, if g.decisions[tx].decision == d.decision then OK else TxConflict)
    else Replied(g.(decisions := g.decisions[tx := d]), OK)
  }

  datatype Status = IsNotFound | IsPrepared(record: TxRecord) | IsDecided(decision: Decision)

  /** ResolveTxStatus for transactions that name their participants. */
  function ResolveStatus(g: Group, tx: TxId): (s: Status) {
    if tx in g.decisions then IsDecided(g.decisions[tx].decision)
    else if tx in g.committed then IsDecided(Committed)
    else if tx in g.aborted then IsDecided(Aborted)
    else if tx in g.prepared then IsPrepared(g.prepared[tx])
    else IsNotFound
  }

  // ---------------------------------------------------------------- restart

  /** One record of RebuildLockTable's scan. */
  function RebuildOne(g: Group, rec: TxRecord, answers: Answers): (r: Group) {
    if rec.tx in g.committed || rec.tx in g.aborted then g.(prepared := g.prepared - {rec.tx})
    else
      match QueryDecision(g, rec, answers)
      case Some(Committed) => ExecuteCommit(g, rec)
      case Some(Aborted) => ExecuteAbort(g, rec)
      case None => g.(locks := Locked(g.locks, rec.tx, rec.writes), cache := g.cache[rec.tx := rec])
  }

  function RebuildAll(g: Group, records: seq<TxRecord>, answers: Answers): (r: Group)
    decreases |records|
  {
    if records == [] then g else RebuildAll(RebuildOne(g, records[0], answers), records[1..], answers)
  }

  /** The records on disk, in the order the scan happens to visit them. */
  ghost predicate IsScan(g: Group, records: seq<TxRecord>) {
    && (forall i | 0 <= i < |records| :: records[i].tx in g.prepared && g.prepared[records[i].tx] == records[i])
    && (forall i, j | 0 <= i < j < |records| :: records[i].tx != records[j].tx)
    && (forall tx | tx in g.prepared :: exists i :: 0 <= i < |records| && records[i].tx == tx)
  }

  function Forget(g: Group): (r: Group) {
    g.(locks := map[], cache := map[])
  }

  /** A restart: memory is lost and RebuildLockTable runs. */
  function Restart(g: Group, records: seq<TxRecord>, answers: Answers): (r: Group) {
    RebuildAll(Forget(g), records, answers)
  }

  // ---------------------------------------------------------------- other changes to the store

  /** doExpire: locked keys are left to their transaction. */
  function Expire(g: Group, keys: seq<Key>, cutoff: int): (r: Group)
    decreases |keys|
  {
    if keys == [] then g
    else
      var k := keys[0];
      var next := if k in g.locks || k !in g.kv || !IsExpired(g.kv[k].expires, cutoff) then g
        else g.(kv := g.kv - {k}, history := g.history + [Removed(k)]);
      Expire(next, keys[1..], cutoff)
  }

  /** doPut on an owned shard; it does not look at the locks. */
  function Put(g: Group, key: Key, value: string, expected: nat, expires: int, now: int): (r: Group) {
    var p := PutCAS(g.kv, key, value, expected, expires, now);
    if p.status != PutOk then g else g.(kv := p.kv, history := g.history + [Stored(key, p.kv[key])])
  }

  /** doDelete on an owned shard; nor does it. */
  function Delete(g: Group, key: Key, now: int): (r: Group) {
    if !Live(g.kv, key, now) then g else g.(kv := g.kv - {key}, history := g.history + [Removed(key)])
  }
}
