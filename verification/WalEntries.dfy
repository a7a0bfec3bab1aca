/** Write-ahead-log entries and the requests they stand for (pkg/kv/consensus.go:260-432). */
module WalEntries {
  import opened Store
  import opened TxGroup

  datatype ReadItem = ReadItem(key: Key, value: string, expected: nat)
  datatype CleanupKey = CleanupKey(key: Key, expected: nat)
  datatype TxStatus = IsUnknown | IsPreparedStatus | IsCommitted | IsAborted | IsMissing

  datatype Request =
    | GetArgs(key: Key)
    | ScanArgs
    | PutArgs(key: Key, value: string, version: int, ttl: int)
    | DeleteArgs(key: Key)
    | ExpireArgs(keys: seq<Key>, cutoff: int)
    | CleanupShardArgs(shard: int, cleanup: seq<CleanupKey>)
    | SetShardStateArgs(shard: int, state: int, target: int, epoch: int, replicas: seq<string>)
    | PrepareTxArgs(tx: TxId, readItems: seq<ReadItem>, writes: seq<WriteKey>, timeout: int, coordinator: int,
                    participants: seq<int>)
    | CommitTxArgs(tx: TxId, writes: seq<WriteKey>)
    | AbortTxArgs(tx: TxId)
    | ResolveTxStatusArgs(tx: TxId)
    | RecordTxDecisionArgs(tx: TxId, decision: TxStatus, participants: seq<int>, writes: seq<WriteKey>)

  datatype OpType = GET | SCAN | PUT | DELETE | EXPIRE | CLEANUP_SHARD | SET_SHARD_STATE
    | PREPARE_TX | COMMIT_TX | ABORT_TX | RESOLVE_TX_STATUS | RECORD_TX_DECISION | OTHER

  datatype Entry = Entry(
    index: int, op: OpType, key: Key, value: string, version: int, ttl: int,
    keys: seq<Key>, versions: seq<nat>, cutoff: int,
    shard: int, state: int, target: int, epoch: int, replicas: seq<string>,
    txReadKeys: seq<Key>, txReadVersions: seq<nat>,
    txWriteKeys: seq<Key>, txWriteValues: seq<string>, txWriteVersions: seq<nat>, txWriteDeletes: seq<bool>,
    txTimeout: int, txCoordinator: int, txParticipants: seq<int>, txDecision: TxStatus)

  function Blank(index: int, op: OpType): (e: Entry) {
    Entry(index, op, "", "", 0, 0, [], [], 0, 0, 0, 0, 0, [], [], [], [], [], [], [], 0, 0, [], IsUnknown)
  }

  function Map<A, B>(f: A -> B, s: seq<A>): (r: seq<B>)
    ensures |r| == |s| && forall i | 0 <= i < |s| :: r[i] == f(s[i])
  {
    seq(|s|, i requires 0 <= i < |s| => f(s[i]))
  }

  function WithWrites(e: Entry, writes: seq<WriteKey>): (r: Entry) {
    e.(txWriteKeys := Map((w: WriteKey) => w.key, writes), txWriteValues := Map((w: WriteKey) => w.value, writes),
       txWriteVersions := Map((w: WriteKey) => w.version, writes),
       txWriteDeletes := Map((w: WriteKey) => w.isDelete, writes))
  }

  /** walEntryFromOp */
  function FromRequest(index: int, req: Request): (e: Entry) {
    match req
    case GetArgs(key) => Blank(index, GET).(key := key)
    case ScanArgs => Blank(index, SCAN)
    case PutArgs(key, value, version, ttl) =>
      Blank(index, PUT).(key := key, value := value, version := version, ttl := ttl)
    case DeleteArgs(key) => Blank(index, DELETE).(key := key)
    case ExpireArgs(keys, cutoff) => Blank(index, EXPIRE).(keys := keys, cutoff := cutoff)
    case CleanupShardArgs(shard, cleanup) =>
      Blank(index, CLEANUP_SHARD).(version := shard,
        keys := Map((c: CleanupKey) => c.key, cleanup), versions := Map((c: CleanupKey) => c.expected, cleanup))
    case SetShardStateArgs(shard, state, target, epoch, replicas) =>
      Blank(index, SET_SHARD_STATE).(shard := shard, state := state, target := target, epoch := epoch,
        replicas := replicas)
    case PrepareTxArgs(tx, readItems, writes, timeout, coordinator, participants) =>
      WithWrites(Blank(index, PREPARE_TX), writes).(key := tx,
        txReadKeys := Map((r: ReadItem) => r.key, readItems),
        txReadVersions := Map((r: ReadItem) => r.expected, readItems),
        txTimeout := timeout, txCoordinator := coordinator, txParticipants := participants)
    case CommitTxArgs(tx, writes) => WithWrites(Blank(index, COMMIT_TX), writes).(key := tx)
    case AbortTxArgs(tx) => Blank(index, ABORT_TX).(key := tx)
    case ResolveTxStatusArgs(tx) => Blank(index, RESOLVE_TX_STATUS).(key := tx)
    case RecordTxDecisionArgs(tx, decision, participants, _) =>
      Blank(index, RECORD_TX_DECISION).(key := tx, txDecision := decision, txParticipants := participants)
  }

  /** An unreadable entry, one that changes nothing, or a request to execute. */
  datatype Parsed = Bad | Skip | Do(req: Request)

  predicate WritesMatch(e: Entry) {
    |e.txWriteKeys| == |e.txWriteValues| == |e.txWriteVersions| == |e.txWriteDeletes|
  }

  function Writes(e: Entry): (r: seq<WriteKey>)
    requires WritesMatch(e)
    ensures |r| == |e.txWriteKeys|
  {
    seq(|e.txWriteKeys|, i requires 0 <= i < |e.txWriteKeys| =>
      WriteKey(e.txWriteKeys[i], e.txWriteValues[i], e.txWriteVersions[i], e.txWriteDeletes[i]))
  }

  /** walEntryToRequest */
  function ToRequest(e: Entry): (r: Parsed) {
    match e.op
    case GET => Skip
    case SCAN => Skip
    case PUT => Do(PutArgs(e.key, e.value, e.version, e.ttl))
    case DELETE => Do(DeleteArgs(e.key))
    case EXPIRE => Do(ExpireArgs(e.keys, e.cutoff))
    case CLEANUP_SHARD =>
      if |e.keys| != |e.versions| then Bad
      else Do(CleanupShardArgs(e.version,
        seq(|e.keys|, i requires 0 <= i < |e.keys| => CleanupKey(e.keys[i], e.versions[i]))))
    case SET_SHARD_STATE => Do(SetShardStateArgs(e.shard, e.state, e.target, e.epoch, e.replicas))
    case PREPARE_TX =>
      if |e.txReadKeys| != |e.txReadVersions| || !WritesMatch(e) then Bad
      else Do(PrepareTxArgs(e.key,
        seq(|e.txReadKeys|, i requires 0 <= i < |e.txReadKeys| => ReadItem(e.txReadKeys[i], "", e.txReadVersions[i])),
        Writes(e), e.txTimeout, e.txCoordinator, e.txParticipants))
    case COMMIT_TX => if !WritesMatch(e) then Bad else Do(CommitTxArgs(e.key, Writes(e)))
    case ABORT_TX => Do(AbortTxArgs(e.key))
    case RECORD_TX_DECISION => Do(RecordTxDecisionArgs(e.key, e.txDecision, e.txParticipants, []))
    case RESOLVE_TX_STATUS => Skip
    case OTHER => Bad
  }

  /** Requests that are logged but not executed again. */
  predicate ReadOnly(req: Request) {
    req.GetArgs? || req.ScanArgs? || req.ResolveTxStatusArgs?
  }

  /** Every request that can change the store, a shard's state or a transaction is executed
      again. */
  lemma ChangingIsReplayed(index: int, req: Request)
    ensures ToRequest(FromRequest(index, req)).Do? <==>
      || req.PutArgs? || req.DeleteArgs? || req.ExpireArgs? || req.CleanupShardArgs? || req.SetShardStateArgs?
      || req.PrepareTxArgs? || req.CommitTxArgs? || req.AbortTxArgs? || req.RecordTxDecisionArgs?
  {}

  /** Nothing of the request is missing from its entry. */
  predicate FullyLogged(req: Request) {
    match req
    case PrepareTxArgs(_, readItems, _, _, _, _) => forall i | 0 <= i < |readItems| :: readItems[i].value == ""
    case RecordTxDecisionArgs(_, _, _, writes) => writes == []
    case _ => true
  }

  lemma WritesBack(e: Entry, writes: seq<WriteKey>)
    ensures WritesMatch(WithWrites(e, writes)) && Writes(WithWrites(e, writes)) == writes
  {}

  /** What a log round trip loses: reads are skipped; a changing request comes back exactly
      if and only if it carries no read values and no decision write keys. */
  lemma RoundTripExact(index: int, req: Request)
    ensures FromRequest(index, req).index == index && ToRequest(FromRequest(index, req)) != Bad
    ensures ToRequest(FromRequest(index, req)) == Skip <==> ReadOnly(req)
    ensures !ReadOnly(req) ==> (ToRequest(FromRequest(index, req)) == Do(req) <==> FullyLogged(req))
  {
    var e := FromRequest(index, req);
    match req {
      case CleanupShardArgs(shard, cleanup) =>
        assert ToRequest(e).req.cleanup == cleanup;
      case PrepareTxArgs(tx, readItems, writes, timeout, coordinator, participants) =>
        WritesBack(Blank(index, PREPARE_TX), writes);
        assert Writes(e) == writes;
        var back := ToRequest(e).req.readItems;
        assert forall i | 0 <= i < |readItems| :: back[i] == ReadItem(readItems[i].key, "", readItems[i].expected);
        assert FullyLogged(req) ==> back == readItems;
      case CommitTxArgs(tx, writes) =>
        WritesBack(Blank(index, COMMIT_TX), writes);
        assert Writes(e) == writes;
      case _ =>
    }
  }
}
