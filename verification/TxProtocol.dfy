/** Two-phase commit between groups (pkg/kv/tx_coordinator.go with pkg/kv/tx.go): clients,
    rollback, background retry, recovery and restarts over messages that may be lost,
    delayed, reordered or delivered again. A message once sent stays in the set. */
module TxProtocol {
  import opened Store
  import opened TxGroup

  /** What one Commit of a handle sends: its groups in order, the first being the coordinator
      group, and the record for each. */
  datatype Plan = Plan(participants: seq<int>, records: map<int, TxRecord>)

  /** A handle can be changed and committed again, so a transaction can have several plans. */
  type Plans = map<TxId, set<Plan>>

  ghost predicate PlanOk(tx: TxId, p: Plan) {
    && p.participants != []
    && forall g | g in p.participants :: g in p.records
         && p.records[g].tx == tx
         && p.records[g].coordinator == p.participants[0]
         && p.records[g].participants == p.participants
         && DistinctKeys(Ops(p.records[g].writes))
  }

  ghost predicate PlansOk(plans: Plans) {
    forall tx, p | tx in plans && p in plans[tx] :: PlanOk(tx, p)
  }

  datatype Msg =
    | PrepareReq(tx: TxId, plan: Plan, group: int)
    | PrepareOk(tx: TxId, plan: Plan, group: int)
    | DecideReq(tx: TxId, group: int, record: DecisionRecord)
    | Told(tx: TxId, decision: Decision)
    | CommitReq(tx: TxId, group: int)
    | AbortReq(tx: TxId, group: int)

  datatype System = System(groups: map<int, Group>, msgs: set<Msg>)

  datatype Step =
    | SendPrepare(tx: TxId, plan: Plan, group: int)
    | ReceivePrepare(tx: TxId, plan: Plan, group: int, answers: Answers, now: int)
    | ProposeCommit(tx: TxId, plan: Plan, writes: seq<WriteKey>)
    | ProposeAbort(tx: TxId, plan: Plan)
    | ReceiveDecision(tx: TxId, group: int, record: DecisionRecord)
    | AskStatus(tx: TxId, group: int)
    | AskDecision(tx: TxId, group: int)
    | SendCommit(tx: TxId, group: int)
    | SendAbort(tx: TxId, group: int)
    | ReceiveCommit(tx: TxId, group: int)
    | ReceiveAbort(tx: TxId, group: int)
    | RestartGroup(group: int, records: seq<TxRecord>, answers: Answers)
    | ExpireKeys(group: int, keys: seq<Key>, cutoff: int)
    | PlainPut(group: int, key: Key, value: string, expected: nat, expires: int, now: int)
    | PlainDelete(group: int, key: Key, now: int)

  function Send(s: System, m: Msg): (r: System) {
    s.(msgs := s.msgs + {m})
  }

  function Update(s: System, g: int, group: Group): (r: System) {
    s.(groups := s.groups[g := group])
  }

  /** An answer used while resolving locks was once given. */
  ghost predicate Heard(s: System, answers: Answers) {
    forall tx | tx in answers :: Told(tx, answers[tx]) in s.msgs
  }

  /** The group a step runs on, if any. */
  predicate GroupThere(s: System, step: Step) {
    match step
    case ProposeCommit(_, _, _) => true
    case ProposeAbort(_, _) => true
    case _ => step.group in s.groups
  }

  ghost predicate Planned(plans: Plans, tx: TxId, p: Plan) {
    tx in plans && p in plans[tx]
  }

  /** Every group of the plan has answered its prepare with OK. */
  ghost predicate AllPrepared(msgs: set<Msg>, tx: TxId, p: Plan) {
    forall g | g in p.participants :: PrepareOk(tx, p, g) in msgs
  }

  /** When a step can happen. Commit is proposed only once every participant has answered OK;
      abort at any time: a prepare failed or timed out, or the client rolls back. Phase two is
      sent by whoever has heard the decision: the client, a retry, or a recovery. */
  ghost predicate Enabled(plans: Plans, s: System, step: Step) {
    && GroupThere(s, step)
    && match step
      case SendPrepare(tx, p, g) => Planned(plans, tx, p) && g in p.participants
      case ReceivePrepare(tx, p, g, answers, _) =>
        Planned(plans, tx, p) && g in p.participants && PrepareReq(tx, p, g) in s.msgs && Heard(s, answers)
      case ProposeCommit(tx, p, _) => Planned(plans, tx, p) && AllPrepared(s.msgs, tx, p)
      case ProposeAbort(tx, p) => Planned(plans, tx, p)
      case ReceiveDecision(tx, g, record) => DecideReq(tx, g, record) in s.msgs
      case SendCommit(tx, _) => Told(tx, Committed) in s.msgs
      case SendAbort(tx, _) => Told(tx, Aborted) in s.msgs
      case ReceiveCommit(tx, g) => CommitReq(tx, g) in s.msgs
      case ReceiveAbort(tx, g) => AbortReq(tx, g) in s.msgs
      case RestartGroup(g, records, answers) => IsScan(s.groups[g], records) && Heard(s, answers)
      case _ => true
  }

  ghost function Next(plans: Plans, s: System, step: Step): (r: System)
    requires PlansOk(plans) && Enabled(plans, s, step)
  {
    match step
    case SendPrepare(tx, p, g) => Send(s, PrepareReq(tx, p, g))
    case ReceivePrepare(tx, p, g, answers, now) =>
      var r := Prepare(s.groups[g], p.records[g], answers, now);
      if r.err == OK then Send(Update(s, g, r.group), PrepareOk(tx, p, g)) else Update(s, g, r.group)
    case ProposeCommit(tx, p, writes) =>
      Send(s, DecideReq(tx, p.participants[0], DecisionRecord(Committed, p.participants, writes)))
    case ProposeAbort(tx, p) =>
      Send(s, DecideReq(tx, p.participants[0], DecisionRecord(Aborted, p.participants, [])))
    case ReceiveDecision(tx, g, record) =>
      var r := RecordDecision(s.groups[g], tx, record);
      if r.err == OK then Send(Update(s, g, r.group), Told(tx, record.decision)) else Update(s, g, r.group)
    case AskStatus(tx, g) =>
      (match ResolveStatus(s.groups[g], tx)
       case IsDecided(d) => Send(s, Told(tx, d))
       case _ => s)
    case AskDecision(tx, g) =>
      if tx in s.groups[g].decisions then Send(s, Told(tx, s.groups[g].decisions[tx].decision)) else s
    case SendCommit(tx, g) => Send(s, CommitReq(tx, g))
    case SendAbort(tx, g) => Send(s, AbortReq(tx, g))
    case ReceiveCommit(tx, g) => Update(s, g, Commit(s.groups[g], tx).group)
    case ReceiveAbort(tx, g) => Update(s, g, Abort(s.groups[g], tx).group)
    case RestartGroup(g, records, answers) => Update(s, g, Restart(s.groups[g], records, answers))
    case ExpireKeys(g, keys, cutoff) => Update(s, g, Expire(s.groups[g], keys, cutoff))
    case PlainPut(g, key, value, expected, expires, now) =>
      Update(s, g, Put(s.groups[g], key, value, expected, expires, now))
    case PlainDelete(g, key, now) => Update(s, g, Delete(s.groups[g], key, now))
  }

  /** Groups that exist and have done nothing. */
  ghost predicate Initial(plans: Plans, s: System) {
    && s.msgs == {}
    && (forall g | g in s.groups :: s.groups[g] == Group(g, map[], map[], {}, {}, map[], map[], map[], []))
    && (forall tx, p, g | Planned(plans, tx, p) && g in p.participants :: g in s.groups)
  }

  ghost predicate IsRun(plans: Plans, states: seq<System>, steps: seq<Step>) {
    && PlansOk(plans)
    && |states| == |steps| + 1
    && Initial(plans, states[0])
    && forall i | 0 <= i < |steps| ::
         Enabled(plans, states[i], steps[i]) && states[i + 1] == Next(plans, states[i], steps[i])
  }
}
