/** What every run keeps at each group on its own, whatever plans the transactions have:
    records and applied write sets are ones that were sent, and effects happen exactly once. */
module TxRuns {
  import opened Options
  import opened TxGroup
  import opened TxLocal
  import opened TxProtocol

  /** One of the transaction's plans has this record for the group. */
  ghost predicate Sent(plans: Plans, tx: TxId, g: int, rec: TxRecord) {
    exists p :: Planned(plans, tx, p) && g in p.participants && g in p.records && p.records[g] == rec
  }

  ghost predicate RecordsOk(plans: Plans, s: System) {
    forall g, tx | g in s.groups && tx in s.groups[g].prepared :: Sent(plans, tx, g, s.groups[g].prepared[tx])
  }

  ghost predicate AppliedAsSent(plans: Plans, g: int, e: Event) {
    e.Applied? ==> exists rec :: Sent(plans, e.tx, g, rec) && rec.writes == e.writes
  }

  ghost predicate HistoriesOk(plans: Plans, s: System) {
    forall g, e | g in s.groups && e in s.groups[g].history :: AppliedAsSent(plans, g, e)
  }

  ghost predicate GroupsOk(s: System) {
    forall g | g in s.groups :: s.groups[g].id == g && GroupOk(s.groups[g])
  }

  ghost predicate LocalInv(plans: Plans, s: System) {
    && (forall tx, p, g | Planned(plans, tx, p) && g in p.participants :: g in s.groups)
    && GroupsOk(s) && RecordsOk(plans, s) && HistoriesOk(plans, s)
  }

  // ---------------------------------------------------------------- one group moves

  lemma MoveKeepsLocal(plans: Plans, s: System, g: int, group: Group, yes: set<TxId>, no: set<TxId>)
    requires LocalInv(plans, s) && g in s.groups && Evolves(s.groups[g], group, yes, no)
    ensures LocalInv(plans, Update(s, g, group))
  {
    hide GroupOk, Sent, PlanOk;
    var s' := Update(s, g, group);
    forall h, e | h in s'.groups && e in s'.groups[h].history
      ensures AppliedAsSent(plans, h, e)
    {
      if h == g && e.Applied? && e !in s.groups[g].history {
        assert Sent(plans, e.tx, g, s.groups[g].prepared[e.tx]);
      }
    }
  }

  lemma RecordKeepsLocal(plans: Plans, s: System, p: Plan, tx: TxId, g: int, group: Group)
    requires PlansOk(plans) && LocalInv(plans, s) && Planned(plans, tx, p) && g in p.participants && g in s.groups
    requires GroupOk(group) && PlanOk(tx, p)
    requires var was := s.groups[g];
      group == was.(prepared := was.prepared[tx := p.records[g]], cache := group.cache, locks := group.locks)
    ensures LocalInv(plans, Update(s, g, group))
  {
    hide GroupOk, Sent, AppliedAsSent;
    assert Sent(plans, tx, g, p.records[g]) by { SentNow(plans, tx, p, g); }
  }

  lemma SentNow(plans: Plans, tx: TxId, p: Plan, g: int)
    requires Planned(plans, tx, p) && g in p.participants && g in p.records
    ensures Sent(plans, tx, g, p.records[g])
  {}

  lemma DecisionKeepsLocal(plans: Plans, s: System, g: int, group: Group)
    requires LocalInv(plans, s) && g in s.groups && group == s.groups[g].(decisions := group.decisions)
    ensures LocalInv(plans, Update(s, g, group))
  {
    hide Sent, AppliedAsSent;
    assert ExactlyOnce(group);
  }

  // ---------------------------------------------------------------- every step, every run

  /** Steps that change one group and send nothing. */
  ghost predicate IsGroupStep(step: Step) {
    step.ReceiveCommit? || step.ReceiveAbort? || step.RestartGroup? || step.ExpireKeys? || step.PlainPut?
      || step.PlainDelete?
  }

  /** The step marks a transaction committed only from yes and aborted only from no. */
  ghost predicate StepApproved(s: System, step: Step, yes: set<TxId>, no: set<TxId>)
    requires GroupThere(s, step)
  {
    match step
    case ReceivePrepare(_, _, g, answers, _) => Approved(s.groups[g], answers, yes, no)
    case RestartGroup(g, _, answers) => Approved(s.groups[g], answers, yes, no)
    case ReceiveCommit(tx, _) => tx in yes
    case ReceiveAbort(tx, _) => tx in no
    case _ => true
  }

  lemma GroupStepEvolves(plans: Plans, s: System, step: Step, yes: set<TxId>, no: set<TxId>)
    requires PlansOk(plans) && GroupsOk(s) && Enabled(plans, s, step) && IsGroupStep(step)
    requires StepApproved(s, step, yes, no)
    ensures var s' := Next(plans, s, step);
      && step.group in s'.groups && s' == Update(s, step.group, s'.groups[step.group])
      && Evolves(s.groups[step.group], s'.groups[step.group], yes, no)
  {
    hide Evolves, GroupOk, Approved, Commit, Abort, Restart, Expire, Put, Delete;
    var group := s.groups[step.group];
    match step {
      case ReceiveCommit(tx, _) => CommitRequestEvolves(group, tx, yes, no);
      case ReceiveAbort(tx, _) => AbortRequestEvolves(group, tx, yes, no);
      case RestartGroup(_, records, answers) => RestartEvolves(group, records, answers, yes, no);
      case ExpireKeys(_, keys, cutoff) => ExpireEvolves(group, keys, cutoff, yes, no);
      case PlainPut(_, key, value, expected, expires, now) =>
        PutEvolves(group, key, value, expected, expires, now, yes, no);
      case PlainDelete(_, key, now) => DeleteEvolves(group, key, now, yes, no);
    }
  }

  /** A prepare first resolves the locks in its way, then may record itself. */
  lemma PrepareMoves(plans: Plans, s: System, step: Step, yes: set<TxId>, no: set<TxId>)
    requires PlansOk(plans) && GroupsOk(s) && Enabled(plans, s, step) && step.ReceivePrepare?
    requires StepApproved(s, step, yes, no)
    ensures PlanOk(step.tx, step.plan)
    ensures var rec, g := step.plan.records[step.group], step.group;
      var c := ClearConflicts(s.groups[g], rec.tx, rec.writes, step.answers).group;
      var r := Prepare(s.groups[g], rec, step.answers, step.now);
      && Evolves(s.groups[g], c, yes, no) && GroupOk(r.group)
      && (r.err == OK ==>
            && r.group == c.(prepared := c.prepared[rec.tx := rec], cache := r.group.cache, locks := r.group.locks)
            && Next(plans, s, step) == Send(Update(Update(s, g, c), g, r.group), PrepareOk(step.tx, step.plan, g)))
      && (r.err != OK ==> Next(plans, s, step) == Update(s, g, c))
  {
    hide Evolves, GroupOk, Approved, Prepare, ClearConflicts;
    var rec, g := step.plan.records[step.group], step.group;
    assert PlanOk(step.tx, step.plan);
    PrepareEvolves(s.groups[g], rec, step.answers, step.now, yes, no);
    var c := ClearConflicts(s.groups[g], rec.tx, rec.writes, step.answers).group;
    assert forall group :: Update(Update(s, g, c), g, group) == Update(s, g, group);
  }

  lemma StepKeepsLocal(plans: Plans, s: System, step: Step, yes: set<TxId>, no: set<TxId>)
    requires PlansOk(plans) && LocalInv(plans, s) && Enabled(plans, s, step) && StepApproved(s, step, yes, no)
    ensures LocalInv(plans, Next(plans, s, step))
  {
    hide GroupOk, Evolves, Approved, RecordsOk, HistoriesOk, Prepare, ClearConflicts;
    hide Commit, Abort, Restart, Expire, Put, Delete, ResolveStatus;
    match step {
      case ReceivePrepare(tx, p, g, answers, now) =>
        PrepareMoves(plans, s, step, yes, no);
        var rec := p.records[g];
        var c := ClearConflicts(s.groups[g], rec.tx, rec.writes, answers).group;
        var r := Prepare(s.groups[g], rec, answers, now);
        MoveKeepsLocal(plans, s, g, c, yes, no);
        if r.err == OK {
          RecordKeepsLocal(plans, Update(s, g, c), p, tx, g, r.group);
          SameLocal(plans, Update(Update(s, g, c), g, r.group), Next(plans, s, step));
        }
      case ReceiveDecision(tx, g, record) =>
        var r := RecordDecision(s.groups[g], tx, record);
        DecisionKeepsLocal(plans, s, g, r.group);
        SameLocal(plans, Update(s, g, r.group), Next(plans, s, step));
      case SendPrepare(_, _, _) => SameLocal(plans, s, Next(plans, s, step));
      case ProposeCommit(_, _, _) => SameLocal(plans, s, Next(plans, s, step));
      case ProposeAbort(_, _) => SameLocal(plans, s, Next(plans, s, step));
      case AskStatus(_, _) => SameLocal(plans, s, Next(plans, s, step));
      case AskDecision(_, _) => SameLocal(plans, s, Next(plans, s, step));
      case SendCommit(_, _) => SameLocal(plans, s, Next(plans, s, step));
      case SendAbort(_, _) => SameLocal(plans, s, Next(plans, s, step));
      case _ =>
        GroupStepEvolves(plans, s, step, yes, no);
        MoveKeepsLocal(plans, s, step.group, Next(plans, s, step).groups[step.group], yes, no);
    }
  }

  lemma SameLocal(plans: Plans, s: System, s': System)
    requires LocalInv(plans, s) && s.groups == s'.groups
    ensures LocalInv(plans, s')
  {
    hide GroupOk, Sent, AppliedAsSent;
  }

  /** Any step is approved by a large enough set. */
  lemma SomehowApproved(plans: Plans, s: System, step: Step) returns (all: set<TxId>)
    requires Enabled(plans, s, step)
    ensures StepApproved(s, step, all, all)
  {
    all := {};
    if step.ReceiveCommit? || step.ReceiveAbort? {
      all := {step.tx};
    } else if step.ReceivePrepare? || step.RestartGroup? {
      all := s.groups[step.group].prepared.Keys;
    }
  }

  lemma InitialLocal(plans: Plans, s: System)
    requires Initial(plans, s)
    ensures LocalInv(plans, s)
  {}

  lemma {:induction false} RunKeepsLocal(plans: Plans, states: seq<System>, steps: seq<Step>, i: nat)
    requires IsRun(plans, states, steps) && i < |states|
    ensures LocalInv(plans, states[i])
  {
    hide LocalInv, Next, Enabled, Initial, StepApproved;
    if i == 0 {
      InitialLocal(plans, states[0]);
    } else {
      RunKeepsLocal(plans, states, steps, i - 1);
      assert Enabled(plans, states[i - 1], steps[i - 1]);
      var all := SomehowApproved(plans, states[i - 1], steps[i - 1]);
      StepKeepsLocal(plans, states[i - 1], steps[i - 1], all, all);
    }
  }

  /** Effects exactly once: each group's store is its history; a write set occurs there once
      if the commit marker exists and otherwise never, and always as one of the transaction's
      plans sent it to this group. */
  lemma AppliedExactlyOnce(plans: Plans, states: seq<System>, steps: seq<Step>, i: nat, g: int, tx: TxId)
    requires IsRun(plans, states, steps) && i < |states| && g in states[i].groups
    ensures var group := states[i].groups[g];
      && Replay(group.history) == Some(group.kv)
      && Times(group.history, tx) == (if tx in group.committed then 1 else 0)
      && (forall e | e in group.history && e.Applied? ::
            exists rec :: Sent(plans, e.tx, g, rec) && rec.writes == e.writes)
  {
    hide Initial, Enabled, Next, Sent;
    RunKeepsLocal(plans, states, steps, i);
    forall e | e in states[i].groups[g].history && e.Applied?
      ensures exists rec :: Sent(plans, e.tx, g, rec) && rec.writes == e.writes
    {
      assert AppliedAsSent(plans, g, e);
    }
  }
}
