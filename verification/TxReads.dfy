/** Validated reads over runs: every transaction that is decided COMMITTED had, at each of its
    groups, current reads and the locks on its writes when that group answered its prepare. */
module TxReads {
  import opened TxGroup
  import opened TxProtocol
  import opened TxRuns
  import opened TxAgreement
  import opened TxAnswers

  /** Step j was the plan's prepare at the group, and after it, at its clock reading, all the
      record's reads are current and all the keys it writes are locked for the transaction. */
  ghost predicate ValidatedAt(plans: Plans, states: seq<System>, steps: seq<Step>, j: nat, tx: TxId, p: Plan, g: int) {
    && j < |steps| && j + 1 < |states| && steps[j].ReceivePrepare?
    && steps[j].tx == tx && steps[j].plan == p && steps[j].group == g
    && g in states[j + 1].groups && g in p.records
    && var group, rec := states[j + 1].groups[g], p.records[g];
      && ReadsCurrent(group.kv, rec, steps[j].now)
      && (forall w | w in rec.writes :: w.key in group.locks && group.locks[w.key] == tx)
      && tx in group.prepared && group.prepared[tx] == rec
  }

  ghost predicate Validated(plans: Plans, states: seq<System>, steps: seq<Step>, k: nat, tx: TxId, p: Plan, g: int) {
    exists j: nat :: j < k && ValidatedAt(plans, states, steps, j, tx, p, g)
  }

  lemma OkIsValidated(plans: Plans, states: seq<System>, steps: seq<Step>, k: nat)
    requires IsRun(plans, states, steps) && k < |steps| && steps[k].ReceivePrepare?
    requires var step := steps[k];
      PrepareOk(step.tx, step.plan, step.group) in states[k + 1].msgs
        && PrepareOk(step.tx, step.plan, step.group) !in states[k].msgs
    ensures ValidatedAt(plans, states, steps, k, steps[k].tx, steps[k].plan, steps[k].group)
  {
    hide Prepare, ReadsCurrent;
    var step := steps[k];
    assert Enabled(plans, states[k], step) && states[k + 1] == Next(plans, states[k], step);
    assert PlanOk(step.tx, step.plan);
    PrepareExact(states[k].groups[step.group], step.plan.records[step.group], step.answers, step.now);
  }

  /** Only a prepare answers a prepare. */
  lemma OkFromPrepare(plans: Plans, s: System, step: Step, tx: TxId, p: Plan, g: int)
    requires PlansOk(plans) && Enabled(plans, s, step)
    requires PrepareOk(tx, p, g) in Next(plans, s, step).msgs && PrepareOk(tx, p, g) !in s.msgs
    ensures step.ReceivePrepare? && step.tx == tx && step.plan == p && step.group == g
  {
    hide Prepare, Commit, Abort, Restart, Expire, Put, Delete, ResolveStatus, RecordDecision;
  }

  /** Every OK to a prepare was given with the reads current. */
  lemma {:induction false} PreparedReadsCurrent(plans: Plans, states: seq<System>, steps: seq<Step>, k: nat, tx: TxId,
                                                p: Plan, g: int)
    requires IsRun(plans, states, steps) && k < |states| && PrepareOk(tx, p, g) in states[k].msgs
    ensures Validated(plans, states, steps, k, tx, p, g)
    decreases k
  {
    hide Next, Enabled, ValidatedAt, PlansOk;
    assert k > 0;
    assert Enabled(plans, states[k - 1], steps[k - 1]);
    if PrepareOk(tx, p, g) in states[k - 1].msgs {
      PreparedReadsCurrent(plans, states, steps, k - 1, tx, p, g);
      var j: nat :| j < k - 1 && ValidatedAt(plans, states, steps, j, tx, p, g);
      assert j < k;
    } else {
      OkFromPrepare(plans, states[k - 1], steps[k - 1], tx, p, g);
      OkIsValidated(plans, states, steps, k - 1);
    }
  }

  /** So COMMITTED is recorded only for a plan whose reads were current, and whose writes were
      locked, at every group when that group prepared. */
  lemma CommittedReadsCurrent(plans: Plans, homes: Homes, states: seq<System>, steps: seq<Step>, k: nat, tx: TxId)
    requires IsRun(plans, states, steps) && SharedBy(plans, homes) && k < |states|
    requires Decided(homes, states[k], tx, Committed)
    ensures exists p ::
      && Planned(plans, tx, p) && p.participants == Listed(homes, states[k], tx)
      && forall g | g in p.participants :: Validated(plans, states, steps, k, tx, p, g)
  {
    hide Next, Enabled, Initial, Validated, SharedBy, LocalInv, MarkersOk, MsgsOk;
    RunKeeps(plans, homes, states, steps, k);
    ListedBacked(plans, homes, states[k], tx);
    var participants := Listed(homes, states[k], tx);
    var p :| Planned(plans, tx, p) && p.participants == participants && AllPrepared(states[k].msgs, tx, p);
    forall g | g in p.participants
      ensures Validated(plans, states, steps, k, tx, p, g)
    {
      PreparedReadsCurrent(plans, states, steps, k, tx, p, g);
    }
  }

  /** Whoever asks a group about a decided transaction is told the decision. */
  lemma DecisionsAreTold(plans: Plans, s: System, tx: TxId, g: int, d: Decision)
    requires PlansOk(plans) && g in s.groups
    ensures ResolveStatus(s.groups[g], tx) == IsDecided(d) ==>
      Told(tx, d) in Next(plans, s, AskStatus(tx, g)).msgs
    ensures tx in s.groups[g].decisions && s.groups[g].decisions[tx].decision == d ==>
      Told(tx, d) in Next(plans, s, AskDecision(tx, g)).msgs
  {
    hide ResolveStatus;
  }

  /** In every run a status answer that names a decision names the one recorded at the
      coordinator group. */
  lemma StatusIsTrue(plans: Plans, homes: Homes, states: seq<System>, steps: seq<Step>, k: nat, tx: TxId, g: int)
    requires IsRun(plans, states, steps) && SharedBy(plans, homes) && tx in homes && k < |states|
    requires g in states[k].groups
    ensures forall d :: ResolveStatus(states[k].groups[g], tx) == IsDecided(d) ==> Decided(homes, states[k], tx, d)
  {
    hide Next, Enabled, Initial, SharedBy, LocalInv, MsgsOk, Backed;
    RunKeeps(plans, homes, states, steps, k);
    assert LocalInv(plans, states[k]);
  }
}
