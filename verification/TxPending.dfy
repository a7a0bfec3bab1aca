/** Locks and prepared write sets over whole runs, group by group: exactly when the pending
    transactions keep their locks, and exactly when the batch of one of them stays applicable. */
module TxPending {
  import opened Store
  import opened TxGroup
  import opened TxLocal
  import opened TxLocks
  import opened TxRebuild
  import opened TxProtocol
  import opened TxRuns
  import opened TxAgreement

  /** A restart of the group that learns COMMITTED for a transaction whose write set no longer
      applies. */
  ghost predicate MeetsStuck(s: System, step: Step, g: int) {
    step.RestartGroup? && step.group == g && g in s.groups && exists tx :: Stuck(s.groups[g], tx, step.answers)
  }

  /** The group's pending transactions own the locks on all their keys. */
  ghost predicate HeldAt(s: System, g: int) {
    g in s.groups ==> LocksHeld(s.groups[g])
  }

  /** The same with well-formed records, which every run keeps. */
  ghost predicate SoundAt(s: System, g: int) {
    g in s.groups ==> Held(s.groups[g])
  }

  /** A step after which the transaction, without a marker, has a write set that does not
      apply: its own prepare succeeded without its versions, or a plain write changed the
      version of one of its keys. */
  ghost predicate Disturbs(plans: Plans, s: System, step: Step, g: int, tx: TxId)
    requires PlansOk(plans) && Enabled(plans, s, step)
  {
    match step
    case ReceivePrepare(t, p, h, answers, now) =>
      var r := Prepare(s.groups[h], p.records[h], answers, now);
      && t == tx && h == g && r.err == OK && tx !in r.group.committed && tx !in r.group.aborted
      && !Applies(r.group.kv, p.records[h].writes)
    case PlainPut(h, key, value, expected, expires, now) =>
      && h == g && Pending(s.groups[h], tx)
      && Bumps(s.groups[h].kv, PutCAS(s.groups[h].kv, key, value, expected, expires, now).kv, key,
           s.groups[h].prepared[tx].writes)
    case PlainDelete(h, key, now) =>
      && h == g && Pending(s.groups[h], tx)
      && Bumps(s.groups[h].kv, DeleteKey(s.groups[h].kv, key, now), key, s.groups[h].prepared[tx].writes)
    case _ => false
  }

  /** While the transaction is pending here, its batch would succeed. */
  ghost predicate Valid(s: System, g: int, tx: TxId) {
    g in s.groups && Pending(s.groups[g], tx) ==>
      ApplyBatch(s.groups[g].kv, Ops(s.groups[g].prepared[tx].writes)).Some?
  }

  // ---------------------------------------------------------------- one step

  /** In every reachable state records are well formed. */
  lemma WellFormedInRuns(plans: Plans, s: System, g: int)
    requires PlansOk(plans) && LocalInv(plans, s) && g in s.groups
    ensures RecordsWellFormed(s.groups[g])
  {
    hide ExactlyOnce, HistoriesOk, DistinctKeys;
    assert GroupOk(s.groups[g]);
    forall tx | tx in s.groups[g].prepared
      ensures DistinctKeys(Ops(s.groups[g].prepared[tx].writes))
    {
      assert Sent(plans, tx, g, s.groups[g].prepared[tx]);
      var p :| Planned(plans, tx, p) && g in p.participants && g in p.records
        && p.records[g] == s.groups[g].prepared[tx];
      assert PlanOk(tx, p);
    }
  }

  lemma ValidExact(plans: Plans, s: System, g: int, tx: TxId)
    requires PlansOk(plans) && LocalInv(plans, s)
    ensures Valid(s, g, tx) <==>
      (g in s.groups && Pending(s.groups[g], tx) ==> Applies(s.groups[g].kv, s.groups[g].prepared[tx].writes))
  {
    hide LocalInv, ApplyBatch, Applies, DistinctKeys;
    if g in s.groups && Pending(s.groups[g], tx) {
      WellFormedInRuns(plans, s, g);
      AppliesExact(s.groups[g].kv, s.groups[g].prepared[tx].writes);
    }
  }

  lemma DecisionAside(g: Group, g': Group)
    requires Held(g) && g' == g.(decisions := g'.decisions)
    ensures Steady(g, g')
  {
    hide Keys, Applies, DistinctKeys;
    LocksOnly(g, g');
  }

  lemma PutAgrees(g: Group, key: Key, value: string, expected: nat, expires: int, now: int)
    ensures var g' := Put(g, key, value, expected, expires, now);
      && g' == g.(kv := g'.kv, history := g'.history)
      && g'.kv == PutCAS(g.kv, key, value, expected, expires, now).kv
      && forall k | k != key :: Agree(g.kv, g'.kv, k)
  {}

  lemma DeleteAgrees(g: Group, key: Key, now: int)
    ensures var g' := Delete(g, key, now);
      && g' == g.(kv := g'.kv, history := g'.history)
      && g'.kv == DeleteKey(g.kv, key, now)
      && forall k | k != key :: Agree(g.kv, g'.kv, k)
  {}

  /** What a step does to one group, if it is not a stuck restart of that group. */
  lemma StepOnGroup(plans: Plans, s: System, step: Step, g: int)
    requires PlansOk(plans) && Enabled(plans, s, step) && g in s.groups && Held(s.groups[g])
    requires !MeetsStuck(s, step, g)
    ensures var s' := Next(plans, s, step);
      && s'.groups.Keys == s.groups.Keys && Held(s'.groups[g])
      && (!step.ReceivePrepare? && !step.PlainPut? && !step.PlainDelete? ==> Steady(s.groups[g], s'.groups[g]))
  {
    hide Held, Steady, Prepare, Commit, Abort, Restart, Expire, Put, Delete, ResolveStatus, Applies, DistinctKeys;
    var group := s.groups[g];
    SteadySelf(group);
    match step {
      case ReceivePrepare(tx, p, h, answers, now) =>
        assert PlanOk(tx, p);
        if h == g { TxLocks.PrepareKeeps(group, p.records[h], answers, now); }
      case ReceiveDecision(tx, h, record) =>
        if h == g { DecisionAside(group, RecordDecision(group, tx, record).group); }
      case ReceiveCommit(tx, h) => if h == g { CommitKeeps(group, tx); }
      case ReceiveAbort(tx, h) => if h == g { AbortKeeps(group, tx); }
      case RestartGroup(h, records, answers) => if h == g { RestartKeeps(group, records, answers); }
      case ExpireKeys(h, keys, cutoff) => if h == g { ExpireKeeps(group, keys, cutoff); }
      case PlainPut(h, key, value, expected, expires, now) =>
        PutAgrees(group, key, value, expected, expires, now);
        if h == g { PlainKeeps(group, Put(group, key, value, expected, expires, now)); }
      case PlainDelete(h, key, now) =>
        DeleteAgrees(group, key, now);
        if h == g { PlainKeeps(group, Delete(group, key, now)); }
      case _ =>
    }
    SteadyIsHeld(group, Next(plans, s, step).groups[g]);
  }

  lemma SteadyIsHeld(g: Group, g': Group)
    ensures Steady(g, g') ==> Held(g')
  {}

  /** A pending transaction's verdict changes exactly by a step that disturbs it. */
  lemma StepOnWrites(plans: Plans, s: System, step: Step, g: int, tx: TxId)
    requires PlansOk(plans) && Enabled(plans, s, step)
    requires LocalInv(plans, s) && LocalInv(plans, Next(plans, s, step))
    requires g in s.groups && Held(s.groups[g]) && !MeetsStuck(s, step, g) && Valid(s, g, tx)
    ensures Valid(Next(plans, s, step), g, tx) <==> !Disturbs(plans, s, step, g, tx)
  {
    hide LocalInv, Held, Prepare, Put, Delete, Commit, Abort, Restart, Expire, ResolveStatus, RecordDecision;
    hide Applies, DistinctKeys, ApplyBatch, Valid, Bumps;
    var s' := Next(plans, s, step);
    StepOnGroup(plans, s, step, g);
    ValidExact(plans, s, g, tx);
    ValidExact(plans, s', g, tx);
    var group := s.groups[g];
    match step {
      case ReceivePrepare(t, p, h, answers, now) =>
        assert PlanOk(t, p);
        if h == g { TxLocks.PrepareKeeps(group, p.records[h], answers, now); }
      case PlainPut(h, key, value, expected, expires, now) =>
        PutAgrees(group, key, value, expected, expires, now);
        if h == g && Pending(group, tx) {
          BumpsExact(group.kv, Put(group, key, value, expected, expires, now).kv, key, group.prepared[tx].writes);
        }
      case PlainDelete(h, key, now) =>
        DeleteAgrees(group, key, now);
        if h == g && Pending(group, tx) {
          BumpsExact(group.kv, Delete(group, key, now).kv, key, group.prepared[tx].writes);
        }
      case _ =>
    }
  }

  // ---------------------------------------------------------------- runs

  lemma {:induction false} HeldUntil(plans: Plans, states: seq<System>, steps: seq<Step>, n: nat, g: int)
    requires IsRun(plans, states, steps) && n < |states| && forall i | 0 <= i < n :: !MeetsStuck(states[i], steps[i], g)
    ensures SoundAt(states[n], g) && HeldAt(states[n], g)
    decreases n
  {
    hide Next, Enabled, MeetsStuck, Held;
    if n == 0 {
      InitiallySound(plans, states[0], g);
    } else {
      HeldUntil(plans, states, steps, n - 1, g);
      assert Enabled(plans, states[n - 1], steps[n - 1]);
      SameGroups(plans, states[n - 1], steps[n - 1]);
      if g in states[n].groups {
        StepOnGroup(plans, states[n - 1], steps[n - 1], g);
      }
    }
    SoundIsHeld(states[n], g);
  }

  lemma InitiallySound(plans: Plans, s: System, g: int)
    requires Initial(plans, s)
    ensures SoundAt(s, g)
  {}

  lemma SoundIsHeld(s: System, g: int)
    requires SoundAt(s, g)
    ensures HeldAt(s, g)
  {
    hide LocksHeld;
  }

  lemma SameGroups(plans: Plans, s: System, step: Step)
    requires PlansOk(plans) && Enabled(plans, s, step)
    ensures Next(plans, s, step).groups.Keys == s.groups.Keys
  {
    hide Prepare, Commit, Abort, Restart, Expire, Put, Delete, ResolveStatus, RecordDecision;
  }

  /** The lock invariant over every run, with no assumption on prepares, plain writes or other
      groups: every transaction pending at the group owns the locks on all its keys in every
      state up to n if and only if no restart of the group before n meets a stuck transaction. */
  lemma LockInvariant(plans: Plans, states: seq<System>, steps: seq<Step>, n: nat, g: int)
    requires IsRun(plans, states, steps) && n < |states|
    ensures (forall i | 0 <= i <= n :: HeldAt(states[i], g)) <==>
      (forall i | 0 <= i < n :: !MeetsStuck(states[i], steps[i], g))
  {
    hide Next, Enabled, MeetsStuck, HeldAt, Held, Initial;
    if forall i | 0 <= i < n :: !MeetsStuck(states[i], steps[i], g) {
      forall i | 0 <= i <= n
        ensures HeldAt(states[i], g)
      {
        HeldUntil(plans, states, steps, i, g);
      }
    } else {
      var i :| 0 <= i < n && MeetsStuck(states[i], steps[i], g);
      assert Enabled(plans, states[i], steps[i]);
      if HeldAt(states[i], g) {
        RunKeepsLocal(plans, states, steps, i);
        StuckLoses(plans, states[i], steps[i], g);
        assert !HeldAt(states[i + 1], g);
      }
    }
  }

  lemma StuckLoses(plans: Plans, s: System, step: Step, g: int)
    requires PlansOk(plans) && LocalInv(plans, s) && Enabled(plans, s, step) && MeetsStuck(s, step, g) && HeldAt(s, g)
    ensures !HeldAt(Next(plans, s, step), g)
  {
    hide LocalInv, Stuck, Restart, LocksHeld, RecordsWellFormed;
    var tx :| Stuck(s.groups[g], tx, step.answers);
    WellFormedInRuns(plans, s, g);
    RestartLoses(s.groups[g], step.records, step.answers, tx);
    assert g in Next(plans, s, step).groups;
  }

  /** The same for all groups together. */
  lemma AllLocksInvariant(plans: Plans, states: seq<System>, steps: seq<Step>, n: nat)
    requires IsRun(plans, states, steps) && n < |states|
    ensures (forall i, g | 0 <= i <= n :: HeldAt(states[i], g)) <==>
      (forall i, g | 0 <= i < n :: !MeetsStuck(states[i], steps[i], g))
  {
    hide Next, Enabled, MeetsStuck, HeldAt, Initial;
    if forall i, g | 0 <= i < n :: !MeetsStuck(states[i], steps[i], g) {
      forall i, g | 0 <= i <= n
        ensures HeldAt(states[i], g)
      {
        LockInvariant(plans, states, steps, n, g);
      }
    } else {
      var i, g :| 0 <= i < n && MeetsStuck(states[i], steps[i], g);
      LockInvariant(plans, states, steps, n, g);
    }
  }

  /** A prepared write set stays valid, one transaction at one group at a time: in every run in
      which no restart of the group meets a stuck transaction, whatever other prepares found and
      other groups do, the transaction's batch would succeed in every state in which it is
      pending if and only if its own prepares found its versions and no plain write changed the
      version of one of its keys while it was pending. */
  lemma PreparedStaysValid(plans: Plans, states: seq<System>, steps: seq<Step>, n: nat, g: int, tx: TxId)
    requires IsRun(plans, states, steps) && n < |states| && forall i | 0 <= i < n :: !MeetsStuck(states[i], steps[i], g)
    ensures (forall i | 0 <= i <= n :: Valid(states[i], g, tx)) <==>
      (forall i | 0 <= i < n && Enabled(plans, states[i], steps[i]) :: !Disturbs(plans, states[i], steps[i], g, tx))
  {
    hide Next, Enabled, MeetsStuck, Valid, Disturbs, Initial;
    if forall i | 0 <= i < n && Enabled(plans, states[i], steps[i]) :: !Disturbs(plans, states[i], steps[i], g, tx) {
      forall i | 0 <= i <= n
        ensures Valid(states[i], g, tx)
      {
        ValidUntil(plans, states, steps, i, g, tx);
      }
    } else {
      var i :| 0 <= i < n && Enabled(plans, states[i], steps[i]) && Disturbs(plans, states[i], steps[i], g, tx);
      if Valid(states[i], g, tx) {
        VerdictStep(plans, states, steps, i, g, tx);
      }
    }
  }

  /** One step of the run, seen by one transaction at one group. */
  lemma VerdictStep(plans: Plans, states: seq<System>, steps: seq<Step>, i: nat, g: int, tx: TxId)
    requires IsRun(plans, states, steps) && i < |steps| && forall j | 0 <= j <= i :: !MeetsStuck(states[j], steps[j], g)
    requires Valid(states[i], g, tx)
    ensures Enabled(plans, states[i], steps[i])
    ensures Valid(states[i + 1], g, tx) <==> !Disturbs(plans, states[i], steps[i], g, tx)
  {
    hide Next, Enabled, MeetsStuck, Valid, Disturbs, LocalInv, Held, Initial;
    assert Enabled(plans, states[i], steps[i]);
    RunKeepsLocal(plans, states, steps, i);
    RunKeepsLocal(plans, states, steps, i + 1);
    HeldUntil(plans, states, steps, i, g);
    if g in states[i].groups {
      StepOnWrites(plans, states[i], steps[i], g, tx);
    } else {
      SameGroups(plans, states[i], steps[i]);
      Elsewhere(plans, states[i], states[i + 1], steps[i], g, tx);
    }
  }

  lemma Elsewhere(plans: Plans, s: System, s': System, step: Step, g: int, tx: TxId)
    requires PlansOk(plans) && Enabled(plans, s, step) && g !in s.groups && g !in s'.groups
    ensures Valid(s', g, tx) && !Disturbs(plans, s, step, g, tx)
  {}

  lemma {:induction false} ValidUntil(plans: Plans, states: seq<System>, steps: seq<Step>, n: nat, g: int, tx: TxId)
    requires IsRun(plans, states, steps) && n < |states| && forall i | 0 <= i < n :: !MeetsStuck(states[i], steps[i], g)
    requires forall i | 0 <= i < n && Enabled(plans, states[i], steps[i]) ::
      !Disturbs(plans, states[i], steps[i], g, tx)
    ensures Valid(states[n], g, tx)
    decreases n
  {
    hide Next, Enabled, MeetsStuck, Disturbs;
    if n > 0 {
      ValidUntil(plans, states, steps, n - 1, g, tx);
      VerdictStep(plans, states, steps, n - 1, g, tx);
    }
  }

  /** So once COMMITTED is recorded, a commit request succeeds at a listed participant in every
      later state, if no restart of that group was stuck and nothing disturbed this transaction
      there. */
  lemma CommitSucceeds(plans: Plans, homes: Homes, states: seq<System>, steps: seq<Step>, i: nat, j: nat,
                       tx: TxId, g: int)
    requires IsRun(plans, states, steps) && SharedBy(plans, homes) && i <= j < |states|
    requires Decided(homes, states[i], tx, Committed) && g in Listed(homes, states[i], tx)
    requires forall k | 0 <= k < j :: !MeetsStuck(states[k], steps[k], g)
    requires forall k | 0 <= k < j && Enabled(plans, states[k], steps[k]) ::
      !Disturbs(plans, states[k], steps[k], g, tx)
    ensures g in states[j].groups && Commit(states[j].groups[g], tx).err == OK
  {
    hide Next, Enabled, MeetsStuck, Disturbs, Initial, Decided, Listed, Commit, ApplyBatch, Sent;
    NoParticipantStranded(plans, homes, states, steps, i, j, tx, g);
    CommitAlwaysPossible(plans, homes, states, steps, i, j, tx, g);
    ValidUntil(plans, states, steps, j, g, tx);
  }

  /** Where no transaction of the group is ever disturbed, no restart of the group is stuck. */
  lemma {:induction false} UndisturbedNeverStuck(plans: Plans, states: seq<System>, steps: seq<Step>, n: nat, g: int)
    requires IsRun(plans, states, steps) && n < |states|
    requires forall i, tx | 0 <= i < n && Enabled(plans, states[i], steps[i]) ::
      !Disturbs(plans, states[i], steps[i], g, tx)
    ensures forall i | 0 <= i < n :: !MeetsStuck(states[i], steps[i], g)
    decreases n
  {
    hide Next, Enabled, Disturbs, Initial, ApplyBatch, Applies, LocalInv;
    if n > 0 {
      UndisturbedNeverStuck(plans, states, steps, n - 1, g);
      var s, step := states[n - 1], steps[n - 1];
      RunKeepsLocal(plans, states, steps, n - 1);
      if MeetsStuck(s, step, g) {
        var tx :| Stuck(s.groups[g], tx, step.answers);
        ValidUntil(plans, states, steps, n - 1, g, tx);
        ValidExact(plans, s, g, tx);
        assert false;
      }
    }
  }
}
