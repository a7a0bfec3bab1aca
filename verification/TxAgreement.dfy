/** What every run of two-phase commit keeps for the transactions whose plans all name the same
    coordinator group: one decision, no participant stranded. Transactions that share no
    coordinator may run beside them. */
module TxAgreement {
  import opened Store
  import opened TxGroup
  import opened TxLocal
  import opened TxProtocol
  import opened TxRuns

  /** The coordinator group of each transaction that has only one. */
  type Homes = map<TxId, int>

  ghost predicate SharedBy(plans: Plans, homes: Homes) {
    forall tx, p | tx in homes && Planned(plans, tx, p) :: p.participants != [] && p.participants[0] == homes[tx]
  }

  ghost predicate Decided(homes: Homes, s: System, tx: TxId, d: Decision) {
    && tx in homes && homes[tx] in s.groups
    && tx in s.groups[homes[tx]].decisions && s.groups[homes[tx]].decisions[tx].decision == d
  }

  /** One of the transaction's plans has these participants, and all of them answered OK to it. */
  ghost predicate Backed(plans: Plans, msgs: set<Msg>, tx: TxId, participants: seq<int>) {
    exists p :: Planned(plans, tx, p) && p.participants == participants && AllPrepared(msgs, tx, p)
  }

  /** Decisions live at the coordinator group; COMMITTED follows every participant's OK. */
  ghost predicate DecisionsOk(plans: Plans, homes: Homes, s: System) {
    forall g, tx | g in s.groups && tx in s.groups[g].decisions && tx in homes ::
      && homes[tx] == g
      && (s.groups[g].decisions[tx].decision == Committed ==>
            Backed(plans, s.msgs, tx, s.groups[g].decisions[tx].participants))
  }

  /** Every marker follows the decision. */
  ghost predicate MarkersOk(homes: Homes, s: System) {
    && (forall g, tx | g in s.groups && tx in s.groups[g].committed && tx in homes :: Decided(homes, s, tx, Committed))
    && (forall g, tx | g in s.groups && tx in s.groups[g].aborted && tx in homes :: Decided(homes, s, tx, Aborted))
  }

  ghost predicate MsgOk(plans: Plans, homes: Homes, s: System, m: Msg) {
    match m
    case PrepareReq(_, _, _) => true
    case PrepareOk(tx, _, g) =>
      g in s.groups && (tx in s.groups[g].prepared || tx in s.groups[g].committed || tx in s.groups[g].aborted)
    case DecideReq(tx, g, r) =>
      tx in homes ==> g == homes[tx] && (r.decision == Committed ==> Backed(plans, s.msgs, tx, r.participants))
    case Told(tx, d) => tx in homes ==> Decided(homes, s, tx, d)
    case CommitReq(tx, _) => tx in homes ==> Decided(homes, s, tx, Committed)
    case AbortReq(tx, _) => tx in homes ==> Decided(homes, s, tx, Aborted)
  }

  ghost predicate MsgsOk(plans: Plans, homes: Homes, s: System) {
    forall m | m in s.msgs :: MsgOk(plans, homes, s, m)
  }

  ghost predicate Inv(plans: Plans, homes: Homes, s: System) {
    LocalInv(plans, s) && DecisionsOk(plans, homes, s) && MarkersOk(homes, s) && MsgsOk(plans, homes, s)
  }

  /** Transactions that may be marked with the decision: the decided ones, and those without a
      coordinator group of their own. */
  ghost function May(homes: Homes, s: System, others: set<TxId>, d: Decision): (r: set<TxId>) {
    (set tx | tx in homes && Decided(homes, s, tx, d)) + (others - homes.Keys)
  }

  // ---------------------------------------------------------------- one group moves

  lemma AnswersApproved(plans: Plans, homes: Homes, s: System, g: int, answers: Answers, others: set<TxId>)
    requires Inv(plans, homes, s) && g in s.groups && Heard(s, answers) && s.groups[g].prepared.Keys <= others
    ensures Approved(s.groups[g], answers, May(homes, s, others, Committed), May(homes, s, others, Aborted))
  {
    hide ExactlyOnce, HistoriesOk, MarkersOk, RecordsOk, Backed;
    var group := s.groups[g];
    forall tx | tx in group.prepared
      ensures match QueryDecision(group, group.prepared[tx], answers)
        case Some(Committed) => tx in May(homes, s, others, Committed)
        case Some(Aborted) => tx in May(homes, s, others, Aborted)
        case None => true
    {
      assert group.id == g && GroupOk(group);
      if tx in answers {
        assert MsgOk(plans, homes, s, Told(tx, answers[tx]));
      }
      if tx !in homes {
        assert tx in others - homes.Keys;
      }
    }
  }

  /** Every step marks only what the decisions allow. */
  lemma StepIsApproved(plans: Plans, homes: Homes, s: System, step: Step) returns (others: set<TxId>)
    requires PlansOk(plans) && Inv(plans, homes, s) && Enabled(plans, s, step)
    ensures StepApproved(s, step, May(homes, s, others, Committed), May(homes, s, others, Aborted))
  {
    hide GroupOk, LocalInv, DecisionsOk, MarkersOk, Decided, Approved;
    others := {};
    if step.ReceiveCommit? {
      others := {step.tx};
      assert MsgOk(plans, homes, s, CommitReq(step.tx, step.group));
    } else if step.ReceiveAbort? {
      others := {step.tx};
      assert MsgOk(plans, homes, s, AbortReq(step.tx, step.group));
    } else if step.ReceivePrepare? || step.RestartGroup? {
      others := s.groups[step.group].prepared.Keys;
      AnswersApproved(plans, homes, s, step.group, step.answers, others);
    }
  }

  /** Decisions, markers and promises survive a group's move. */
  lemma MoveKeeps(plans: Plans, homes: Homes, s: System, g: int, group: Group, others: set<TxId>)
    requires Inv(plans, homes, s) && g in s.groups
    requires Evolves(s.groups[g], group, May(homes, s, others, Committed), May(homes, s, others, Aborted))
    ensures Inv(plans, homes, Update(s, g, group))
  {
    hide GroupOk, DecisionsOk, MarkersOk, LocalInv, Backed;
    var s' := Update(s, g, group);
    MoveKeepsLocal(plans, s, g, group, May(homes, s, others, Committed), May(homes, s, others, Aborted));
    assert forall tx, d :: Decided(homes, s', tx, d) <==> Decided(homes, s, tx, d);
    MoveKeepsMarkers(plans, homes, s, g, group, others);
    forall m | m in s'.msgs
      ensures MsgOk(plans, homes, s', m)
    {
      assert MsgOk(plans, homes, s, m);
    }
  }

  lemma MoveKeepsMarkers(plans: Plans, homes: Homes, s: System, g: int, group: Group, others: set<TxId>)
    requires DecisionsOk(plans, homes, s) && MarkersOk(homes, s) && g in s.groups
    requires Evolves(s.groups[g], group, May(homes, s, others, Committed), May(homes, s, others, Aborted))
    requires forall tx, d :: Decided(homes, Update(s, g, group), tx, d) <==> Decided(homes, s, tx, d)
    ensures DecisionsOk(plans, homes, Update(s, g, group)) && MarkersOk(homes, Update(s, g, group))
  {
    hide GroupOk, Decided, Backed;
  }

  // ---------------------------------------------------------------- messages

  lemma BackedLater(plans: Plans, msgs: set<Msg>, m: Msg)
    ensures forall tx, ps | Backed(plans, msgs, tx, ps) :: Backed(plans, msgs + {m}, tx, ps)
  {
    forall tx, ps | Backed(plans, msgs, tx, ps)
      ensures Backed(plans, msgs + {m}, tx, ps)
    {
      var p :| Planned(plans, tx, p) && p.participants == ps && AllPrepared(msgs, tx, p);
      assert AllPrepared(msgs + {m}, tx, p);
    }
  }

  lemma SendKeeps(plans: Plans, homes: Homes, s: System, m: Msg)
    requires Inv(plans, homes, s) && MsgOk(plans, homes, Send(s, m), m)
    ensures Inv(plans, homes, Send(s, m))
  {
    hide LocalInv, Decided, Backed;
    var s' := Send(s, m);
    SameLocal(plans, s, s');
    BackedLater(plans, s.msgs, m);
    assert forall tx, d :: Decided(homes, s, tx, d) ==> Decided(homes, s', tx, d) by { SameDecisions(homes, s, s'); }
    forall n | n in s.msgs
      ensures MsgOk(plans, homes, s', n)
    {
      assert MsgOk(plans, homes, s, n);
    }
  }

  lemma SameDecisions(homes: Homes, s: System, s': System)
    requires s.groups == s'.groups
    ensures forall tx, d :: Decided(homes, s, tx, d) <==> Decided(homes, s', tx, d)
  {}

  // ---------------------------------------------------------------- prepare and decide

  lemma RecordKeeps(plans: Plans, homes: Homes, s: System, p: Plan, tx: TxId, g: int, group: Group)
    requires PlansOk(plans) && Inv(plans, homes, s) && Planned(plans, tx, p) && g in p.participants && g in s.groups
    requires GroupOk(group) && PlanOk(tx, p)
    requires var was := s.groups[g];
      group == was.(prepared := was.prepared[tx := p.records[g]], cache := group.cache, locks := group.locks)
    ensures Inv(plans, homes, Send(Update(s, g, group), PrepareOk(tx, p, g)))
  {
    hide GroupOk, LocalInv, DecisionsOk, MarkersOk, MsgsOk, Decided, PlanOk;
    RecordKeepsLocal(plans, s, p, tx, g, group);
    OthersKeep(plans, homes, s, g, group);
    SendKeeps(plans, homes, Update(s, g, group), PrepareOk(tx, p, g));
  }

  /** A group that gained a record keeps its decisions, markers and promises. */
  lemma OthersKeep(plans: Plans, homes: Homes, s: System, g: int, group: Group)
    requires DecisionsOk(plans, homes, s) && MarkersOk(homes, s) && MsgsOk(plans, homes, s) && g in s.groups
    requires var was := s.groups[g];
      && group.committed == was.committed && group.aborted == was.aborted && group.decisions == was.decisions
      && forall t | t in was.prepared :: t in group.prepared
    ensures var s1 := Update(s, g, group);
      DecisionsOk(plans, homes, s1) && MarkersOk(homes, s1) && MsgsOk(plans, homes, s1)
  {
    hide DecisionsOk, MarkersOk, Backed;
    var s1 := Update(s, g, group);
    assert forall tx, d :: Decided(homes, s1, tx, d) <==> Decided(homes, s, tx, d);
    assert DecisionsOk(plans, homes, s1) && MarkersOk(homes, s1) by { MarkersKept(plans, homes, s, g, group); }
    forall m | m in s1.msgs
      ensures MsgOk(plans, homes, s1, m)
    {
      assert MsgOk(plans, homes, s, m);
    }
  }

  lemma MarkersKept(plans: Plans, homes: Homes, s: System, g: int, group: Group)
    requires DecisionsOk(plans, homes, s) && MarkersOk(homes, s) && g in s.groups
    requires var was := s.groups[g];
      group.committed == was.committed && group.aborted == was.aborted && group.decisions == was.decisions
    requires forall tx, d :: Decided(homes, Update(s, g, group), tx, d) <==> Decided(homes, s, tx, d)
    ensures DecisionsOk(plans, homes, Update(s, g, group)) && MarkersOk(homes, Update(s, g, group))
  {
    hide Decided, Backed;
  }

  lemma PrepareKeeps(plans: Plans, homes: Homes, s: System, step: Step)
    requires PlansOk(plans) && Inv(plans, homes, s) && Enabled(plans, s, step) && step.ReceivePrepare?
    ensures Inv(plans, homes, Next(plans, s, step))
  {
    hide GroupOk, Evolves, Approved, StepApproved, Prepare, ClearConflicts, Inv, PlanOk, May;
    var others := StepIsApproved(plans, homes, s, step);
    assert GroupsOk(s) by { GroupsAreOk(plans, homes, s); }
    PrepareMoves(plans, s, step, May(homes, s, others, Committed), May(homes, s, others, Aborted));
    var g := step.group;
    OwnRecord(step.tx, step.plan, g);
    var rec := step.plan.records[g];
    var c := ClearConflicts(s.groups[g], rec.tx, rec.writes, step.answers).group;
    var r := Prepare(s.groups[g], rec, step.answers, step.now);
    MoveKeeps(plans, homes, s, g, c, others);
    if r.err == OK {
      RecordKeeps(plans, homes, Update(s, g, c), step.plan, step.tx, g, r.group);
    }
  }

  lemma GroupsAreOk(plans: Plans, homes: Homes, s: System)
    requires Inv(plans, homes, s)
    ensures GroupsOk(s)
  {}

  lemma OwnRecord(tx: TxId, p: Plan, g: int)
    requires PlanOk(tx, p) && g in p.participants
    ensures g in p.records && p.records[g].tx == tx
  {}

  /** The first decision written stands; it is written at the coordinator group. */
  lemma DecisionKeeps(plans: Plans, homes: Homes, s: System, tx: TxId, g: int, record: DecisionRecord)
    requires PlansOk(plans) && Inv(plans, homes, s) && Enabled(plans, s, ReceiveDecision(tx, g, record))
    ensures Inv(plans, homes, Next(plans, s, ReceiveDecision(tx, g, record)))
  {
    hide LocalInv, DecisionsOk, MarkersOk, Backed;
    assert MsgOk(plans, homes, s, DecideReq(tx, g, record));
    var r := RecordDecision(s.groups[g], tx, record);
    var s1 := Update(s, g, r.group);
    DecisionKeepsLocal(plans, s, g, r.group);
    assert forall t, d :: Decided(homes, s, t, d) ==> Decided(homes, s1, t, d);
    DecisionsFollow(plans, homes, s, tx, g, record);
    assert MsgsOk(plans, homes, s1) by {
      forall m | m in s1.msgs
        ensures MsgOk(plans, homes, s1, m)
      {
        assert MsgOk(plans, homes, s, m);
      }
    }
    if r.err == OK {
      SendKeeps(plans, homes, s1, Told(tx, record.decision));
    }
  }

  lemma DecisionsFollow(plans: Plans, homes: Homes, s: System, tx: TxId, g: int, record: DecisionRecord)
    requires DecisionsOk(plans, homes, s) && MarkersOk(homes, s) && g in s.groups
    requires MsgOk(plans, homes, s, DecideReq(tx, g, record))
    requires var s1 := Update(s, g, RecordDecision(s.groups[g], tx, record).group);
      forall t, d :: Decided(homes, s, t, d) ==> Decided(homes, s1, t, d)
    ensures var s1 := Update(s, g, RecordDecision(s.groups[g], tx, record).group);
      DecisionsOk(plans, homes, s1) && MarkersOk(homes, s1)
  {
    hide Decided, Backed;
  }

  // ---------------------------------------------------------------- every step, every run

  lemma StepKeeps(plans: Plans, homes: Homes, s: System, step: Step)
    requires PlansOk(plans) && SharedBy(plans, homes) && Inv(plans, homes, s) && Enabled(plans, s, step)
    ensures Inv(plans, homes, Next(plans, s, step))
  {
    hide LocalInv, DecisionsOk, MarkersOk, Evolves, StepApproved, May, PlanOk;
    hide Prepare, Commit, Abort, Restart, Expire, Put, Delete, ResolveStatus, RecordDecision;
    if step.ProposeCommit? || step.ProposeAbort? {
      HasCoordinator(plans, step.tx, step.plan);
    }
    match step {
      case SendPrepare(tx, p, g) => SendKeeps(plans, homes, s, PrepareReq(tx, p, g));
      case ReceivePrepare(_, _, _, _, _) => PrepareKeeps(plans, homes, s, step);
      case ProposeCommit(tx, p, writes) =>
        ProposalBacked(plans, s, tx, p, writes);
        SendKeeps(plans, homes, s,
          DecideReq(tx, p.participants[0], DecisionRecord(Committed, p.participants, writes)));
      case ProposeAbort(tx, p) =>
        SendKeeps(plans, homes, s, DecideReq(tx, p.participants[0], DecisionRecord(Aborted, p.participants, [])));
      case ReceiveDecision(tx, g, record) => DecisionKeeps(plans, homes, s, tx, g, record);
      case AskStatus(tx, g) => StatusKeeps(plans, homes, s, tx, g);
      case AskDecision(tx, g) => QueryKeeps(plans, homes, s, tx, g);
      case SendCommit(tx, g) =>
        assert MsgOk(plans, homes, s, Told(tx, Committed));
        SendKeeps(plans, homes, s, CommitReq(tx, g));
      case SendAbort(tx, g) =>
        assert MsgOk(plans, homes, s, Told(tx, Aborted));
        SendKeeps(plans, homes, s, AbortReq(tx, g));
      case _ =>
        var others := StepIsApproved(plans, homes, s, step);
        GroupsAreOk(plans, homes, s);
        GroupStepEvolves(plans, s, step, May(homes, s, others, Committed), May(homes, s, others, Aborted));
        MoveKeeps(plans, homes, s, step.group, Next(plans, s, step).groups[step.group], others);
    }
  }

  lemma HasCoordinator(plans: Plans, tx: TxId, p: Plan)
    requires PlansOk(plans) && Planned(plans, tx, p)
    ensures p.participants != []
  {
    assert PlanOk(tx, p);
  }

  lemma ProposalBacked(plans: Plans, s: System, tx: TxId, p: Plan, writes: seq<WriteKey>)
    requires Planned(plans, tx, p) && AllPrepared(s.msgs, tx, p) && p.participants != []
    ensures var m := DecideReq(tx, p.participants[0], DecisionRecord(Committed, p.participants, writes));
      Backed(plans, Send(s, m).msgs, tx, p.participants)
  {
    var m := DecideReq(tx, p.participants[0], DecisionRecord(Committed, p.participants, writes));
    assert AllPrepared(Send(s, m).msgs, tx, p);
  }

  lemma StatusKeeps(plans: Plans, homes: Homes, s: System, tx: TxId, g: int)
    requires PlansOk(plans) && Inv(plans, homes, s) && g in s.groups
    ensures Inv(plans, homes, Next(plans, s, AskStatus(tx, g)))
  {
    hide LocalInv, Backed;
    match ResolveStatus(s.groups[g], tx)
    case IsDecided(d) =>
      assert tx in homes ==> Decided(homes, s, tx, d);
      SendKeeps(plans, homes, s, Told(tx, d));
    case _ =>
  }

  lemma QueryKeeps(plans: Plans, homes: Homes, s: System, tx: TxId, g: int)
    requires PlansOk(plans) && Inv(plans, homes, s) && g in s.groups
    ensures Inv(plans, homes, Next(plans, s, AskDecision(tx, g)))
  {
    hide LocalInv, MarkersOk, Backed;
    if tx in s.groups[g].decisions {
      assert tx in homes ==> Decided(homes, s, tx, s.groups[g].decisions[tx].decision);
      SendKeeps(plans, homes, s, Told(tx, s.groups[g].decisions[tx].decision));
    }
  }

  lemma InitialOk(plans: Plans, homes: Homes, s: System)
    requires Initial(plans, s)
    ensures Inv(plans, homes, s)
  {
    InitialLocal(plans, s);
  }

  lemma {:induction false} RunKeeps(plans: Plans, homes: Homes, states: seq<System>, steps: seq<Step>, i: nat)
    requires IsRun(plans, states, steps) && SharedBy(plans, homes) && i < |states|
    ensures Inv(plans, homes, states[i])
  {
    hide Inv, Next, Enabled, Initial, SharedBy;
    if i == 0 {
      InitialOk(plans, homes, states[0]);
    } else {
      RunKeeps(plans, homes, states, steps, i - 1);
      assert Enabled(plans, states[i - 1], steps[i - 1]);
      StepKeeps(plans, homes, states[i - 1], steps[i - 1]);
    }
  }

  // ---------------------------------------------------------------- theorems

  /** Agreement: a transaction whose plans all name one coordinator group, however many there
      are and whatever else they say, is never committed at one group and aborted at another,
      and every marker is the decision recorded at the coordinator group. */
  lemma Agreement(plans: Plans, homes: Homes, states: seq<System>, steps: seq<Step>, i: nat, tx: TxId, g: int, h: int)
    requires IsRun(plans, states, steps) && SharedBy(plans, homes) && tx in homes
    requires i < |states| && g in states[i].groups && h in states[i].groups
    ensures !(tx in states[i].groups[g].committed && tx in states[i].groups[h].aborted)
    ensures tx in states[i].groups[g].committed ==> Decided(homes, states[i], tx, Committed)
    ensures tx in states[i].groups[g].aborted ==> Decided(homes, states[i], tx, Aborted)
  {
    hide Initial, Enabled, Next, SharedBy;
    RunKeeps(plans, homes, states, steps, i);
    if tx in states[i].groups[h].aborted {
      assert Decided(homes, states[i], tx, Aborted);
      assert !Decided(homes, states[i], tx, Committed);
    }
  }

  /** A decision record once written at a group is never changed. */
  lemma DecisionStays(plans: Plans, s: System, step: Step, g: int, tx: TxId)
    requires PlansOk(plans) && LocalInv(plans, s) && Enabled(plans, s, step)
    requires g in s.groups && tx in s.groups[g].decisions
    ensures var s' := Next(plans, s, step);
      g in s'.groups && tx in s'.groups[g].decisions && s'.groups[g].decisions[tx] == s.groups[g].decisions[tx]
  {
    hide RecordsOk, HistoriesOk, GroupOk, StepApproved, PlanOk;
    hide Prepare, Commit, Abort, Restart, Expire, Put, Delete, ResolveStatus, ClearConflicts;
    if step.ReceivePrepare? {
      var all := SomehowApproved(plans, s, step);
      PrepareMoves(plans, s, step, all, all);
    } else if IsGroupStep(step) {
      var all := SomehowApproved(plans, s, step);
      GroupStepEvolves(plans, s, step, all, all);
    }
  }

  lemma {:induction false} DecisionStaysInRun(plans: Plans, states: seq<System>, steps: seq<Step>, i: nat, j: nat,
                                              g: int, tx: TxId)
    requires IsRun(plans, states, steps) && i <= j < |states|
    requires g in states[i].groups && tx in states[i].groups[g].decisions
    ensures g in states[j].groups && tx in states[j].groups[g].decisions
    ensures states[j].groups[g].decisions[tx] == states[i].groups[g].decisions[tx]
    decreases j
  {
    hide LocalInv, Next, Enabled, Initial;
    if i < j {
      DecisionStaysInRun(plans, states, steps, i, j - 1, g, tx);
      RunKeepsLocal(plans, states, steps, j - 1);
      assert Enabled(plans, states[j - 1], steps[j - 1]);
      DecisionStays(plans, states[j - 1], steps[j - 1], g, tx);
    }
  }

  /** The participants the transaction's decision record lists. */
  ghost function Listed(homes: Homes, s: System, tx: TxId): (r: seq<int>)
    requires Decided(homes, s, tx, Committed)
  {
    s.groups[homes[tx]].decisions[tx].participants
  }

  /** COMMITTED strands nobody: from the moment it is recorded, every participant it lists
      holds its commit marker, or a prepare record exactly as one of the transaction's plans
      sent it. */
  lemma NoParticipantStranded(plans: Plans, homes: Homes, states: seq<System>, steps: seq<Step>, i: nat, j: nat,
                              tx: TxId, g: int)
    requires IsRun(plans, states, steps) && SharedBy(plans, homes) && i <= j < |states|
    requires Decided(homes, states[i], tx, Committed) && g in Listed(homes, states[i], tx)
    ensures g in states[j].groups
    ensures var group := states[j].groups[g];
      && tx !in group.aborted
      && (tx in group.committed || (tx in group.prepared && Sent(plans, tx, g, group.prepared[tx])))
  {
    hide Initial, Enabled, Next, SharedBy;
    RunKeeps(plans, homes, states, steps, j);
    DecisionStaysInRun(plans, states, steps, i, j, homes[tx], tx);
    Unstranded(plans, homes, states[j], tx, g);
  }

  lemma Unstranded(plans: Plans, homes: Homes, s: System, tx: TxId, g: int)
    requires Inv(plans, homes, s) && Decided(homes, s, tx, Committed) && g in Listed(homes, s, tx)
    ensures g in s.groups && tx !in s.groups[g].aborted
    ensures tx in s.groups[g].committed || (tx in s.groups[g].prepared && Sent(plans, tx, g, s.groups[g].prepared[tx]))
  {
    hide GroupOk, HistoriesOk, Sent;
    var participants := Listed(homes, s, tx);
    assert Backed(plans, s.msgs, tx, participants) by { ListedBacked(plans, homes, s, tx); }
    var p :| Planned(plans, tx, p) && p.participants == participants && AllPrepared(s.msgs, tx, p);
    assert MsgOk(plans, homes, s, PrepareOk(tx, p, g));
    assert tx in s.groups[g].aborted ==> Decided(homes, s, tx, Aborted);
  }

  lemma ListedBacked(plans: Plans, homes: Homes, s: System, tx: TxId)
    requires DecisionsOk(plans, homes, s) && Decided(homes, s, tx, Committed)
    ensures Backed(plans, s.msgs, tx, Listed(homes, s, tx))
  {
    hide Backed;
    var g := homes[tx];
    assert s.groups[g].decisions[tx].decision == Committed;
  }

  /** A transaction with one plan is held with exactly that plan's record. */
  lemma SentOnce(plans: Plans, tx: TxId, p: Plan, g: int, rec: TxRecord)
    requires tx in plans && plans[tx] == {p}
    ensures Sent(plans, tx, g, rec) <==> g in p.participants && g in p.records && p.records[g] == rec
  {
    if g in p.participants && g in p.records {
      SentNow(plans, tx, p, g);
    }
  }

  /** So a commit request succeeds at every listed participant of a committed transaction,
      whenever it arrives, unless the batch itself no longer applies. */
  lemma CommitAlwaysPossible(plans: Plans, homes: Homes, states: seq<System>, steps: seq<Step>, i: nat, j: nat,
                             tx: TxId, g: int)
    requires IsRun(plans, states, steps) && SharedBy(plans, homes) && i <= j < |states|
    requires Decided(homes, states[i], tx, Committed) && g in Listed(homes, states[i], tx) && g in states[j].groups
    ensures var group := states[j].groups[g];
      && (tx in group.committed || tx in group.prepared)
      && (Commit(group, tx).err == OK <==>
            tx in group.committed || ApplyBatch(group.kv, Ops(group.prepared[tx].writes)).Some?)
  {
    hide Initial, Enabled, Next, Replay, Times, DecisionsOk, MsgsOk, HistoriesOk, RecordsOk, MarkersOk, SharedBy, Sent;
    RunKeeps(plans, homes, states, steps, j);
    DecisionStaysInRun(plans, states, steps, i, j, homes[tx], tx);
    Unstranded(plans, homes, states[j], tx, g);
    if tx !in states[j].groups[g].committed {
      OnlyAtHome(plans, homes, states[j], tx, g);
    }
  }

  lemma OnlyAtHome(plans: Plans, homes: Homes, s: System, tx: TxId, g: int)
    requires PlansOk(plans) && SharedBy(plans, homes) && Inv(plans, homes, s) && tx in homes
    requires g in s.groups && tx in s.groups[g].prepared
    ensures s.groups[g].prepared[tx].coordinator == homes[tx]
  {
    hide GroupOk, HistoriesOk, DecisionsOk, MarkersOk, MsgsOk;
    assert Sent(plans, tx, g, s.groups[g].prepared[tx]);
  }
}
