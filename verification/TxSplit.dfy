/** Which transactions agree: a transaction is unanimous in every run if and only if its plans
    can name only one coordinator group. */
module TxSplit {
  import opened Options
  import opened Store
  import opened TxGroup
  import opened TxProtocol
  import opened TxAgreement

  ghost predicate Unanimous(s: System, tx: TxId) {
    forall g, h | g in s.groups && h in s.groups :: !(tx in s.groups[g].committed && tx in s.groups[h].aborted)
  }

  /** The transaction's plans name coordinator groups among these. */
  ghost predicate Names(plans: Plans, tx: TxId, coordinators: set<int>) {
    forall p | Planned(plans, tx, p) :: p.participants != [] && p.participants[0] in coordinators
  }

  /** Whatever the plans say otherwise, and whatever other transactions do. */
  ghost predicate AlwaysUnanimous(tx: TxId, coordinators: set<int>) {
    forall plans, states, steps | IsRun(plans, states, steps) && Names(plans, tx, coordinators) ::
      Unanimous(states[|steps|], tx)
  }

  /** The exact condition for agreement. */
  lemma AgreementExact(tx: TxId, coordinators: set<int>)
    ensures AlwaysUnanimous(tx, coordinators) <==> forall c, d | c in coordinators && d in coordinators :: c == d
  {
    hide Initial, Enabled, Next, PlansOk, Names, Unanimous;
    if c, d :| c in coordinators && d in coordinators && c != d {
      var plans, states := SplitRun(tx, c, d);
      NamesBoth(tx, c, d, coordinators);
    } else {
      forall plans, states, steps | IsRun(plans, states, steps) && Names(plans, tx, coordinators)
        ensures Unanimous(states[|steps|], tx)
      {
        OneCoordinator(plans, states, steps, tx, coordinators);
      }
    }
  }

  lemma OneCoordinator(plans: Plans, states: seq<System>, steps: seq<Step>, tx: TxId, coordinators: set<int>)
    requires IsRun(plans, states, steps) && Names(plans, tx, coordinators)
    requires forall c, d | c in coordinators && d in coordinators :: c == d
    ensures Unanimous(states[|steps|], tx)
  {
    hide Initial, Enabled, Next, PlansOk;
    var home := if c :| c in coordinators then c else 0;
    var homes := map[tx := home];
    assert SharedBy(plans, homes);
    var s := states[|steps|];
    forall g, h | g in s.groups && h in s.groups
      ensures !(tx in s.groups[g].committed && tx in s.groups[h].aborted)
    {
      Agreement(plans, homes, states, steps, |steps|, tx, g, h);
    }
  }

  // ---------------------------------------------------------------- two coordinators

  function Record(tx: TxId, g: int): (r: TxRecord) {
    TxRecord(tx, [], [], g, [g])
  }

  /** A plan of one group. */
  function Alone(tx: TxId, g: int): (p: Plan) {
    Plan([g], map[g := Record(tx, g)])
  }

  function TwoPlans(tx: TxId, c: int, d: int): (r: Plans) {
    map[tx := {Alone(tx, c), Alone(tx, d)}]
  }

  function Decision(d: TxGroup.Decision, g: int): (r: DecisionRecord) {
    DecisionRecord(d, [g], [])
  }

  function Fresh(g: int): (r: Group) {
    Group(g, map[], map[], {}, {}, map[], map[], map[], [])
  }

  /** One coordinator records and carries out ABORTED, then the other COMMITTED. */
  function StepAt(tx: TxId, c: int, d: int, i: nat): (r: Step) {
    match i
    case 0 => ProposeAbort(tx, Alone(tx, c))
    case 1 => ReceiveDecision(tx, c, Decision(Aborted, c))
    case 2 => SendAbort(tx, c)
    case 3 => ReceiveAbort(tx, c)
    case 4 => SendPrepare(tx, Alone(tx, d), d)
    case 5 => ReceivePrepare(tx, Alone(tx, d), d, map[], 0)
    case 6 => ProposeCommit(tx, Alone(tx, d), [])
    case 7 => ReceiveDecision(tx, d, Decision(Committed, d))
    case 8 => SendCommit(tx, d)
    case _ => ReceiveCommit(tx, d)
  }

  function Steps(tx: TxId, c: int, d: int): (r: seq<Step>) {
    seq(10, i requires 0 <= i < 10 => StepAt(tx, c, d, i))
  }

  function GroupC(tx: TxId, c: int, i: nat): (g: Group) {
    var decided := Fresh(c).(decisions := map[tx := Decision(Aborted, c)]);
    if i < 2 then Fresh(c) else if i < 4 then decided else decided.(aborted := {tx})
  }

  function GroupD(tx: TxId, d: int, i: nat): (g: Group) {
    var prepared := Fresh(d).(prepared := map[tx := Record(tx, d)], cache := map[tx := Record(tx, d)]);
    var decided := map[tx := Decision(Committed, d)];
    if i < 6 then Fresh(d) else if i < 8 then prepared else if i < 10 then prepared.(decisions := decided)
    else Fresh(d).(decisions := decided, committed := {tx}, history := [Applied(tx, [])])
  }

  /** The message step i sends, if any. */
  function Sends(tx: TxId, c: int, d: int, i: nat): (m: Option<Msg>) {
    match i
    case 0 => Some(DecideReq(tx, c, Decision(Aborted, c)))
    case 1 => Some(Told(tx, Aborted))
    case 2 => Some(AbortReq(tx, c))
    case 4 => Some(PrepareReq(tx, Alone(tx, d), d))
    case 5 => Some(PrepareOk(tx, Alone(tx, d), d))
    case 6 => Some(DecideReq(tx, d, Decision(Committed, d)))
    case 7 => Some(Told(tx, Committed))
    case 8 => Some(CommitReq(tx, d))
    case _ => None
  }

  function Msgs(tx: TxId, c: int, d: int, i: nat): (r: set<Msg>)
    ensures forall j: nat | j < i && Sends(tx, c, d, j).Some? :: Sends(tx, c, d, j).value in r
  {
    if i == 0 then {}
    else if Sends(tx, c, d, i - 1).Some? then Msgs(tx, c, d, i - 1) + {Sends(tx, c, d, i - 1).value}
    else Msgs(tx, c, d, i - 1)
  }

  function State(tx: TxId, c: int, d: int, i: nat): (s: System) {
    System(map[c := GroupC(tx, c, i), d := GroupD(tx, d, i)], Msgs(tx, c, d, i))
  }

  lemma NothingToApply()
    ensures Ops([]) == [] && ApplyBatch(map[], Ops([])) == Some(map[]) && Keys([]) == {} && DistinctKeys(Ops([]))
  {}

  lemma TwoPlansOk(tx: TxId, c: int, d: int)
    ensures PlansOk(TwoPlans(tx, c, d))
    ensures Planned(TwoPlans(tx, c, d), tx, Alone(tx, c)) && Planned(TwoPlans(tx, c, d), tx, Alone(tx, d))
  {
    NothingToApply();
  }

  lemma AbortedAtC(tx: TxId, c: int)
    ensures RecordDecision(GroupC(tx, c, 1), tx, Decision(Aborted, c)) == Replied(GroupC(tx, c, 2), OK)
    ensures Abort(GroupC(tx, c, 3), tx).group == GroupC(tx, c, 4)
  {}

  lemma CommittedAtD(tx: TxId, d: int)
    ensures Prepare(GroupD(tx, d, 5), Record(tx, d), map[], 0) == Replied(GroupD(tx, d, 6), OK)
    ensures RecordDecision(GroupD(tx, d, 7), tx, Decision(Committed, d)) == Replied(GroupD(tx, d, 8), OK)
    ensures Commit(GroupD(tx, d, 9), tx).group == GroupD(tx, d, 10)
  {
    NothingToApply();
  }

  lemma Otherwise(tx: TxId, c: int, d: int, i: nat)
    requires i < 10
    ensures i != 1 && i != 3 ==> GroupC(tx, c, i + 1) == GroupC(tx, c, i)
    ensures i != 5 && i != 7 && i != 9 ==> GroupD(tx, d, i + 1) == GroupD(tx, d, i)
  {}

  ghost predicate Follows(tx: TxId, c: int, d: int, i: nat)
    requires i < 10 && PlansOk(TwoPlans(tx, c, d))
  {
    && Enabled(TwoPlans(tx, c, d), State(tx, c, d, i), StepAt(tx, c, d, i))
    && State(tx, c, d, i + 1) == Next(TwoPlans(tx, c, d), State(tx, c, d, i), StepAt(tx, c, d, i))
  }

  /** What the steps need and send. */
  lemma MsgsAt(tx: TxId, c: int, d: int, i: nat)
    requires i < 10
    ensures i > 0 && Sends(tx, c, d, i - 1).Some? ==> Sends(tx, c, d, i - 1).value in Msgs(tx, c, d, i)
    ensures Msgs(tx, c, d, i + 1) ==
      if Sends(tx, c, d, i).Some? then Msgs(tx, c, d, i) + {Sends(tx, c, d, i).value} else Msgs(tx, c, d, i)
  {}

  lemma SendFollows(tx: TxId, c: int, d: int, i: nat)
    requires c != d && i < 10 && i % 2 == 0
    ensures PlansOk(TwoPlans(tx, c, d)) && Follows(tx, c, d, i)
  {
    hide PlansOk, TwoPlans, GroupC, GroupD, Msgs, Record;
    TwoPlansOk(tx, c, d);
    Otherwise(tx, c, d, i);
    MsgsAt(tx, c, d, i);
  }

  lemma Replaced(c: int, d: int, x: Group, y: Group, z: Group)
    requires c != d
    ensures map[c := x, d := y][c := z] == map[c := z, d := y]
    ensures map[c := x, d := y][c] == x
  {}

  lemma AbortDecided(tx: TxId, c: int, d: int)
    requires c != d
    ensures PlansOk(TwoPlans(tx, c, d)) && Follows(tx, c, d, 1)
  {
    hide PlansOk, TwoPlans, RecordDecision, GroupC, GroupD, Msgs, Record;
    TwoPlansOk(tx, c, d);
    Otherwise(tx, c, d, 1);
    MsgsAt(tx, c, d, 1);
    Replaced(c, d, GroupC(tx, c, 1), GroupD(tx, d, 1), GroupC(tx, c, 2));
    AbortedAtC(tx, c);
  }

  lemma AbortFollows(tx: TxId, c: int, d: int)
    requires c != d
    ensures PlansOk(TwoPlans(tx, c, d)) && Follows(tx, c, d, 3)
  {
    hide PlansOk, TwoPlans, Abort, GroupC, GroupD, Msgs, Record;
    TwoPlansOk(tx, c, d);
    Otherwise(tx, c, d, 3);
    MsgsAt(tx, c, d, 3);
    Replaced(c, d, GroupC(tx, c, 3), GroupD(tx, d, 3), GroupC(tx, c, 4));
    AbortedAtC(tx, c);
  }

  lemma CommitFollows(tx: TxId, c: int, d: int, i: nat)
    requires c != d && (i == 5 || i == 7 || i == 9)
    ensures PlansOk(TwoPlans(tx, c, d)) && Follows(tx, c, d, i)
  {
    hide PlansOk, TwoPlans, Prepare, Commit, RecordDecision, GroupC, GroupD, Msgs, Record;
    TwoPlansOk(tx, c, d);
    Otherwise(tx, c, d, i);
    MsgsAt(tx, c, d, i);
    CommittedAtD(tx, d);
  }

  lemma NamesBoth(tx: TxId, c: int, d: int, coordinators: set<int>)
    requires c in coordinators && d in coordinators
    ensures Names(TwoPlans(tx, c, d), tx, coordinators)
  {}

  /** With two coordinator groups to name, a transaction can end committed at one and aborted
      at the other. */
  lemma SplitRun(tx: TxId, c: int, d: int) returns (plans: Plans, states: seq<System>)
    requires c != d
    ensures plans == TwoPlans(tx, c, d) && IsRun(plans, states, Steps(tx, c, d))
    ensures var last := states[|Steps(tx, c, d)|];
      && c in last.groups && tx in last.groups[c].aborted && d in last.groups && tx in last.groups[d].committed
      && !Unanimous(last, tx)
  {
    hide Next, Enabled, PlansOk, StepAt;
    plans := TwoPlans(tx, c, d);
    states := seq(11, i requires 0 <= i < 11 => State(tx, c, d, i));
    TwoPlansOk(tx, c, d);
    forall i | 0 <= i < 10
      ensures Enabled(plans, states[i], Steps(tx, c, d)[i])
        && states[i + 1] == Next(plans, states[i], Steps(tx, c, d)[i])
    {
      if i % 2 == 0 {
        SendFollows(tx, c, d, i);
      } else if i == 1 {
        AbortDecided(tx, c, d);
      } else if i == 3 {
        AbortFollows(tx, c, d);
      } else {
        CommitFollows(tx, c, d, i);
      }
    }
  }
}
