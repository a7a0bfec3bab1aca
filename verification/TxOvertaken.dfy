/** A run without plain writes in which a transaction found its version at Prepare, and yet its
    batch no longer applies: a restart forgot the locks of another transaction, decided
    COMMITTED but stuck, whose late commit then overtakes it. */
module TxOvertaken {
  import opened Options
  import opened Store
  import opened TxGroup
  import opened TxLocks
  import opened TxProtocol

  const A: TxId := "a"
  const B: TxId := "b"
  const C: TxId := "c"
  const K: Key := "k"
  const M: Key := "m"

  function W(key: Key, version: nat): (w: WriteKey) {
    WriteKey(key, "v", version, false)
  }

  /** A and B both write k; B also writes m, at a version only C brings about. */
  function WritesOf(tx: TxId): (writes: seq<WriteKey>) {
    if tx == A then [W(K, 0)] else if tx == B then [W(K, 0), W(M, 1)] else [W(M, 0)]
  }

  function Rec(tx: TxId): (r: TxRecord) {
    TxRecord(tx, [], WritesOf(tx), 1, [1])
  }

  function PlanOf(tx: TxId): (p: Plan) {
    Plan([1], map[1 := Rec(tx)])
  }

  function SamplePlans(): (r: Plans) {
    map[A := {PlanOf(A)}, B := {PlanOf(B)}, C := {PlanOf(C)}]
  }

  function Decided(): (d: DecisionRecord) {
    DecisionRecord(Committed, [1], [])
  }

  function SampleSteps(): (r: seq<Step>) {
    [SendPrepare(B, PlanOf(B), 1), ReceivePrepare(B, PlanOf(B), 1, map[], 0),
     ProposeCommit(B, PlanOf(B), []), ReceiveDecision(B, 1, Decided()),
     RestartGroup(1, [Rec(B)], map[]),
     SendPrepare(A, PlanOf(A), 1), ReceivePrepare(A, PlanOf(A), 1, map[], 0),
     SendPrepare(C, PlanOf(C), 1), ReceivePrepare(C, PlanOf(C), 1, map[], 0),
     ProposeCommit(C, PlanOf(C), []), ReceiveDecision(C, 1, Decided()),
     SendCommit(C, 1), ReceiveCommit(C, 1),
     SendCommit(B, 1), ReceiveCommit(B, 1)]
  }

  // ---------------------------------------------------------------- the group's nine states

  function G0(): (g: Group) {
    Group(1, map[], map[], {}, {}, map[], map[], map[], [])
  }

  function G1(): (g: Group) {
    G0().(prepared := map[B := Rec(B)], locks := map[K := B, M := B], cache := map[B := Rec(B)])
  }

  function G2(): (g: Group) {
    G1().(decisions := map[B := Decided()])
  }

  /** The restart could not commit B and forgot its locks. */
  function G3(): (g: Group) {
    G2().(locks := map[], cache := map[])
  }

  function G4(): (g: Group) {
    G3().(prepared := map[B := Rec(B), A := Rec(A)], locks := map[K := A], cache := map[A := Rec(A)])
  }

  function G5(): (g: Group) {
    G4().(prepared := map[B := Rec(B), A := Rec(A), C := Rec(C)], locks := map[K := A, M := C],
      cache := map[A := Rec(A), C := Rec(C)])
  }

  function G6(): (g: Group) {
    G5().(decisions := map[B := Decided(), C := Decided()])
  }

  function G7(): (g: Group) {
    G6().(kv := map[M := Cell("v", 1, 0)], committed := {C}, prepared := map[B := Rec(B), A := Rec(A)],
          locks := map[K := A], cache := map[A := Rec(A)], history := [Applied(C, WritesOf(C))])
  }

  function G8(): (g: Group) {
    G7().(kv := map[M := Cell("v", 2, 0), K := Cell("v", 1, 0)], committed := {C, B}, prepared := map[A := Rec(A)],
          locks := map[], cache := map[A := Rec(A)], history := [Applied(C, WritesOf(C)), Applied(B, WritesOf(B))])
  }

  lemma OneWrite(kv: KV, locks: map<Key, TxId>, tx: TxId, w: WriteKey)
    ensures Ops([w])[0] == Op(w)
    ensures ApplyBatch(kv, Ops([w])) == if Expected(kv, Op(w)) then Some(Effect(kv, Op(w))) else None
    ensures Locked(locks, tx, [w]) == locks[w.key := tx]
  {
    var writes := [w];
    assert writes[1..] == [] && Ops(writes)[1..] == [];
    assert Locked(locks[w.key := tx], tx, []) == locks[w.key := tx];
  }

  lemma TwoWrites(kv: KV, locks: map<Key, TxId>, tx: TxId, v: WriteKey, w: WriteKey)
    ensures ApplyBatch(kv, Ops([v, w])) ==
      if !Expected(kv, Op(v)) || !Expected(Effect(kv, Op(v)), Op(w)) then None
      else Some(Effect(Effect(kv, Op(v)), Op(w)))
    ensures Locked(locks, tx, [v, w]) == locks[v.key := tx][w.key := tx]
  {
    hide Expected, Effect;
    var writes := [v, w];
    assert writes[1..] == [w] && Ops(writes)[1..] == Ops([w]);
    OneWrite(Effect(kv, Op(v)), locks[v.key := tx], tx, w);
  }

  lemma Unlocked(g: Group, tx: TxId, writes: seq<WriteKey>, answers: Answers)
    requires forall i | 0 <= i < |writes| :: writes[i].key !in g.locks
    ensures ClearConflicts(g, tx, writes, answers) == Resolved(g, true)
    decreases |writes|
  {
    if writes != [] {
      Unlocked(g, tx, writes[1..], answers);
    }
  }

  lemma PrepareSteps()
    ensures Prepare(G0(), Rec(B), map[], 0) == Replied(G1(), OK)
    ensures Prepare(G3(), Rec(A), map[], 0) == Replied(G4(), OK)
    ensures Prepare(G4(), Rec(C), map[], 0) == Replied(G5(), OK)
  {
    hide ApplyBatch, ClearConflicts, Locked;
    Unlocked(G0(), B, WritesOf(B), map[]);
    Unlocked(G3(), A, WritesOf(A), map[]);
    Unlocked(G4(), C, WritesOf(C), map[]);
    TwoWrites(map[], map[], B, W(K, 0), W(M, 1));
    OneWrite(map[], map[], A, W(K, 0));
    OneWrite(map[], map[K := A], C, W(M, 0));
  }

  lemma RestartStep()
    ensures Restart(G2(), [Rec(B)], map[]) == G3() && IsScan(G2(), [Rec(B)])
  {
    hide ApplyBatch;
    var records := [Rec(B)];
    assert records[1..] == [] && records[0].tx == B;
    TwoWrites(map[], map[], B, W(K, 0), W(M, 1));
    assert RebuildOne(G3(), Rec(B), map[]) == G3();
    assert RebuildAll(G3(), records, map[]) == RebuildAll(G3(), [], map[]);
  }

  lemma DecideSteps()
    ensures RecordDecision(G1(), B, Decided()) == Replied(G2(), OK)
    ensures RecordDecision(G5(), C, Decided()) == Replied(G6(), OK)
  {
    assert map[][B := Decided()] == map[B := Decided()];
    assert map[B := Decided()][C := Decided()] == map[B := Decided(), C := Decided()];
  }

  lemma BatchC()
    ensures ApplyBatch(map[], Ops(WritesOf(C))) == Some(G7().kv)
  {
    hide ApplyBatch, Locked;
    OneWrite(map[], map[], C, W(M, 0));
  }

  lemma AppliedC()
    ensures ApplyCommit(G6(), Rec(C), G7().kv) == G7()
  {
    assert Keys(WritesOf(C)) == {M} by { assert WritesOf(C)[0].key == M; }
    assert map[K := A, M := C] - {M} == map[K := A];
    assert map[A := Rec(A), C := Rec(C)] - {C} == map[A := Rec(A)];
    assert map[B := Rec(B), A := Rec(A), C := Rec(C)] - {C} == map[B := Rec(B), A := Rec(A)];
  }

  lemma CommitStepC()
    ensures Commit(G6(), C) == Replied(G7(), OK)
  {
    hide ApplyBatch, ApplyCommit, Ops, Locked;
    BatchC();
    AppliedC();
  }

  /** G7 with B reloaded and its keys locked again, A's among them. */
  function Reloaded(): (g: Group) {
    G7().(cache := map[A := Rec(A), B := Rec(B)], locks := map[K := B, M := B])
  }

  lemma BatchB()
    ensures ApplyBatch(G7().kv, Ops(WritesOf(B))) == Some(G8().kv)
  {
    hide ApplyBatch, Locked;
    TwoWrites(G7().kv, map[], B, W(K, 0), W(M, 1));
    var v1, v2 := Cell("v", 1, 0), Cell("v", 2, 0);
    assert map[M := v1][K := v1][M := v2] == map[M := v2, K := v1];
  }

  lemma AppliedB()
    ensures ApplyCommit(Reloaded(), Rec(B), G8().kv) == G8()
  {
    assert Keys(WritesOf(B)) == {K, M} by { assert WritesOf(B)[0].key == K && WritesOf(B)[1].key == M; }
    assert map[K := B, M := B] - {K, M} == map[];
    assert map[A := Rec(A), B := Rec(B)] - {B} == map[A := Rec(A)];
    assert map[B := Rec(B), A := Rec(A)] - {B} == map[A := Rec(A)];
    assert [Applied(C, WritesOf(C))] + [Applied(B, WritesOf(B))] == [Applied(C, WritesOf(C)), Applied(B, WritesOf(B))];
  }

  lemma CommitStepB()
    ensures Commit(G7(), B) == Replied(G8(), OK)
  {
    hide ApplyBatch, ApplyCommit, Ops, Locked;
    BatchB();
    AppliedB();
    TwoWrites(map[], map[K := A], B, W(K, 0), W(M, 1));
    assert map[K := A][K := B][M := B] == map[K := B, M := B];
    assert map[A := Rec(A)][B := Rec(B)] == map[A := Rec(A), B := Rec(B)];
  }

  // ---------------------------------------------------------------- the run

  function GroupAt(i: nat): (g: Group) {
    if i <= 1 then G0() else if i <= 3 then G1() else if i == 4 then G2() else if i <= 6 then G3()
    else if i <= 8 then G4() else if i <= 10 then G5() else if i <= 12 then G6() else if i <= 14 then G7() else G8()
  }

  /** The message step i sends, if any. */
  function Sent(i: nat): (m: Option<Msg>) {
    match i
    case 0 => Some(PrepareReq(B, PlanOf(B), 1))
    case 1 => Some(PrepareOk(B, PlanOf(B), 1))
    case 2 => Some(DecideReq(B, 1, Decided()))
    case 3 => Some(Told(B, Committed))
    case 5 => Some(PrepareReq(A, PlanOf(A), 1))
    case 6 => Some(PrepareOk(A, PlanOf(A), 1))
    case 7 => Some(PrepareReq(C, PlanOf(C), 1))
    case 8 => Some(PrepareOk(C, PlanOf(C), 1))
    case 9 => Some(DecideReq(C, 1, Decided()))
    case 10 => Some(Told(C, Committed))
    case 11 => Some(CommitReq(C, 1))
    case 13 => Some(CommitReq(B, 1))
    case _ => None
  }

  function Msgs(i: nat): (r: set<Msg>)
    ensures forall j: nat | j < i && Sent(j).Some? :: Sent(j).value in r
  {
    if i == 0 then {} else if Sent(i - 1).Some? then Msgs(i - 1) + {Sent(i - 1).value} else Msgs(i - 1)
  }

  function Run(i: nat): (s: System) {
    System(map[1 := GroupAt(i)], Msgs(i))
  }

  lemma SamplePlansOk()
    ensures PlansOk(SamplePlans())
    ensures forall tx | tx in {A, B, C} :: tx in SamplePlans() && SamplePlans()[tx] == {PlanOf(tx)}
  {
    forall tx | tx in {A, B, C}
      ensures DistinctKeys(Ops(Rec(tx).writes))
    {
      var writes := WritesOf(tx);
      assert forall i | 0 <= i < |writes| :: Ops(writes)[i].key == writes[i].key;
    }
  }

  ghost predicate Follows(i: nat)
    requires i < 15 && PlansOk(SamplePlans())
  {
    Enabled(SamplePlans(), Run(i), SampleSteps()[i]) && Run(i + 1) == Next(SamplePlans(), Run(i), SampleSteps()[i])
  }

  lemma MsgsNext(i: nat)
    ensures Msgs(i + 1) == if Sent(i).Some? then Msgs(i) + {Sent(i).value} else Msgs(i)
  {}

  lemma RequestFollows(i: nat)
    requires i == 0 || i == 5 || i == 7
    ensures PlansOk(SamplePlans()) && Follows(i)
  {
    hide PlansOk, SamplePlans, Rec, Msgs, G0, G3, G4;
    SamplePlansOk();
    MsgsNext(i);
  }

  lemma ProposeFollows(i: nat)
    requires i == 2 || i == 9
    ensures PlansOk(SamplePlans()) && Follows(i)
  {
    hide PlansOk, SamplePlans, Rec, Msgs, G1, G5;
    SamplePlansOk();
    MsgsNext(i);
    assert Sent(1) == Some(PrepareOk(B, PlanOf(B), 1)) && Sent(8) == Some(PrepareOk(C, PlanOf(C), 1));
  }

  lemma SendFollows(i: nat)
    requires i == 11 || i == 13
    ensures PlansOk(SamplePlans()) && Follows(i)
  {
    hide PlansOk, SamplePlans, Rec, Msgs, G6, G7;
    SamplePlansOk();
    MsgsNext(i);
    assert Sent(3) == Some(Told(B, Committed)) && Sent(10) == Some(Told(C, Committed));
  }

  lemma PrepareFollowsB()
    ensures PlansOk(SamplePlans()) && Follows(1)
  {
    hide PlansOk, SamplePlans, Rec, Prepare, Msgs, G0, G1;
    SamplePlansOk();
    MsgsNext(1);
    PrepareSteps();
    assert Sent(0) == Some(PrepareReq(B, PlanOf(B), 1));
  }

  lemma PrepareFollowsA()
    ensures PlansOk(SamplePlans()) && Follows(6)
  {
    hide PlansOk, SamplePlans, Rec, Prepare, Msgs, G3, G4;
    SamplePlansOk();
    MsgsNext(6);
    PrepareSteps();
    assert Sent(5) == Some(PrepareReq(A, PlanOf(A), 1));
  }

  lemma PrepareFollowsC()
    ensures PlansOk(SamplePlans()) && Follows(8)
  {
    hide PlansOk, SamplePlans, Rec, Prepare, Msgs, G4, G5;
    SamplePlansOk();
    MsgsNext(8);
    PrepareSteps();
    assert Sent(7) == Some(PrepareReq(C, PlanOf(C), 1));
  }

  lemma DecideFollows(i: nat)
    requires i == 3 || i == 10
    ensures PlansOk(SamplePlans()) && Follows(i)
  {
    hide PlansOk, SamplePlans, Rec, Msgs, RecordDecision, G1, G2, G5, G6;
    SamplePlansOk();
    MsgsNext(i);
    DecideSteps();
    assert Sent(2) == Some(DecideReq(B, 1, Decided())) && Sent(9) == Some(DecideReq(C, 1, Decided()));
  }

  lemma RestartFollows()
    ensures PlansOk(SamplePlans()) && Follows(4)
  {
    hide PlansOk, SamplePlans, Rec, Restart, IsScan, Msgs, G2, G3;
    SamplePlansOk();
    MsgsNext(4);
    RestartStep();
  }

  lemma CommitFollows(i: nat)
    requires i == 12 || i == 14
    ensures PlansOk(SamplePlans()) && Follows(i)
  {
    hide PlansOk, SamplePlans, Rec, Commit, Msgs, G6, G7, G8;
    SamplePlansOk();
    MsgsNext(i);
    CommitStepB();
    CommitStepC();
    assert Sent(11) == Some(CommitReq(C, 1)) && Sent(13) == Some(CommitReq(B, 1));
  }

  lemma StepFollows(i: nat)
    requires i < 15
    ensures PlansOk(SamplePlans()) && Follows(i)
  {
    hide *;
    match i
    case 1 => PrepareFollowsB();
    case 2 => ProposeFollows(i);
    case 3 => DecideFollows(i);
    case 4 => RestartFollows();
    case 6 => PrepareFollowsA();
    case 8 => PrepareFollowsC();
    case 9 => ProposeFollows(i);
    case 10 => DecideFollows(i);
    case 11 => SendFollows(i);
    case 12 => CommitFollows(i);
    case 13 => SendFollows(i);
    case 14 => CommitFollows(i);
    case _ => RequestFollows(i);
  }

  lemma Starts()
    ensures Initial(SamplePlans(), Run(0)) && |SampleSteps()| == 15
  {}

  lemma SampleRun()
    ensures IsRun(SamplePlans(), seq(16, i requires 0 <= i < 16 => Run(i)), SampleSteps())
  {
    hide Next, Enabled, PlansOk, Initial, SampleSteps, SamplePlans, Run;
    SamplePlansOk();
    Starts();
    var states := seq(16, i requires 0 <= i < 16 => Run(i));
    forall i | 0 <= i < 15
      ensures Enabled(SamplePlans(), states[i], SampleSteps()[i])
        && states[i + 1] == Next(SamplePlans(), states[i], SampleSteps()[i])
    {
      StepFollows(i);
    }
  }

  /** No step writes outside a transaction, and A's prepare, step 6, finds k at the version it
      expects; in the last state A is still pending and its batch fails. */
  lemma ValidityLost()
    ensures IsRun(SamplePlans(), seq(16, i requires 0 <= i < 16 => Run(i)), SampleSteps())
    ensures forall i | 0 <= i < 15 ::
      !SampleSteps()[i].PlainPut? && !SampleSteps()[i].PlainDelete? && !SampleSteps()[i].ExpireKeys?
    ensures SampleSteps()[6] == ReceivePrepare(A, PlanOf(A), 1, map[], 0)
    ensures var g := Run(7).groups[1]; Pending(g, A) && ApplyBatch(g.kv, Ops(WritesOf(A))).Some?
    ensures var g := Run(15).groups[1];
      Pending(g, A) && g.prepared[A] == Rec(A) && ApplyBatch(g.kv, Ops(WritesOf(A))).None?
  {
    hide IsRun, ApplyBatch, Msgs;
    SampleRun();
    OneWrite(map[], map[], A, W(K, 0));
    OneWrite(G8().kv, map[], A, W(K, 0));
  }
}
