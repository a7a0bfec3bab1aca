/** A run with one plain put on a locked key, after which a restart forgets the lock of a
    transaction decided COMMITTED. */
module TxForgottenLock {
  import opened Options
  import opened Store
  import opened TxGroup
  import opened TxLocks
  import opened TxProtocol

  const KEY: Key := "k"
  const FIRST: TxId := "a"
  const SECOND: TxId := "b"

  function SampleRecord(tx: TxId, version: nat): (r: TxRecord) {
    TxRecord(tx, [], [WriteKey(KEY, "v", version, false)], 1, [1])
  }

  function SamplePlan(tx: TxId, version: nat): (p: Plan) {
    Plan([1], map[1 := SampleRecord(tx, version)])
  }

  function SamplePlans(): (r: Plans) {
    map[FIRST := {SamplePlan(FIRST, 0)}, SECOND := {SamplePlan(SECOND, 1)}]
  }

  function SampleSteps(): (r: seq<Step>) {
    [SendPrepare(FIRST, SamplePlan(FIRST, 0), 1), ReceivePrepare(FIRST, SamplePlan(FIRST, 0), 1, map[], 0),
     PlainPut(1, KEY, "w", 0, 0, 0),
     ProposeCommit(FIRST, SamplePlan(FIRST, 0), []), ReceiveDecision(FIRST, 1, DecisionRecord(Committed, [1], [])),
     RestartGroup(1, [SampleRecord(FIRST, 0)], map[]),
     SendPrepare(SECOND, SamplePlan(SECOND, 1), 1), ReceivePrepare(SECOND, SamplePlan(SECOND, 1), 1, map[], 0)]
  }

  function Fresh(): (r: Group) {
    Group(1, map[], map[], {}, {}, map[], map[], map[], [])
  }

  /** The group while FIRST is prepared, with the given store, decisions and memory. */
  function WithFirst(kv: KV, decisions: map<TxId, DecisionRecord>, locks: map<Key, TxId>, cache: map<TxId, TxRecord>,
                     history: seq<Event>): (r: Group) {
    Group(1, kv, map[FIRST := SampleRecord(FIRST, 0)], {}, {}, decisions, locks, cache, history)
  }

  lemma SamplePlansOk()
    ensures PlansOk(SamplePlans())
  {}

  lemma FirstPrepared()
    ensures Prepare(Fresh(), SampleRecord(FIRST, 0), map[], 0) ==
      Replied(WithFirst(map[], map[], map[KEY := FIRST], map[FIRST := SampleRecord(FIRST, 0)], []), OK)
  {
    var writes := SampleRecord(FIRST, 0).writes;
    assert writes[1..] == [];
    assert ClearConflicts(Fresh(), FIRST, writes, map[]) == Resolved(Fresh(), true);
    assert Locked(map[], FIRST, writes) == Locked(map[KEY := FIRST], FIRST, []) == map[KEY := FIRST];
  }

  /** The restart finds the batch inapplicable and forgets the lock. */
  lemma LockForgotten(kv: KV, decisions: map<TxId, DecisionRecord>, locks: map<Key, TxId>, cache: map<TxId, TxRecord>,
                      history: seq<Event>)
    requires KEY in kv && kv[KEY].version == 1 && FIRST in decisions && decisions[FIRST].decision == Committed
    ensures Restart(WithFirst(kv, decisions, locks, cache, history), [SampleRecord(FIRST, 0)], map[]) ==
      WithFirst(kv, decisions, map[], map[], history)
  {
    var rec := SampleRecord(FIRST, 0);
    var f := WithFirst(kv, decisions, map[], map[], history);
    assert Ops(rec.writes)[0] == WriteOp(KEY, "v", 0, 0, false);
    assert ApplyBatch(kv, Ops(rec.writes)) == None;
    assert RebuildOne(f, rec, map[]) == f;
    var records := [rec];
    assert records[1..] == [];
    assert RebuildAll(f, records, map[]) == RebuildAll(f, [], map[]) == f;
  }

  lemma SecondPrepared(kv: KV, decisions: map<TxId, DecisionRecord>, history: seq<Event>)
    ensures var r := Prepare(WithFirst(kv, decisions, map[], map[], history), SampleRecord(SECOND, 1), map[], 0);
      && r.err == OK && Pending(r.group, FIRST) && Pending(r.group, SECOND) && r.group.locks == map[KEY := SECOND]
      && KEY in Keys(r.group.prepared[FIRST].writes) && KEY in Keys(r.group.prepared[SECOND].writes)
  {
    var g := WithFirst(kv, decisions, map[], map[], history);
    var writes := SampleRecord(SECOND, 1).writes;
    assert writes[1..] == [];
    assert ClearConflicts(g, SECOND, writes, map[]) == Resolved(g, true);
    assert Locked(map[], SECOND, writes) == Locked(map[KEY := SECOND], SECOND, []) == map[KEY := SECOND];
    assert FIRST != SECOND;
    var first := SampleRecord(FIRST, 0).writes;
    assert first[0].key == KEY && writes[0].key == KEY;
  }

  function Run(i: nat): (s: System)
    requires i <= 8
  {
    var cell := Cell("w", 1, 0);
    var locks := map[KEY := FIRST];
    var cache := map[FIRST := SampleRecord(FIRST, 0)];
    var d := DecisionRecord(Committed, [1], []);
    var m1 := {PrepareReq(FIRST, SamplePlan(FIRST, 0), 1)};
    var m2 := m1 + {PrepareOk(FIRST, SamplePlan(FIRST, 0), 1)};
    var m4 := m2 + {DecideReq(FIRST, 1, d)};
    var m5 := m4 + {Told(FIRST, Committed)};
    var m7 := m5 + {PrepareReq(SECOND, SamplePlan(SECOND, 1), 1)};
    var h := [Stored(KEY, cell)];
    var forgot := WithFirst(map[KEY := cell], map[FIRST := d], map[], map[], h);
    match i
    case 0 => System(map[1 := Fresh()], {})
    case 1 => System(map[1 := Fresh()], m1)
    case 2 => System(map[1 := WithFirst(map[], map[], locks, cache, [])], m2)
    case 3 => System(map[1 := WithFirst(map[KEY := cell], map[], locks, cache, h)], m2)
    case 4 => System(map[1 := WithFirst(map[KEY := cell], map[], locks, cache, h)], m4)
    case 5 => System(map[1 := WithFirst(map[KEY := cell], map[FIRST := d], locks, cache, h)], m5)
    case 6 => System(map[1 := forgot], m5)
    case 7 => System(map[1 := forgot], m7)
    case _ =>
      System(map[1 := Prepare(forgot, SampleRecord(SECOND, 1), map[], 0).group],
        m7 + {PrepareOk(SECOND, SamplePlan(SECOND, 1), 1)})
  }

  lemma SampleScan(kv: KV, decisions: map<TxId, DecisionRecord>, locks: map<Key, TxId>, cache: map<TxId, TxRecord>,
                   history: seq<Event>)
    ensures IsScan(WithFirst(kv, decisions, locks, cache, history), [SampleRecord(FIRST, 0)])
  {
    var records := [SampleRecord(FIRST, 0)];
    assert records[0].tx == FIRST;
  }

  ghost predicate Follows(i: nat)
    requires i < 8 && PlansOk(SamplePlans())
  {
    Enabled(SamplePlans(), Run(i), SampleSteps()[i]) && Run(i + 1) == Next(SamplePlans(), Run(i), SampleSteps()[i])
  }

  lemma SampleParts()
    ensures PlansOk(SamplePlans()) && FIRST in SamplePlans() && SECOND in SamplePlans()
    ensures SamplePlans()[FIRST] == {SamplePlan(FIRST, 0)} && SamplePlans()[SECOND] == {SamplePlan(SECOND, 1)}
  {
    SamplePlansOk();
  }

  lemma RunPrepares(i: nat)
    requires i < 3
    ensures PlansOk(SamplePlans()) && Follows(i)
  {
    hide Prepare, ApplyBatch, PlansOk, SampleRecord, SamplePlans;
    SampleParts();
    FirstPrepared();
    var e := Stored(KEY, Cell("w", 1, 0));
    assert [] + [e] == [e];
    assert map[][KEY := Cell("w", 1, 0)] == map[KEY := Cell("w", 1, 0)];
  }

  lemma RunDecides(i: nat)
    requires 3 <= i < 5
    ensures PlansOk(SamplePlans()) && Follows(i)
  {
    hide PlansOk, SampleRecord, SamplePlans;
    SampleParts();
  }

  lemma RunRestarts()
    ensures PlansOk(SamplePlans()) && Follows(5)
  {
    hide Restart, PlansOk, SampleRecord, SamplePlans, IsScan;
    SampleParts();
    var kv := map[KEY := Cell("w", 1, 0)];
    var d := map[FIRST := DecisionRecord(Committed, [1], [])];
    var cache := map[FIRST := SampleRecord(FIRST, 0)];
    var h := [Stored(KEY, Cell("w", 1, 0))];
    SampleScan(kv, d, map[KEY := FIRST], cache, h);
    LockForgotten(kv, d, map[KEY := FIRST], cache, h);
  }

  lemma RunEnds(i: nat)
    requires 6 <= i < 8
    ensures PlansOk(SamplePlans()) && Follows(i)
  {
    hide Prepare, PlansOk, SampleRecord, SamplePlans;
    SampleParts();
    SecondPrepared(map[KEY := Cell("w", 1, 0)], map[FIRST := DecisionRecord(Committed, [1], [])],
      [Stored(KEY, Cell("w", 1, 0))]);
  }

  /** In a run with one plain put on a locked key, a restart forgets a committed transaction's
      lock and the next prepare takes its key: two transactions without markers write the same
      key and one of them holds no lock. */
  lemma LockLost()
    ensures IsRun(SamplePlans(), seq(9, i requires 0 <= i < 9 => Run(i)), SampleSteps())
    ensures var g := Run(8).groups[1];
      && Pending(g, FIRST) && Pending(g, SECOND)
      && KEY in Keys(g.prepared[FIRST].writes) && KEY in Keys(g.prepared[SECOND].writes)
      && !Owns(g, FIRST)
  {
    hide Prepare, Restart, Next, Enabled;
    var states := seq(9, i requires 0 <= i < 9 => Run(i));
    SamplePlansOk();
    forall i | 0 <= i < 8
      ensures Enabled(SamplePlans(), states[i], SampleSteps()[i])
        && states[i + 1] == Next(SamplePlans(), states[i], SampleSteps()[i])
    {
      if i < 3 {
        RunPrepares(i);
      } else if i < 5 {
        RunDecides(i);
      } else if i == 5 {
        RunRestarts();
      } else {
        RunEnds(i);
      }
    }
    var cell := Cell("w", 1, 0);
    SecondPrepared(map[KEY := cell], map[FIRST := DecisionRecord(Committed, [1], [])], [Stored(KEY, cell)]);
  }
}
