/** A handle that goes on after Rollback (pkg/kv/tx_coordinator.go:427-452): nothing marks it as
    finished, so later reads and writes can move its coordinator group and split the outcome. */
module TxReuse {
  import opened Ordering
  import opened Store
  import opened TxGroup
  import opened TxProtocol
  import opened TxAgreement
  import opened TxHandle

  /** A key the handle has read or written is routed below the group. */
  ghost predicate Below(route: Route, readSet: map<Key, Seen>, writeSet: map<Key, WriteKey>, first: int) {
    exists k :: (k in readSet || k in writeSet) && 0 <= route(k) < first
  }

  lemma FirstOf(route: Route, readSet: map<Key, Seen>, writeSet: map<Key, WriteKey>, before: seq<int>,
                readSet': map<Key, Seen>, writeSet': map<Key, WriteKey>, after: seq<int>)
    requires readSet.Keys <= readSet'.Keys && writeSet.Keys <= writeSet'.Keys
    requires Ascending(before) && before != [] && forall g :: g in before <==> g in Touched(route, readSet, writeSet)
    requires Ascending(after) && forall g :: g in after <==> g in Touched(route, readSet', writeSet')
    ensures after != [] && (after[0] == before[0] <==> forall g | g in after :: before[0] <= g)
  {
    assert before[0] in before;
    assert before[0] in Touched(route, readSet', writeSet');
    assert before[0] in after;
    assert after[0] in after;
  }

  /** The exact condition, for any later state of the handle, which only ever gains keys: its
      decisions go to another coordinator group if and only if a key read or written by then is
      routed below all groups touched before. */
  lemma CoordinatorMoves(route: Route, readSet: map<Key, Seen>, writeSet: map<Key, WriteKey>, before: seq<int>,
                         readSet': map<Key, Seen>, writeSet': map<Key, WriteKey>, after: seq<int>)
    requires readSet.Keys <= readSet'.Keys && writeSet.Keys <= writeSet'.Keys
    requires Ascending(before) && before != [] && forall g :: g in before <==> g in Touched(route, readSet, writeSet)
    requires Ascending(after) && forall g :: g in after <==> g in Touched(route, readSet', writeSet')
    ensures after != [] && (after[0] != before[0] <==> Below(route, readSet', writeSet', before[0]))
  {
    FirstOf(route, readSet, writeSet, before, readSet', writeSet', after);
    if Below(route, readSet', writeSet', before[0]) {
      var k :| (k in readSet' || k in writeSet') && 0 <= route(k) < before[0];
      assert route(k) in Touched(route, readSet', writeSet');
      assert route(k) in after;
    }
  }

  /** The plan is what the handle sends in some state that has gained keys. */
  ghost predicate LaterPlan(tx: TxId, route: Route, readSet: map<Key, Seen>, writeSet: map<Key, WriteKey>, p: Plan) {
    exists readSet': map<Key, Seen>, writeSet': map<Key, WriteKey> ::
      readSet.Keys <= readSet'.Keys && writeSet.Keys <= writeSet'.Keys && PlanFor(tx, route, readSet', writeSet', p)
  }

  /** So a handle committed any number of times keeps one coordinator group, and with it
      agreement, if and only if no later plan touches a group below the first. */
  lemma ReuseShares(plans: Plans, tx: TxId, route: Route, readSet: map<Key, Seen>, writeSet: map<Key, WriteKey>,
                    before: seq<int>)
    requires Ascending(before) && before != [] && forall g :: g in before <==> g in Touched(route, readSet, writeSet)
    requires forall p | Planned(plans, tx, p) :: LaterPlan(tx, route, readSet, writeSet, p)
    ensures SharedBy(plans, map[tx := before[0]]) <==>
      forall p, g | Planned(plans, tx, p) && g in p.participants :: before[0] <= g
  {
    hide Touched;
    forall p | Planned(plans, tx, p)
      ensures p.participants != []
      ensures p.participants[0] == before[0] <==> forall g | g in p.participants :: before[0] <= g
    {
      var readSet': map<Key, Seen>, writeSet': map<Key, WriteKey> :|
        readSet.Keys <= readSet'.Keys && writeSet.Keys <= writeSet'.Keys && PlanFor(tx, route, readSet', writeSet', p);
      FirstOf(route, readSet, writeSet, before, readSet', writeSet', p.participants);
    }
  }

  // ---------------------------------------------------------------- the split outcome

  const TX: TxId := "t"
  const LOW: Key := "low"
  const HIGH: Key := "high"

  function Write(key: Key): (w: WriteKey) {
    WriteKey(key, "v", 0, false)
  }

  function Record(key: Key): (r: TxRecord) {
    TxRecord(TX, [], [Write(key)], 1, [1, 2])
  }

  /** What Commit sends after the handle has written one key in group 1 and one in group 2. */
  function LatePlan(): (p: Plan) {
    Plan([1, 2], map[1 := Record(LOW), 2 := Record(HIGH)])
  }

  function Fresh(id: int): (g: Group) {
    Group(id, map[], map[], {}, {}, map[], map[], map[], [])
  }

  /** Group 2 after the handle, having written only there, was rolled back. */
  function RolledBack(): (g: Group) {
    Abort(RecordDecision(Fresh(2), TX, DecisionRecord(Aborted, [2], [])).group, TX).group
  }

  /** Group 1 after both groups prepared under the late plan and COMMITTED was recorded. */
  function Committing(): (g: Group) {
    RecordDecision(Prepare(Fresh(1), Record(LOW), map[], 0).group, TX, DecisionRecord(Committed, [1, 2], [])).group
  }

  lemma LatePlanIsSent(route: Route)
    requires route(LOW) == 1 && route(HIGH) == 2
    ensures PlanFor(TX, route, map[], map[LOW := Write(LOW), HIGH := Write(HIGH)], LatePlan())
  {
    var writeSet := map[LOW := Write(LOW), HIGH := Write(HIGH)];
    assert LOW in writeSet && HIGH in writeSet;
    assert Touched(route, map[], writeSet) == {1, 2};
    forall k | k in writeSet
      ensures DistinctKeys(Ops([Write(k)]))
    {}
  }

  lemma Prepares(id: int, aborted: set<TxId>, decisions: map<TxId, DecisionRecord>, key: Key)
    ensures var g := Fresh(id).(aborted := aborted, decisions := decisions);
      Prepare(g, Record(key), map[], 0) ==
        Replied(g.(locks := map[key := TX], prepared := map[TX := Record(key)], cache := map[TX := Record(key)]), OK)
  {
    var g := Fresh(id).(aborted := aborted, decisions := decisions);
    var writes := [Write(key)];
    assert writes[1..] == [];
    assert ClearConflicts(g, TX, writes, map[]) == Resolved(g, true);
    assert Locked(map[], TX, writes) == Locked(map[key := TX], TX, []) == map[key := TX];
  }

  /** Rollback at group 2, then a write to group 1, then Commit: both groups answer OK to the
      prepares, COMMITTED is recorded at group 1, and the commit goes through there, while
      group 2 keeps the abort marker and refuses the commit. */
  lemma SplitOutcome()
    ensures RecordDecision(Fresh(2), TX, DecisionRecord(Aborted, [2], [])).err == OK
    ensures Prepare(Fresh(1), Record(LOW), map[], 0).err == OK
      && Prepare(RolledBack(), Record(HIGH), map[], 0).err == OK
    ensures Commit(Committing(), TX).err == OK && TX in Commit(Committing(), TX).group.committed
    ensures var g := Prepare(RolledBack(), Record(HIGH), map[], 0).group;
      TX in g.aborted && Commit(g, TX) == Replied(g, TxConflict) && HIGH !in g.kv
  {
    hide Prepare;
    Prepares(1, {}, map[], LOW);
    assert Fresh(1).(aborted := {}, decisions := map[]) == Fresh(1);
    var d := map[TX := DecisionRecord(Aborted, [2], [])];
    Prepares(2, {TX}, d, HIGH);
    assert RolledBack() == Fresh(2).(aborted := {TX}, decisions := d);
    var writes := [Write(LOW)];
    assert Ops(writes)[1..] == [] && Ops(writes)[0] == Op(writes[0]);
    assert ApplyBatch(map[], Ops(writes)).Some?;
  }

  // ---------------------------------------------------------------- a read is enough

  /** Group 1's record when the handle has only read there. */
  function ReadRecord(): (r: TxRecord) {
    TxRecord(TX, [ReadKey(LOW, 1)], [], 1, [1, 2])
  }

  function ReadPlan(): (p: Plan) {
    Plan([1, 2], map[1 := ReadRecord(), 2 := Record(HIGH)])
  }

  /** Group 1 with the key that is read. */
  function Stocked(): (g: Group) {
    var cell := Cell("x", 1, 0);
    Fresh(1).(kv := map[LOW := cell], history := [Stored(LOW, cell)])
  }

  function ReadCommitting(): (g: Group) {
    RecordDecision(Prepare(Stocked(), ReadRecord(), map[], 0).group, TX, DecisionRecord(Committed, [1, 2], [])).group
  }

  lemma ReadPlanIsSent(route: Route)
    requires route(LOW) == 1 && route(HIGH) == 2
    ensures PlanFor(TX, route, map[LOW := Seen("x", 1)], map[HIGH := Write(HIGH)], ReadPlan())
  {
    var readSet, writeSet := map[LOW := Seen("x", 1)], map[HIGH := Write(HIGH)];
    assert LOW in readSet && HIGH in writeSet;
    assert Touched(route, readSet, writeSet) == {1, 2};
    assert DistinctKeys(Ops([Write(HIGH)])) && DistinctKeys(Ops([]));
  }

  /** Rollback at group 2, then a read in group 1, then Commit: both groups answer OK to the
      prepares, COMMITTED is recorded at group 1 and carried out there, while group 2 keeps the
      abort marker, refuses the commit, and with it the handle's only write. */
  lemma ReadSplitsOutcome()
    ensures Prepare(Stocked(), ReadRecord(), map[], 0).err == OK
      && Prepare(RolledBack(), Record(HIGH), map[], 0).err == OK
    ensures Commit(ReadCommitting(), TX).err == OK && TX in Commit(ReadCommitting(), TX).group.committed
    ensures var g := Prepare(RolledBack(), Record(HIGH), map[], 0).group;
      TX in g.aborted && Commit(g, TX) == Replied(g, TxConflict) && HIGH !in g.kv
  {
    var g := Stocked();
    assert ClearConflicts(g, TX, [], map[]) == Resolved(g, true);
    assert ReadValid(g.kv, ReadKey(LOW, 1), 0);
    assert Ops([]) == [];
    assert ApplyBatch(g.kv, []).Some?;
    SplitOutcome();
  }
}
