/** The client's transaction handle (pkg/kv/tx_coordinator.go): how the buffered reads and
    writes become one request per group, which group coordinates, and when COMMITTED is
    proposed. Routing is a fixed function; a negative group means a key cannot be routed. */
module TxHandle {
  import opened Options
  import opened Ordering
  import opened Sets
  import opened Store
  import opened TxGroup
  import opened TxProtocol

  type Route = Key -> int

  /** A value and version as first read. */
  datatype Seen = Seen(value: string, version: nat)

  // ---------------------------------------------------------------- grouping

  /** Each group's list holds exactly the writes routed to it, each key once. */
  ghost predicate Grouped(route: Route, writeSet: map<Key, WriteKey>, m: map<int, seq<WriteKey>>, done: set<Key>) {
    && (forall g | g in m :: g >= 0 && DistinctKeys(Ops(m[g])))
    && (forall g, w | g in m && w in m[g] ::
          w.key in done && w.key in writeSet && w == writeSet[w.key] && route(w.key) == g)
    && (forall k | k in done && k in writeSet && route(k) >= 0 :: route(k) in m && writeSet[k] in m[route(k)])
  }

  ghost predicate ReadsGrouped(route: Route, readSet: map<Key, Seen>, m: map<int, seq<ReadKey>>, done: set<Key>) {
    && (forall g | g in m :: g >= 0 && m[g] != [])
    && (forall g, r | g in m && r in m[g] ::
          r.key in done && r.key in readSet && r.expected == readSet[r.key].version && route(r.key) == g)
    && (forall k | k in done && k in readSet && route(k) >= 0 ::
          route(k) in m && ReadKey(k, readSet[k].version) in m[route(k)])
  }

  lemma DistinctAdded(list: seq<WriteKey>, w: WriteKey)
    requires DistinctKeys(Ops(list)) && forall v | v in list :: v.key != w.key
    ensures DistinctKeys(Ops(list + [w]))
  {
    var longer := list + [w];
    forall i, j | 0 <= i < j < |longer|
      ensures Ops(longer)[i].key != Ops(longer)[j].key
    {
      if j < |list| {
        assert Ops(list)[i].key != Ops(list)[j].key;
      } else {
        assert list[i] in list;
      }
    }
  }

  lemma GroupStep(route: Route, writeSet: map<Key, WriteKey>, m: map<int, seq<WriteKey>>, done: set<Key>, key: Key)
    requires forall k | k in writeSet :: writeSet[k].key == k
    requires Grouped(route, writeSet, m, done) && key in writeSet && key !in done && route(key) >= 0
    ensures var list := if route(key) in m then m[route(key)] else [];
      Grouped(route, writeSet, m[route(key) := list + [writeSet[key]]], done + {key})
  {
    hide DistinctKeys;
    var list := if route(key) in m then m[route(key)] else [];
    assert DistinctKeys(Ops(list)) by { if list == [] { NoOps(); } }
    DistinctAdded(list, writeSet[key]);
  }

  lemma NoOps()
    ensures DistinctKeys(Ops([]))
  {}

  /** Distinct keys are as many as the writes that carry them. */
  lemma {:induction false} KeyCount(writes: seq<WriteKey>)
    requires DistinctKeys(Ops(writes))
    ensures |Keys(writes)| == |writes|
    decreases |writes|
  {
    if writes == [] {
      assert Keys(writes) == {};
    } else {
      var n := |writes| - 1;
      var init := writes[..n];
      forall i, j | 0 <= i < j < n
        ensures Ops(init)[i].key != Ops(init)[j].key
      {
        assert Ops(writes)[i].key != Ops(writes)[j].key;
      }
      KeyCount(init);
      assert forall i | 0 <= i < n :: init[i] == writes[i];
      assert Keys(writes) == Keys(init) + {writes[n].key};
      forall i | 0 <= i < n
        ensures init[i].key != writes[n].key
      {
        assert Ops(writes)[i].key != Ops(writes)[n].key;
      }
    }
  }

  // ---------------------------------------------------------------- the plan

  ghost function Touched(route: Route, readSet: map<Key, Seen>, writeSet: map<Key, WriteKey>): (r: set<int>) {
    (set k | k in writeSet && route(k) >= 0 :: route(k)) + (set k | k in readSet && route(k) >= 0 :: route(k))
  }

  /** The plan sends every buffered read and write to the group of its key and nothing else,
      to all groups touched, in order, under the first of them. */
  ghost predicate PlanFor(tx: TxId, route: Route, readSet: map<Key, Seen>, writeSet: map<Key, WriteKey>, p: Plan) {
    && PlanOk(tx, p) && Ascending(p.participants)
    && (forall g :: g in p.participants <==> g in Touched(route, readSet, writeSet))
    && (forall k | k in writeSet :: route(k) in p.participants && writeSet[k] in p.records[route(k)].writes)
    && (forall k | k in readSet && route(k) >= 0 ::
          route(k) in p.participants && ReadKey(k, readSet[k].version) in p.records[route(k)].readSet)
    && (forall g, w | g in p.participants && w in p.records[g].writes ::
          w.key in writeSet && writeSet[w.key] == w && route(w.key) == g)
    && (forall g, r | g in p.participants && r in p.records[g].readSet ::
          r.key in readSet && readSet[r.key].version == r.expected && route(r.key) == g)
  }

  function Records(tx: TxId, participants: seq<int>, m: map<int, seq<WriteKey>>,
                   rm: map<int, seq<ReadKey>>): (r: map<int, TxRecord>)
    requires participants != []
  {
    map g | g in participants ::
      TxRecord(tx, if g in rm then rm[g] else [], if g in m then m[g] else [], participants[0], participants)
  }

  lemma PlanBuilt(tx: TxId, route: Route, readSet: map<Key, Seen>, writeSet: map<Key, WriteKey>, participants: seq<int>,
                m: map<int, seq<WriteKey>>, rm: map<int, seq<ReadKey>>)
    requires Grouped(route, writeSet, m, writeSet.Keys) && ReadsGrouped(route, readSet, rm, readSet.Keys)
    requires forall k | k in writeSet :: route(k) >= 0
    requires participants != [] && Ascending(participants)
    requires forall g :: g in participants <==> g in Touched(route, readSet, writeSet)
    ensures PlanFor(tx, route, readSet, writeSet, Plan(participants, Records(tx, participants, m, rm)))
  {
    hide Ascending, Touched, Grouped, ReadsGrouped, Records, PlanOk;
    RecordsOk(tx, route, writeSet, participants, m, rm);
    assert forall k | k in writeSet :: route(k) in participants by { InTouched(route, readSet, writeSet); }
    assert forall k | k in readSet && route(k) >= 0 ::
      route(k) in participants by { InTouched(route, readSet, writeSet); }
    WritesSent(tx, route, writeSet, participants, m, rm);
    ReadsSent(tx, route, readSet, participants, m, rm);
  }

  lemma InTouched(route: Route, readSet: map<Key, Seen>, writeSet: map<Key, WriteKey>)
    ensures forall k | k in writeSet && route(k) >= 0 :: route(k) in Touched(route, readSet, writeSet)
    ensures forall k | k in readSet && route(k) >= 0 :: route(k) in Touched(route, readSet, writeSet)
  {}

  lemma RecordsOk(tx: TxId, route: Route, writeSet: map<Key, WriteKey>, participants: seq<int>,
                  m: map<int, seq<WriteKey>>, rm: map<int, seq<ReadKey>>)
    requires Grouped(route, writeSet, m, writeSet.Keys) && participants != []
    ensures PlanOk(tx, Plan(participants, Records(tx, participants, m, rm)))
  {
    hide DistinctKeys;
    NoOps();
  }

  lemma WritesSent(tx: TxId, route: Route, writeSet: map<Key, WriteKey>, participants: seq<int>,
                   m: map<int, seq<WriteKey>>, rm: map<int, seq<ReadKey>>)
    requires Grouped(route, writeSet, m, writeSet.Keys) && participants != []
    requires forall k | k in writeSet :: route(k) >= 0 && route(k) in participants
    ensures var records := Records(tx, participants, m, rm);
      && (forall k | k in writeSet :: writeSet[k] in records[route(k)].writes)
      && (forall g, w | g in participants && w in records[g].writes ::
            w.key in writeSet && writeSet[w.key] == w && route(w.key) == g)
  {
    hide DistinctKeys;
  }

  lemma ReadsSent(tx: TxId, route: Route, readSet: map<Key, Seen>, participants: seq<int>,
                  m: map<int, seq<WriteKey>>, rm: map<int, seq<ReadKey>>)
    requires ReadsGrouped(route, readSet, rm, readSet.Keys) && participants != []
    requires forall k | k in readSet && route(k) >= 0 :: route(k) in participants
    ensures var records := Records(tx, participants, m, rm);
      && (forall k | k in readSet && route(k) >= 0 :: ReadKey(k, readSet[k].version) in records[route(k)].readSet)
      && (forall g, r | g in participants && r in records[g].readSet ::
            r.key in readSet && readSet[r.key].version == r.expected && route(r.key) == g)
  {}

  lemma ReadGroups(route: Route, readSet: map<Key, Seen>, m: map<int, seq<ReadKey>>)
    requires ReadsGrouped(route, readSet, m, readSet.Keys)
    ensures m.Keys == set k | k in readSet && route(k) >= 0 :: route(k)
  {
    forall g | g in m
      ensures g in set k | k in readSet && route(k) >= 0 :: route(k)
    {
      var first := m[g][0];
      assert first in m[g];
      assert first.key in readSet;
    }
  }

  datatype Outcome = Ready(plan: Plan) | Nothing | WrongGroup

  class Handle {
    const txID: TxId
    const route: Route
    var readSet: map<Key, Seen>
    var writeSet: map<Key, WriteKey>
    var groups: set<int>

    /** groups are those of the routable writes. */
    ghost predicate Valid()
      reads this
    {
      && (forall k | k in writeSet :: writeSet[k].key == k)
      && groups == set k | k in writeSet && route(k) >= 0 :: route(k)
    }

    constructor (txID: TxId, route: Route)
      ensures Valid() && readSet == map[] && writeSet == map[] && this.txID == txID && this.route == route
    {
      this.txID, this.route := txID, route;
      readSet, writeSet, groups := map[], map[], {};
    }

    method Note(w: WriteKey)
      requires Valid()
      modifies this`writeSet, this`groups
      ensures Valid() && writeSet == old(writeSet)[w.key := w]
    {
      writeSet := writeSet[w.key := w];
      var gid := route(w.key);
      if gid >= 0 {
        groups := groups + {gid};
      }
      assert forall k | k in writeSet :: k == w.key || k in old(writeSet);
    }

    /** Get: own writes first, then the value first read, then the server's answer. */
    method Get(key: Key, server: Option<Seen>) returns (answer: Option<Seen>)
      requires Valid()
      modifies this`readSet
      ensures Valid()
      ensures answer ==
        if key in writeSet then Some(Seen(writeSet[key].value, writeSet[key].version))
        else if key in old(readSet) then Some(old(readSet)[key])
        else server
      ensures readSet ==
        if key in writeSet || key in old(readSet) || server == None then old(readSet)
        else old(readSet)[key := server.value]
    {
      if key in writeSet {
        return Some(Seen(writeSet[key].value, writeSet[key].version));
      }
      if key in readSet {
        return Some(readSet[key]);
      }
      if server == None {
        return None;
      }
      readSet := readSet[key := server.value];
      return server;
    }

    method Put(key: Key, value: string, expected: nat)
      requires Valid()
      modifies this`writeSet, this`groups
      ensures Valid() && writeSet == old(writeSet)[key := WriteKey(key, value, expected, false)]
    {
      Note(WriteKey(key, value, expected, false));
    }

    /** Delete expects the version first read, reading it now if need be, without its value. */
    method Delete(key: Key, server: Option<nat>)
      requires Valid()
      modifies this
      ensures Valid()
      ensures readSet ==
        if key in old(readSet) || server == None then old(readSet)
        else old(readSet)[key := Seen("", server.value)]
      ensures writeSet ==
        old(writeSet)[key := WriteKey(key, "", if key in readSet then readSet[key].version else 0, true)]
    {
      var version := 0;
      if key in readSet {
        version := readSet[key].version;
      } else if server != None {
        version := server.value;
        readSet := readSet[key := Seen("", version)];
      }
      Note(WriteKey(key, "", version, true));
    }

    method GroupWriteKeys() returns (m: map<int, seq<WriteKey>>)
      requires Valid()
      ensures Grouped(route, writeSet, m, writeSet.Keys)
    {
      hide Grouped;
      m := map[];
      var rest := writeSet.Keys;
      ghost var done: set<Key> := {};
      assert Grouped(route, writeSet, m, done) by { NothingGrouped(route, writeSet); }
      while rest != {}
        invariant done + rest == writeSet.Keys && done !! rest && Grouped(route, writeSet, m, done)
        decreases |rest|
      {
        var key :| key in rest;
        var w := writeSet[key];
        var gid := route(w.key);
        if gid >= 0 {
          GroupStep(route, writeSet, m, done, key);
          m := m[gid := (if gid in m then m[gid] else []) + [w]];
        } else {
          Unroutable(route, writeSet, m, done, key);
        }
        done, rest := done + {key}, rest - {key};
      }
      assert done == writeSet.Keys;
    }

    method GroupReadKeys() returns (m: map<int, seq<ReadKey>>)
      ensures ReadsGrouped(route, readSet, m, readSet.Keys)
    {
      m := map[];
      var rest := readSet.Keys;
      while rest != {}
        invariant rest <= readSet.Keys && ReadsGrouped(route, readSet, m, readSet.Keys - rest)
        decreases |rest|
      {
        var key :| key in rest;
        var gid := route(key);
        if gid >= 0 {
          m := m[gid := (if gid in m then m[gid] else []) + [ReadKey(key, readSet[key].version)]];
        }
        rest := rest - {key};
      }
      assert readSet.Keys - rest == readSet.Keys;
    }

    /** The sum of the lists' lengths, against the number of writes. */
    method AllRouted(m: map<int, seq<WriteKey>>) returns (ok: bool)
      requires Valid() && Grouped(route, writeSet, m, writeSet.Keys)
      ensures ok <==> forall k | k in writeSet :: route(k) >= 0
    {
      hide Grouped;
      var total := 0;
      var rest := m.Keys;
      assert RoutedOff(route, writeSet, m.Keys) == {} by { NoneElsewhere(route, writeSet, m); }
      while rest != {}
        invariant rest <= m.Keys && total == |RoutedOff(route, writeSet, rest)|
        decreases |rest|
      {
        ghost var some := Member(rest);
        var gid :| gid in rest;
        CountList(route, writeSet, m, rest, gid);
        total := total + |m[gid]|;
        rest := rest - {gid};
      }
      assert RoutedOff(route, writeSet, rest) <= writeSet.Keys;
      if total < |writeSet| {
        assert RoutedOff(route, writeSet, rest) != writeSet.Keys;
        return false;
      }
      SameSize(RoutedOff(route, writeSet, rest), writeSet.Keys);
      return true;
    }

    /** Commit up to the prepare requests: a plan comes out exactly when every write can be
        routed and some group is touched. */
    method PlanCommit() returns (r: Outcome)
      requires Valid()
      ensures r == WrongGroup <==> exists k :: k in writeSet && route(k) < 0
      ensures r == Nothing ==> Touched(route, readSet, writeSet) == {}
      ensures r.Ready? ==> PlanFor(txID, route, readSet, writeSet, r.plan)
    {
      hide PlanFor, Grouped, ReadsGrouped, Ascending;
      var m := GroupWriteKeys();
      var ok := AllRouted(m);
      if !ok {
        return WrongGroup;
      }
      var rm := GroupReadKeys();
      ReadGroups(route, readSet, rm);
      var participants := Sorted(groups + rm.Keys);
      if |participants| == 0 {
        assert forall g | g in Touched(route, readSet, writeSet) :: g in participants;
        return Nothing;
      }
      PlanBuilt(txID, route, readSet, writeSet, participants, m, rm);
      return Ready(Plan(participants, Records(txID, participants, m, rm)));
    }

    /** The groups that Rollback addresses, the first being where it records ABORTED. */
    method RollbackGroups() returns (participants: seq<int>)
      requires Valid()
      ensures Ascending(participants) && forall g :: g in participants <==> g in Touched(route, readSet, writeSet)
    {
      participants := Sorted(groups + set k | k in readSet && route(k) >= 0 :: route(k));
    }
  }

  lemma NothingGrouped(route: Route, writeSet: map<Key, WriteKey>)
    ensures Grouped(route, writeSet, map[], {})
  {}

  lemma Unroutable(route: Route, writeSet: map<Key, WriteKey>, m: map<int, seq<WriteKey>>, done: set<Key>, key: Key)
    requires Grouped(route, writeSet, m, done) && route(key) < 0
    ensures Grouped(route, writeSet, m, done + {key})
  {
    hide DistinctKeys;
  }

  /** The routable keys of groups other than these. */
  ghost function RoutedOff(route: Route, writeSet: map<Key, WriteKey>, rest: set<int>): (r: set<Key>) {
    set k | k in writeSet && route(k) >= 0 && route(k) !in rest
  }

  lemma NoneElsewhere(route: Route, writeSet: map<Key, WriteKey>, m: map<int, seq<WriteKey>>)
    requires Grouped(route, writeSet, m, writeSet.Keys)
    ensures RoutedOff(route, writeSet, m.Keys) == {}
  {
    hide DistinctKeys;
  }

  lemma CountList(route: Route, writeSet: map<Key, WriteKey>, m: map<int, seq<WriteKey>>, rest: set<int>, g: int)
    requires Grouped(route, writeSet, m, writeSet.Keys) && g in m && g in rest
    requires forall k | k in writeSet :: writeSet[k].key == k
    ensures |RoutedOff(route, writeSet, rest - {g})| == |RoutedOff(route, writeSet, rest)| + |m[g]|
  {
    hide Keys, DistinctKeys;
    assert DistinctKeys(Ops(m[g]));
    ListKeys(route, writeSet, m, g);
    KeyCount(m[g]);
    hide Grouped;
    assert RoutedOff(route, writeSet, rest - {g}) == RoutedOff(route, writeSet, rest) + Keys(m[g]);
    assert RoutedOff(route, writeSet, rest) !! Keys(m[g]);
  }

  lemma ListKeys(route: Route, writeSet: map<Key, WriteKey>, m: map<int, seq<WriteKey>>, g: int)
    requires Grouped(route, writeSet, m, writeSet.Keys) && g in m && forall k | k in writeSet :: writeSet[k].key == k
    ensures g >= 0 && Keys(m[g]) == set k | k in writeSet && route(k) == g
  {
    var list := m[g];
    forall i | 0 <= i < |list|
      ensures list[i].key in writeSet && route(list[i].key) == g
    {
      assert list[i] in list;
    }
    forall k | k in writeSet && route(k) == g
      ensures k in Keys(list)
    {
      assert writeSet[k] in list;
    }
  }

  /** Commit and Rollback of one handle name the same groups, so both put their decision at
      the same coordinator group. */
  lemma SameCoordinator(tx: TxId, route: Route, readSet: map<Key, Seen>, writeSet: map<Key, WriteKey>, p: Plan,
                        rollback: seq<int>)
    requires PlanFor(tx, route, readSet, writeSet, p)
    requires Ascending(rollback) && forall g :: g in rollback <==> g in Touched(route, readSet, writeSet)
    ensures rollback == p.participants && rollback[0] == p.participants[0]
  {
    AscendingUnique(rollback, p.participants);
  }

  // ---------------------------------------------------------------- the decision

  /** One group's answer to Prepare: an error or a reply. */
  datatype PrepareResult = PrepareResult(group: int, reply: Option<Err>)

  /** Commit's collecting loop: with one result per participant, in any order, COMMITTED is
      proposed if and only if every participant answered OK. */
  method Collect(participants: seq<int>, results: seq<PrepareResult>) returns (commit: bool, prepared: set<int>)
    requires Ascending(participants) && |results| == |participants|
    requires forall g | g in participants :: exists i :: 0 <= i < |results| && results[i].group == g
    requires forall i | 0 <= i < |results| :: results[i].group in participants
    requires forall i, j | 0 <= i < j < |results| :: results[i].group != results[j].group
    ensures commit <==> forall i | 0 <= i < |results| :: results[i].reply == Some(OK)
    ensures forall g :: g in prepared <==> PrepareResult(g, Some(OK)) in results
    ensures commit ==> forall g | g in participants :: g in prepared
  {
    prepared := {};
    ghost var failed: set<int> := {};
    for i := 0 to |results|
      invariant forall g :: g in prepared <==> PrepareResult(g, Some(OK)) in results[..i]
      invariant forall g | g in failed ::
        exists j :: 0 <= j < i && results[j].group == g && results[j].reply != Some(OK)
      invariant |prepared| + |failed| == i
      invariant failed == {} <==> forall j | 0 <= j < i :: results[j].reply == Some(OK)
    {
      assert results[..i + 1] == results[..i] + [results[i]];
      if results[i].reply == None || results[i].reply != Some(OK) {
        failed := failed + {results[i].group};
        continue;
      }
      prepared := prepared + {results[i].group};
    }
    assert results[..|results|] == results;
    commit := |prepared| >= |participants|;
    if commit {
      assert failed == {};
      forall g | g in participants
        ensures g in prepared
      {
        var i :| 0 <= i < |results| && results[i].group == g;
        assert results[i] in results;
      }
    }
  }
}
