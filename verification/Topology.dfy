/** Shard ownership and expansion planning (pkg/sharding/topology.go). */
module Topology {
  import opened Options
  import opened Ordering
  import Bytes

  // ---------------------------------------------------------------- counting

  function Count(owners: seq<int>, g: int): (n: nat)
    decreases |owners|
  {
    if owners == [] then 0 else Count(owners[..|owners| - 1], g) + if owners[|owners| - 1] == g then 1 else 0
  }

  function CountAll(owners: seq<int>, ids: seq<int>): (n: nat)
    decreases |ids|
  {
    if ids == [] then 0 else CountAll(owners, ids[..|ids| - 1]) + Count(owners, ids[|ids| - 1])
  }

  lemma {:induction false} CountAppended(owners: seq<int>, x: int, ids: seq<int>)
    requires forall i, j | 0 <= i < j < |ids| :: ids[i] != ids[j]
    ensures CountAll(owners + [x], ids) == CountAll(owners, ids) + if x in ids then 1 else 0
    decreases |ids|
  {
    if ids != [] {
      var init, last := ids[..|ids| - 1], ids[|ids| - 1];
      assert ids == init + [last];
      assert (owners + [x])[..|owners|] == owners;
      CountAppended(owners, x, init);
      assert last !in init;
    }
  }

  /** Every shard is counted once. */
  lemma {:induction false} CountsAddUp(owners: seq<int>, ids: seq<int>)
    requires forall i, j | 0 <= i < j < |ids| :: ids[i] != ids[j]
    requires forall s | 0 <= s < |owners| :: owners[s] in ids
    ensures CountAll(owners, ids) == |owners|
    decreases |owners|
  {
    if owners == [] {
      NothingCounted(ids);
    } else {
      var init, last := owners[..|owners| - 1], owners[|owners| - 1];
      assert owners == init + [last];
      CountsAddUp(init, ids);
      CountAppended(init, last, ids);
    }
  }

  lemma {:induction false} NothingCounted(ids: seq<int>)
    ensures CountAll([], ids) == 0
    decreases |ids|
  {
    if ids != [] {
      NothingCounted(ids[..|ids| - 1]);
    }
  }

  lemma {:induction false} CountBound(owners: seq<int>, ids: seq<int>, t: nat)
    requires forall i | 0 <= i < |ids| :: Count(owners, ids[i]) <= t
    ensures CountAll(owners, ids) <= |ids| * t
    decreases |ids|
  {
    if ids != [] {
      var init := ids[..|ids| - 1];
      assert forall i | 0 <= i < |init| :: init[i] == ids[i];
      CountBound(owners, init, t);
      assert |ids| * t == |init| * t + t;
    }
  }

  lemma {:induction false} CountUpdated(owners: seq<int>, s: nat, to: int, g: int)
    requires s < |owners|
    ensures Count(owners[s := to], g) ==
      Count(owners, g) - (if owners[s] == g then 1 else 0) + (if to == g then 1 else 0)
    decreases |owners|
  {
    var init := owners[..|owners| - 1];
    if s == |owners| - 1 {
      assert owners[s := to][..s] == init;
    } else {
      assert owners[s := to][..|owners| - 1] == init[s := to];
      CountUpdated(init, s, to, g);
    }
  }

  lemma {:induction false} CountPositive(owners: seq<int>, g: int)
    ensures Count(owners, g) > 0 <==> g in owners
    decreases |owners|
  {
    if owners != [] {
      var init, last := owners[..|owners| - 1], owners[|owners| - 1];
      assert owners == init + [last];
      CountPositive(init, g);
    }
  }

  // ---------------------------------------------------------------- expansion

  /** Reassigning the listed shards. */
  function Moved(owners: seq<int>, moved: seq<int>, gid: int): (r: seq<int>)
    requires forall i | 0 <= i < |moved| :: 0 <= moved[i] < |owners|
    ensures |r| == |owners|
    decreases |moved|
  {
    if moved == [] then owners else Moved(owners[moved[0] := gid], moved[1..], gid)
  }

  /** The planned table differs from the old one at exactly the listed, distinct shards, which
      all go to the new group. */
  ghost predicate Differs(owners: seq<int>, planned: seq<int>, moved: seq<int>, gid: int) {
    && |planned| == |owners|
    && (forall i | 0 <= i < |moved| :: 0 <= moved[i] < |owners| && owners[moved[i]] != gid)
    && (forall i, j | 0 <= i < j < |moved| :: moved[i] != moved[j])
    && (forall s | 0 <= s < |owners| :: planned[s] == if s in moved then gid else owners[s])
  }

  /** Moving the listed shards one by one arrives at the planned table. */
  lemma {:induction false} MovesReach(owners: seq<int>, planned: seq<int>, moved: seq<int>, gid: int)
    requires |planned| == |owners|
    requires forall i | 0 <= i < |moved| :: 0 <= moved[i] < |owners|
    requires forall s | 0 <= s < |owners| :: planned[s] == if s in moved then gid else owners[s]
    ensures Moved(owners, moved, gid) == planned
    decreases |moved|
  {
    if moved != [] {
      assert moved == [moved[0]] + moved[1..];
      MovesReach(owners[moved[0] := gid], planned, moved[1..], gid);
    }
  }

  /** Each donor gives up its highest shards. */
  ghost predicate HighestFirst(owners: seq<int>, moved: seq<int>) {
    forall s, t | 0 <= t < |owners| && 0 <= s < |owners| && s in moved && t !in moved && owners[t] == owners[s] :: t < s
  }

  /** Donors are asked in ascending order. */
  ghost predicate LowestFirst(owners: seq<int>, planned: seq<int>, gid: int, target: nat) {
    forall f, g | f < g && f != gid && g != gid && Count(planned, g) < Count(owners, g) :: Count(planned, f) <= target
  }

  /** What the plan has done so far: counts are right, donors above the target have only come
      down to it, the others have given nothing. */
  ghost predicate Donated(owners: seq<int>, planned: seq<int>, gid: int, target: nat) {
    forall g | g != gid ::
      if Count(owners, g) <= target then Count(planned, g) == Count(owners, g)
      else target <= Count(planned, g) <= Count(owners, g)
  }

  lemma MoveOne(owners: seq<int>, planned: seq<int>, moved: seq<int>, gid: int, target: nat, from: int, s: nat)
    requires Differs(owners, planned, moved, gid) && HighestFirst(owners, moved)
      && Donated(owners, planned, gid, target)
    requires |moved| == Count(planned, gid) && from != gid && Count(planned, from) > target
    requires s < |planned| && planned[s] == from && forall t | s < t < |planned| :: planned[t] != from
    ensures var p, m := planned[s := gid], moved + [s];
      && Differs(owners, p, m, gid) && HighestFirst(owners, m) && Donated(owners, p, gid, target)
      && |m| == Count(p, gid)
      && Count(p, from) == Count(planned, from) - 1
      && (forall g | g != gid && g != from :: Count(p, g) == Count(planned, g))
  {
    hide Count;
    forall g
      ensures Count(planned[s := gid], g) ==
        Count(planned, g) - (if from == g then 1 else 0) + (if gid == g then 1 else 0)
    {
      CountUpdated(planned, s, gid, g);
    }
    assert s !in moved;
  }

  /** If no donor is left above the target, the new group has at least its share. */
  lemma ShareReached(planned: seq<int>, ids: seq<int>, gid: int, target: nat)
    requires forall i, j | 0 <= i < j < |ids| :: ids[i] != ids[j]
    requires forall s | 0 <= s < |planned| :: planned[s] in ids
    requires gid in ids && target * |ids| <= |planned|
    requires forall i | 0 <= i < |ids| && ids[i] != gid :: Count(planned, ids[i]) <= target
    ensures Count(planned, gid) >= target
  {
    CountsAddUp(planned, ids);
    if Count(planned, gid) < target {
      SomeBelow(planned, ids, gid, target);
    }
  }

  lemma {:induction false} SomeBelow(planned: seq<int>, ids: seq<int>, gid: int, t: nat)
    requires gid in ids && Count(planned, gid) < t
    requires forall i | 0 <= i < |ids| :: Count(planned, ids[i]) <= t
    ensures CountAll(planned, ids) < |ids| * t
    decreases |ids|
  {
    var init, last := ids[..|ids| - 1], ids[|ids| - 1];
    assert ids == init + [last];
    assert |ids| * t == |init| * t + t;
    if last == gid {
      CountBound(planned, init, t);
    } else {
      SomeBelow(planned, init, gid, t);
    }
  }

  // ---------------------------------------------------------------- round robin

  function RoundRobin(ids: seq<int>, n: nat): (r: seq<int>)
    requires ids != []
    ensures |r| == n && forall i | 0 <= i < n :: r[i] == ids[i % |ids|]
  {
    seq(n, i requires 0 <= i < n => ids[i % |ids|])
  }

  lemma SameMultiple(a: int, b: int, d: int)
    requires d > 0 && a * d == b * d
    ensures a == b
  {
    assert (a - b) * d == 0;
  }

  lemma Divided(n: int, d: int, q: int, r: int)
    requires 0 <= r < d && n == q * d + r
    ensures n / d == q && n % d == r
  {
    Bytes.DivModUnique(n, d, q, r);
    assert n == (n / d) * d + n % d;
    SameMultiple(n / d, q, d);
  }

  lemma NextRemainder(n: int, d: int)
    requires d > 0
    ensures n % d == d - 1 ==> (n + 1) % d == 0 && (n + 1) / d == n / d + 1
    ensures n % d != d - 1 ==> (n + 1) % d == n % d + 1 && (n + 1) / d == n / d
  {
    var q, r := n / d, n % d;
    assert n == q * d + r;
    if r == d - 1 {
      assert n + 1 == (q + 1) * d + 0;
      Divided(n + 1, d, q + 1, 0);
    } else {
      Divided(n + 1, d, q, r + 1);
    }
  }

  /** Round robin is balanced: each group gets the quotient, the first few one more. */
  lemma {:induction false} RoundRobinBalanced(ids: seq<int>, n: nat, i: nat)
    requires i < |ids| && forall i, j | 0 <= i < j < |ids| :: ids[i] != ids[j]
    ensures Count(RoundRobin(ids, n), ids[i]) == n / |ids| + if i < n % |ids| then 1 else 0
    decreases n
  {
    if n == 0 {
      assert RoundRobin(ids, n) == [];
      Divided(0, |ids|, 0, 0);
    } else {
      RoundRobinBalanced(ids, n - 1, i);
      RoundRobinNext(ids, n - 1, i);
      NextRemainder(n - 1, |ids|);
    }
  }

  lemma RoundRobinNext(ids: seq<int>, n: nat, i: nat)
    requires i < |ids| && forall i, j | 0 <= i < j < |ids| :: ids[i] != ids[j]
    ensures Count(RoundRobin(ids, n + 1), ids[i]) == Count(RoundRobin(ids, n), ids[i]) + if n % |ids| == i then 1 else 0
  {
    var r := RoundRobin(ids, n + 1);
    assert r[..n] == RoundRobin(ids, n);
    var last := n % |ids|;
    assert 0 <= last < |ids| && r[n] == ids[last];
  }

  // ---------------------------------------------------------------- the class

  class ShardTopology {
    const numShards: nat
    var epoch: int
    var shardToGroup: array<int>
    var groups: map<int, seq<string>>

    /** A valid ownership table. */
    ghost predicate Valid()
      reads this, shardToGroup
    {
      && shardToGroup.Length == numShards && numShards > 0
      && forall s | 0 <= s < numShards :: shardToGroup[s] in groups
    }

    /** Round robin over the groups in ascending order; 1024 shards unless told otherwise. */
    constructor (numShards: int, groups: map<int, seq<string>>)
      requires groups.Keys != {}
      ensures Valid() && fresh(shardToGroup) && epoch == 1 && this.groups == groups
      ensures this.numShards == if numShards < 1 then 1024 else numShards
      ensures forall ids | Ascending(ids) && (forall g :: g in ids <==> g in groups) ::
        ids != [] && shardToGroup[..] == RoundRobin(ids, this.numShards)
    {
      var n := if numShards < 1 then 1024 else numShards;
      var ids := Sorted(groups.Keys);
      var table := new int[n];
      for i := 0 to n
        invariant forall j | 0 <= j < i :: table[j] == ids[j % |ids|]
      {
        table[i] := ids[i % |ids|];
      }
      this.numShards, this.groups := n, groups;
      epoch := 1;
      shardToGroup := table;
      new;
      assert shardToGroup[..] == RoundRobin(ids, n);
      forall s | 0 <= s < n
        ensures shardToGroup[s] in groups
      {
        assert ids[s % |ids|] in ids;
      }
      forall other | Ascending(other) && (forall g :: g in other <==> g in groups)
        ensures other == ids
      {
        AscendingUnique(other, ids);
      }
    }

    /** NewShardTopologyWithOwnership: an explicit table, refused unless every owner is known. */
    static method WithOwnership(numShards: int, groups: map<int, seq<string>>, owners: seq<int>, epoch: int)
      returns (st: ShardTopology?)
      ensures st == null <==>
        || numShards < 1 || |groups| == 0 || |owners| != numShards
        || exists s :: 0 <= s < |owners| && owners[s] !in groups
      ensures st != null ==>
        && fresh(st) && st.Valid() && st.groups == groups && st.numShards == numShards && st.shardToGroup[..] == owners
        && st.epoch == if epoch > 0 then epoch else 1
    {
      if numShards < 1 || |groups| == 0 || |owners| != numShards {
        return null;
      }
      st := new ShardTopology(numShards, groups);
      for i := 0 to |owners|
        invariant forall s | 0 <= s < i :: owners[s] in groups
        modifies {}
      {
        if owners[i] !in groups {
          return null;
        }
      }
      var table := new int[|owners|](i requires 0 <= i < |owners| => owners[i]);
      st.shardToGroup := table;
      if epoch > 0 {
        st.epoch := epoch;
      }
    }

    method MoveShard(shard: int, toGroup: int) returns (ok: bool)
      requires Valid()
      modifies this`epoch, shardToGroup
      ensures Valid()
      ensures ok <==> 0 <= shard < numShards && toGroup in groups
      ensures shardToGroup[..] == if ok then old(shardToGroup[..])[shard := toGroup] else old(shardToGroup[..])
      ensures epoch == old(epoch) + if ok then 1 else 0
    {
      if shard < 0 || shard >= numShards {
        return false;
      }
      if toGroup !in groups {
        return false;
      }
      shardToGroup[shard] := toGroup;
      epoch := epoch + 1;
      return true;
    }

    method RegisterGroup(gid: int, replicas: seq<string>) returns (ok: bool)
      requires Valid()
      modifies this`groups
      ensures Valid()
      ensures ok <==> gid > 0 && replicas != []
      ensures groups == if ok && gid !in old(groups) then old(groups)[gid := replicas] else old(groups)
    {
      if gid <= 0 || |replicas| == 0 {
        return false;
      }
      if gid in groups {
        return true;
      }
      groups := groups[gid := replicas];
      return true;
    }

    /** The share of each group once one more has joined. */
    function Target(): (t: nat)
      reads this
      ensures numShards >= 0 ==> t * (|groups| + 1) <= numShards < (t + 1) * (|groups| + 1)
    {
      numShards / (|groups| + 1)
    }

    /** Find the donor's highest shard. */
    static method LastOwned(owners: array<int>, from: int) returns (s: nat)
      requires from in owners[..]
      ensures s < owners.Length && owners[s] == from && forall t | s < t < owners.Length :: owners[t] != from
    {
      s := owners.Length;
      while s > 0
        invariant s <= owners.Length && forall t | s <= t < owners.Length :: owners[t] != from
      {
        s := s - 1;
        if owners[s] == from {
          return;
        }
      }
      assert false;
    }

    /** counts[owner]++ over the table. */
    static method Tally(owners: array<int>) returns (counts: map<int, int>)
      ensures forall g :: At(counts, g) == Count(owners[..], g)
    {
      counts := map[];
      for i := 0 to owners.Length
        invariant forall g :: At(counts, g) == Count(owners[..i], g)
      {
        assert owners[..i + 1][..i] == owners[..i];
        counts := counts[owners[i] := At(counts, owners[i]) + 1];
      }
      assert owners[..owners.Length] == owners[..];
    }

    /** One donor gives its highest shards until it or the new group reaches the target. */
    static method TakeFrom(owners: array<int>, start: map<int, int>, gid: int, from: int, target: nat, list: seq<int>,
                           ghost first: seq<int>)
      returns (counts: map<int, int>, moved: seq<int>)
      requires Planning(first, owners[..], list, gid, target) && from != gid
      requires forall g :: At(start, g) == Count(owners[..], g)
      modifies owners
      ensures Planning(first, owners[..], moved, gid, target)
      ensures forall g :: At(counts, g) == Count(owners[..], g)
      ensures Count(owners[..], from) <= target || Count(owners[..], gid) == target
      ensures forall g | g != from && g != gid :: Count(owners[..], g) == old(Count(owners[..], g))
      ensures old(Count(owners[..], gid)) == target ==> owners[..] == old(owners[..])
    {
      hide Count, Differs, HighestFirst, Donated;
      counts, moved := start, list;
      while At(counts, from) > target && At(counts, gid) < target
        invariant Planning(first, owners[..], moved, gid, target)
        invariant forall g :: At(counts, g) == Count(owners[..], g)
        invariant forall g | g != from && g != gid :: Count(owners[..], g) == old(Count(owners[..], g))
        invariant old(Count(owners[..], gid)) == target ==> owners[..] == old(owners[..])
        decreases target - At(counts, gid)
      {
        CountPositive(owners[..], from);
        var shard := LastOwned(owners, from);
        ghost var before := owners[..];
        assert forall t | shard < t < |before| :: before[t] != from;
        MoveOne(first, before, moved, gid, target, from, shard);
        CountUpdated(before, shard, gid, gid);
        owners[shard] := gid;
        assert owners[..] == before[shard := gid];
        counts := counts[from := At(counts, from) - 1];
        counts := counts[gid := At(counts, gid) + 1];
        moved := moved + [shard];
      }
    }

    /** The donors in order. */
    static method AskDonors(owners: array<int>, start: map<int, int>, ids: seq<int>, gid: int, target: nat)
      returns (moved: seq<int>)
      requires Ascending(ids) && Count(owners[..], gid) == 0
      requires forall g :: At(start, g) == Count(owners[..], g)
      modifies owners
      ensures Planning(old(owners[..]), owners[..], moved, gid, target)
      ensures Asked(old(owners[..]), owners[..], ids, |ids|, gid, target)
    {
      hide Count, Planning, Asked;
      var counts := start;
      moved := [];
      ghost var first := owners[..];
      assert Planning(first, first, [], gid, target) by { NothingPlanned(first, gid, target); }
      assert Asked(first, first, ids, 0, gid, target) by { NobodyAsked(first, ids, gid, target); }
      for i := 0 to |ids|
        invariant Planning(first, owners[..], moved, gid, target)
        invariant Asked(first, owners[..], ids, i, gid, target)
        invariant forall g :: At(counts, g) == Count(owners[..], g)
      {
        var from := ids[i];
        ghost var before := owners[..];
        if from == gid {
          SkipSelf(first, before, ids, i, gid, target);
          continue;
        }
        counts, moved := TakeFrom(owners, counts, gid, from, target, moved, first);
        AskNext(first, before, owners[..], ids, i, gid, target);
      }
    }

    /** PlanAddGroup: no plan for a known group or one without replicas; otherwise the new
        group gets exactly its share, no donor falls below it, and the tables differ at
        exactly the listed shards. Donors are asked in ascending order and give their highest
        shards first. */
    method PlanAddGroup(gid: int, replicas: seq<string>) returns (plan: Option<(seq<int>, seq<int>)>)
      requires Valid()
      ensures plan == None <==> gid in groups || replicas == []
      ensures plan.Some? ==>
        var planned, moved := plan.value.0, plan.value.1;
        && Differs(shardToGroup[..], planned, moved, gid)
        && |moved| == Count(planned, gid) == Target()
        && Donated(shardToGroup[..], planned, gid, Target())
        && HighestFirst(shardToGroup[..], moved) && LowestFirst(shardToGroup[..], planned, gid, Target())
    {
      if gid in groups || |replicas| == 0 {
        return None;
      }
      hide Count, Differs, HighestFirst, Donated, LowestFirst, Asked;
      var owners := new int[numShards];
      for i := 0 to numShards
        invariant owners[..i] == shardToGroup[..i]
        modifies owners
      {
        owners[i] := shardToGroup[i];
      }
      ghost var first := shardToGroup[..];
      assert owners[..] == first;
      assert Count(first, gid) == 0 by { CountPositive(first, gid); }
      var counts := Tally(owners);
      counts := counts[gid := 0];
      var ids := Sorted(groups.Keys + {gid});
      var moved := AskDonors(owners, counts, ids, gid, Target());
      assert forall s | 0 <= s < |first| :: first[s] in ids;
      assert Target() * |ids| <= |first| by { Share(numShards, |groups| + 1); }
      PlanComplete(first, owners[..], moved, ids, gid, Target());
      return Some((owners[..], moved));
    }
  }

  function At(counts: map<int, int>, g: int): (n: int) {
    if g in counts then counts[g] else 0
  }

  lemma Share(n: nat, d: nat)
    requires d > 0
    ensures (n / d) * d <= n
  {}

  ghost predicate Planning(owners: seq<int>, planned: seq<int>, moved: seq<int>, gid: int, target: nat) {
    && Differs(owners, planned, moved, gid) && HighestFirst(owners, moved) && Donated(owners, planned, gid, target)
    && |moved| == Count(planned, gid) <= target
  }

  lemma NothingPlanned(owners: seq<int>, gid: int, target: nat)
    requires Count(owners, gid) == 0
    ensures Planning(owners, owners, [], gid, target)
  {}

  /** The first i groups have been asked: each is down to the target unless the new group is
      full, whoever gave anything had only exhausted donors before it, and the rest have not
      given. */
  ghost predicate Asked(owners: seq<int>, planned: seq<int>, ids: seq<int>, i: nat, gid: int, target: nat)
    requires i <= |ids|
  {
    && (forall j | 0 <= j < i && ids[j] != gid :: Count(planned, ids[j]) <= target || Count(planned, gid) == target)
    && (forall j, k | 0 <= j < k < i && ids[j] != gid && ids[k] != gid
          && Count(planned, ids[k]) < Count(owners, ids[k]) ::
          Count(planned, ids[j]) <= target)
    && (forall j | i <= j < |ids| && ids[j] != gid :: Count(planned, ids[j]) == Count(owners, ids[j]))
  }

  lemma NobodyAsked(owners: seq<int>, ids: seq<int>, gid: int, target: nat)
    ensures Asked(owners, owners, ids, 0, gid, target)
  {}

  lemma SkipSelf(owners: seq<int>, planned: seq<int>, ids: seq<int>, i: nat, gid: int, target: nat)
    requires i < |ids| && ids[i] == gid && Asked(owners, planned, ids, i, gid, target)
    ensures Asked(owners, planned, ids, i + 1, gid, target)
  {
    hide Count;
  }

  lemma AskNext(owners: seq<int>, before: seq<int>, planned: seq<int>, ids: seq<int>, i: nat, gid: int, target: nat)
    requires Ascending(ids) && i < |ids| && ids[i] != gid && Asked(owners, before, ids, i, gid, target)
    requires Count(planned, ids[i]) <= target || Count(planned, gid) == target
    requires forall g | g != ids[i] && g != gid :: Count(planned, g) == Count(before, g)
    requires Count(before, gid) == target ==> planned == before
    ensures Asked(owners, planned, ids, i + 1, gid, target)
  {
    hide Count;
    assert forall j | 0 <= j < |ids| && j != i :: ids[j] != ids[i];
  }

  /** All donors asked: the new group has exactly its share. */
  lemma PlanComplete(owners: seq<int>, planned: seq<int>, moved: seq<int>, ids: seq<int>, gid: int, target: nat)
    requires Planning(owners, planned, moved, gid, target) && Ascending(ids) && gid in ids
    requires Asked(owners, planned, ids, |ids|, gid, target)
    requires (forall s | 0 <= s < |owners| :: owners[s] in ids) && target * |ids| <= |owners|
    ensures Count(planned, gid) == target && LowestFirst(owners, planned, gid, target)
  {
    hide Count, HighestFirst, Donated;
    assert forall s | 0 <= s < |planned| :: planned[s] in ids;
    if Count(planned, gid) != target {
      ShareReached(planned, ids, gid, target);
    }
    forall f, g | f < g && f != gid && g != gid && Count(planned, g) < Count(owners, g)
      ensures Count(planned, f) <= target
    {
      CountPositive(owners, g);
      CountPositive(planned, f);
      if f in ids {
        var j :| 0 <= j < |ids| && ids[j] == f;
        var k :| 0 <= k < |ids| && ids[k] == g;
        assert j < k;
      }
    }
  }
}
