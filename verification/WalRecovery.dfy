/** Recovery from the write-ahead log (pkg/kv/consensus.go:434-459, pkg/wal/logger.go:302-362)
    over a store that may already hold any prefix of it. */
module WalRecovery {
  import opened Options
  import opened Store
  import opened WalEntries

  // ---------------------------------------------------------------- which entries are replayed

  /** The requests recovery executes, the index it ends at, and whether it got to the end. */
  datatype Recovery = Recovery(reqs: seq<Request>, index: int, ok: bool)

  function Recover(log: seq<Entry>, recovered: int): (r: Recovery)
    decreases |log|
  {
    if log == [] then Recovery([], recovered, true)
    else if log[0].index <= recovered then Recover(log[1..], recovered)
    else
      match ToRequest(log[0])
      case Bad => Recovery([], recovered, false)
      case Skip => Recover(log[1..], log[0].index)
      case Do(req) =>
        var rest := Recover(log[1..], log[0].index);
        Recovery([req] + rest.reqs, rest.index, rest.ok)
  }

  /** The entry's index is above the snapshot and above every index before it. */
  ghost predicate Fresh(log: seq<Entry>, i: nat, snapshot: int)
    requires i < |log|
  {
    log[i].index > snapshot && forall j | 0 <= j < i :: log[j].index < log[i].index
  }

  /** Recovery gets to this entry: no fresh one up to it is unreadable. */
  ghost predicate Reached(log: seq<Entry>, i: nat, snapshot: int)
    requires i < |log|
  {
    forall j | 0 <= j <= i && Fresh(log, j, snapshot) :: ToRequest(log[j]) != Bad
  }

  /** The positions whose requests are executed. */
  ghost predicate Executes(log: seq<Entry>, i: nat, snapshot: int) {
    i < |log| && Fresh(log, i, snapshot) && Reached(log, i, snapshot) && ToRequest(log[i]).Do?
  }

  /** Recovery executes the requests at exactly these positions, in order and each once, and
      ends at the highest index; it fails exactly at an unreadable fresh entry. */
  lemma {:induction false} RecoverPicks(log: seq<Entry>, snapshot: int) returns (at: seq<nat>)
    ensures Picked(log, snapshot, Recover(log, snapshot).reqs, at)
    decreases |log|
  {
    hide ToRequest, Executes;
    at := [];
    if log == [] {
      assert Picked(log, snapshot, [], []) by { NothingPicked(log, snapshot); }
    } else if log[0].index > snapshot && ToRequest(log[0]) == Bad {
      assert Picked(log, snapshot, [], []) by { BadStops(log, snapshot); }
    } else {
      var recovered := Raised(log[0].index, snapshot);
      var later := RecoverPicks(log[1..], recovered);
      at := seq(|later|, m requires 0 <= m < |later| => later[m] + 1);
      PickedAfter(log, snapshot, Recover(log[1..], recovered).reqs, later, at);
      ExecutesFirst(log, snapshot);
      if log[0].index > snapshot && ToRequest(log[0]).Do? {
        PickedFirst(log, snapshot, Recover(log[1..], recovered).reqs, at);
        at := [0] + at;
      } else {
        PickedAlone(log, snapshot, Recover(log, snapshot).reqs, at);
      }
    }
  }

  /** These positions, in order, hold these requests, and are all that recovery executes. */
  ghost predicate Picked(log: seq<Entry>, snapshot: int, reqs: seq<Request>, at: seq<nat>) {
    && |at| == |reqs| && (forall m, n | 0 <= m < n < |at| :: at[m] < at[n])
    && (forall m | 0 <= m < |at| ::
          at[m] < |log| && ToRequest(log[at[m]]) == Do(reqs[m]) && Executes(log, at[m], snapshot))
    && (forall i: nat | Executes(log, i, snapshot) :: At(at, i))
  }

  ghost predicate At(at: seq<nat>, i: nat) {
    exists m :: 0 <= m < |at| && at[m] == i
  }

  lemma NothingPicked(log: seq<Entry>, snapshot: int)
    requires log == []
    ensures Picked(log, snapshot, [], [])
  {}

  lemma BadStops(log: seq<Entry>, snapshot: int)
    requires log != [] && log[0].index > snapshot && ToRequest(log[0]) == Bad
    ensures Picked(log, snapshot, [], [])
  {
    hide ToRequest;
    assert Fresh(log, 0, snapshot);
  }

  /** The same of the positions above 0. */
  ghost predicate PickedAbove(log: seq<Entry>, snapshot: int, reqs: seq<Request>, at: seq<nat>) {
    && |at| == |reqs| && (forall m, n | 0 <= m < n < |at| :: at[m] < at[n])
    && (forall m | 0 <= m < |at| ::
          0 < at[m] < |log| && ToRequest(log[at[m]]) == Do(reqs[m]) && Executes(log, at[m], snapshot))
    && (forall i: nat | i > 0 && Executes(log, i, snapshot) :: At(at, i))
  }

  lemma PickedAfter(log: seq<Entry>, snapshot: int, reqs: seq<Request>, later: seq<nat>, at: seq<nat>)
    requires log != [] && Picked(log[1..], Raised(log[0].index, snapshot), reqs, later)
    requires log[0].index > snapshot ==> ToRequest(log[0]) != Bad
    requires |at| == |later| && forall m | 0 <= m < |at| :: at[m] == later[m] + 1
    ensures PickedAbove(log, snapshot, reqs, at)
  {
    hide ToRequest, Executes, At;
    var rest, recovered := log[1..], Raised(log[0].index, snapshot);
    forall m | 0 <= m < |at|
      ensures 0 < at[m] < |log| && ToRequest(log[at[m]]) == Do(reqs[m]) && Executes(log, at[m], snapshot)
    {
      assert Executes(rest, later[m], recovered) && log[at[m]] == rest[later[m]];
      ReachedShifts(log, later[m], snapshot);
    }
    forall i: nat | i > 0 && Executes(log, i, snapshot)
      ensures At(at, i)
    {
      ReachedShifts(log, i - 1, snapshot);
      assert At(later, i - 1);
      var m := Position(later, i - 1);
      Found(at, m, i);
    }
  }

  lemma PickedFirst(log: seq<Entry>, snapshot: int, reqs: seq<Request>, at: seq<nat>)
    requires PickedAbove(log, snapshot, reqs, at) && log != [] && Executes(log, 0, snapshot) && ToRequest(log[0]).Do?
    ensures Picked(log, snapshot, [ToRequest(log[0]).req] + reqs, [0] + at)
  {
    hide ToRequest, Executes, At;
    var all := [0] + at;
    forall i: nat | Executes(log, i, snapshot)
      ensures At(all, i)
    {
      if i == 0 {
        Found(all, 0, 0);
      } else {
        var m := Position(at, i);
        Found(all, m + 1, i);
      }
    }
  }

  lemma PickedAlone(log: seq<Entry>, snapshot: int, reqs: seq<Request>, at: seq<nat>)
    requires PickedAbove(log, snapshot, reqs, at) && !Executes(log, 0, snapshot)
    ensures Picked(log, snapshot, reqs, at)
  {
    hide ToRequest, Executes, At;
  }

  lemma Found(at: seq<nat>, m: nat, i: nat)
    requires m < |at| && at[m] == i
    ensures At(at, i)
  {}

  lemma Position(at: seq<nat>, i: nat) returns (m: nat)
    requires At(at, i)
    ensures m < |at| && at[m] == i
  {
    m :| 0 <= m < |at| && at[m] == i;
  }

  /** It fails exactly at an unreadable fresh entry, and otherwise ends at the highest index. */
  lemma {:induction false} RecoverEnds(log: seq<Entry>, snapshot: int)
    ensures var r := Recover(log, snapshot);
      && (r.ok <==> forall i | 0 <= i < |log| && Fresh(log, i, snapshot) :: ToRequest(log[i]) != Bad)
      && (r.ok ==>
            && snapshot <= r.index && (forall i | 0 <= i < |log| :: log[i].index <= r.index)
            && (r.index == snapshot || exists i :: 0 <= i < |log| && log[i].index == r.index))
    decreases |log|
  {
    hide ToRequest, Fresh;
    if log != [] {
      var rest, recovered := log[1..], Raised(log[0].index, snapshot);
      assert Fresh(log, 0, snapshot) <==> log[0].index > snapshot by { FreshFirst(log, snapshot); }
      forall i | 0 <= i < |rest|
        ensures rest[i] == log[i + 1] && (Fresh(rest, i, recovered) <==> Fresh(log, i + 1, snapshot))
      {
        FreshShifts(log, i, snapshot);
      }
      RecoverEnds(rest, recovered);
      assert forall i | 1 <= i < |log| :: log[i] == rest[i - 1];
      assert (forall i | 0 <= i < |rest| && Fresh(rest, i, recovered) :: ToRequest(rest[i]) != Bad) <==>
        (forall i | 1 <= i < |log| && Fresh(log, i, snapshot) :: ToRequest(log[i]) != Bad);
    }
  }

  function Raised(index: int, recovered: int): (r: int) {
    if index <= recovered then recovered else index
  }

  lemma FreshFirst(log: seq<Entry>, snapshot: int)
    requires log != []
    ensures Fresh(log, 0, snapshot) <==> log[0].index > snapshot
  {}

  lemma ExecutesFirst(log: seq<Entry>, snapshot: int)
    requires log != []
    ensures Executes(log, 0, snapshot) <==> log[0].index > snapshot && ToRequest(log[0]).Do?
  {
    hide ToRequest;
  }

  lemma FreshShifts(log: seq<Entry>, i: nat, snapshot: int)
    requires i + 1 < |log|
    ensures var recovered := Raised(log[0].index, snapshot);
      Fresh(log[1..], i, recovered) <==> Fresh(log, i + 1, snapshot)
  {
    var rest := log[1..];
    assert forall j | 0 <= j < |rest| :: rest[j] == log[j + 1];
    if Fresh(log, i + 1, snapshot) {
      assert forall j | 0 <= j < i :: rest[j] == log[j + 1];
    }
    if Fresh(rest, i, Raised(log[0].index, snapshot)) {
      forall j | 0 <= j < i + 1
        ensures log[j].index < log[i + 1].index
      {
        if j > 0 { assert rest[j - 1] == log[j]; }
      }
    }
  }

  lemma ReachedShifts(log: seq<Entry>, i: nat, snapshot: int)
    requires log != [] && (log[0].index > snapshot ==> ToRequest(log[0]) != Bad)
    ensures var recovered := Raised(log[0].index, snapshot);
      Executes(log[1..], i, recovered) <==> Executes(log, i + 1, snapshot)
  {
    hide ToRequest;
    var rest := log[1..];
    if i >= |rest| {
      return;
    }
    var recovered := Raised(log[0].index, snapshot);
    forall j | 0 <= j < |rest|
      ensures Fresh(rest, j, recovered) <==> Fresh(log, j + 1, snapshot)
      ensures rest[j] == log[j + 1]
    {
      FreshShifts(log, j, snapshot);
    }
    hide Fresh;
    if Reached(rest, i, recovered) {
      forall j | 0 <= j <= i + 1 && Fresh(log, j, snapshot)
        ensures ToRequest(log[j]) != Bad
      {
        if j == 0 {
          assert log[0].index > snapshot by { FreshAbove(log, 0, snapshot); }
        } else {
          assert rest[j - 1] == log[j];
        }
      }
    }
    if Reached(log, i + 1, snapshot) {
      forall j | 0 <= j <= i && Fresh(rest, j, recovered)
        ensures ToRequest(rest[j]) != Bad
      {
        assert Fresh(log, j + 1, snapshot);
      }
    }
  }

  lemma FreshAbove(log: seq<Entry>, i: nat, snapshot: int)
    requires i < |log| && Fresh(log, i, snapshot)
    ensures log[i].index > snapshot
  {}

  // ---------------------------------------------------------------- a log of requests

  /** The log of these requests under rising indexes, each logged in full. */
  ghost predicate Logged(log: seq<Entry>, idx: seq<int>, reqs: seq<Request>) {
    && |log| == |idx| == |reqs|
    && (forall i | 0 <= i < |log| ::
          log[i] == FromRequest(idx[i], reqs[i]) && (ReadOnly(reqs[i]) || FullyLogged(reqs[i])))
    && (forall i, j | 0 <= i < j < |idx| :: idx[i] < idx[j])
  }

  /** The requests that change something, above an index. */
  function Changes(idx: seq<int>, reqs: seq<Request>, above: int): (r: seq<Request>)
    requires |idx| == |reqs|
    ensures |r| <= |reqs|
  {
    if reqs == [] then []
    else
      var n := |reqs| - 1;
      Changes(idx[..n], reqs[..n], above) + if idx[n] > above && !ReadOnly(reqs[n]) then [reqs[n]] else []
  }

  function LastIndexOf(idx: seq<int>, snapshot: int): (i: int) {
    if idx == [] || idx[|idx| - 1] <= snapshot then snapshot else idx[|idx| - 1]
  }

  /** Recovery of a log that grows by one entry. */
  lemma {:induction false} RecoverSnoc(log: seq<Entry>, e: Entry, snapshot: int)
    requires Recover(log, snapshot).ok
    ensures var r := Recover(log, snapshot);
      Recover(log + [e], snapshot) ==
        if e.index <= r.index then r
        else match ToRequest(e)
          case Bad => Recovery(r.reqs, r.index, false)
          case Skip => Recovery(r.reqs, e.index, true)
          case Do(req) => Recovery(r.reqs + [req], e.index, true)
    decreases |log|
  {
    hide ToRequest;
    if log == [] {
      assert (log + [e])[1..] == [];
    } else {
      assert (log + [e])[1..] == log[1..] + [e];
      RecoverSnoc(log[1..], e, if log[0].index <= snapshot then snapshot else log[0].index);
    }
  }

  /** From the log of requests, recovery executes exactly those that change something and lie
      above the snapshot, in order, and ends at the last index. */
  lemma {:induction false} LoggedIsRecovered(log: seq<Entry>, idx: seq<int>, reqs: seq<Request>, snapshot: int)
    requires Logged(log, idx, reqs)
    ensures Recover(log, snapshot) == Recovery(Changes(idx, reqs, snapshot), LastIndexOf(idx, snapshot), true)
    decreases |log|
  {
    hide ToRequest, FromRequest;
    if log != [] {
      var n := |log| - 1;
      LoggedIsRecovered(log[..n], idx[..n], reqs[..n], snapshot);
      assert log == log[..n] + [log[n]];
      RecoverSnoc(log[..n], log[n], snapshot);
      RoundTripExact(idx[n], reqs[n]);
      assert n > 0 ==> idx[..n][n - 1] < idx[n];
    }
  }

  /** Splitting the requests at the snapshot. */
  lemma {:induction false} ChangesSplit(idx: seq<int>, reqs: seq<Request>, m: nat, low: int, snapshot: int)
    requires |idx| == |reqs| && m <= |reqs| && low <= snapshot
    requires (forall i | 0 <= i < m :: idx[i] <= snapshot) && (forall i | m <= i < |idx| :: idx[i] > snapshot)
    requires forall i | 0 <= i < |idx| :: idx[i] > low
    ensures Changes(idx, reqs, low) == Changes(idx[..m], reqs[..m], low) + Changes(idx, reqs, snapshot)
    decreases |reqs|
  {
    if reqs != [] {
      var n := |reqs| - 1;
      if m == |reqs| {
        assert idx[..m] == idx && reqs[..m] == reqs;
        NoChanges(idx, reqs, snapshot);
      } else {
        ChangesSplit(idx[..n], reqs[..n], m, low, snapshot);
        assert idx[..n][..m] == idx[..m] && reqs[..n][..m] == reqs[..m];
      }
    }
  }

  lemma {:induction false} NoChanges(idx: seq<int>, reqs: seq<Request>, snapshot: int)
    requires |idx| == |reqs| && forall i | 0 <= i < |idx| :: idx[i] <= snapshot
    ensures Changes(idx, reqs, snapshot) == []
    decreases |reqs|
  {
    if reqs != [] {
      NoChanges(idx[..|idx| - 1], reqs[..|reqs| - 1], snapshot);
    }
  }

  // ---------------------------------------------------------------- truncation

  function Kept(log: seq<Entry>, upTo: int): (r: seq<Entry>)
    decreases |log|
  {
    if log == [] then []
    else if log[0].index > upTo then [log[0]] + Kept(log[1..], upTo)
    else Kept(log[1..], upTo)
  }

  /** What is kept: exactly the entries above the index, each as often as it was there. */
  lemma {:induction false} KeptExact(log: seq<Entry>, upTo: int, e: Entry)
    ensures multiset(Kept(log, upTo))[e] == if e.index > upTo then multiset(log)[e] else 0
    decreases |log|
  {
    if log != [] {
      KeptExact(log[1..], upTo, e);
      assert log == [log[0]] + log[1..];
    }
  }

  /** And in the order it was there. */
  lemma {:induction false} KeptInOrder(a: seq<Entry>, b: seq<Entry>, upTo: int)
    ensures Kept(a + b, upTo) == Kept(a, upTo) + Kept(b, upTo)
    decreases |a|
  {
    if a == [] {
      assert a + b == b;
    } else {
      assert (a + b)[1..] == a[1..] + b;
      KeptInOrder(a[1..], b, upTo);
    }
  }

  /** rewriteWALAfterTruncate's copying loop. */
  method Truncate(log: seq<Entry>, upTo: int) returns (r: seq<Entry>)
    ensures r == Kept(log, upTo)
  {
    hide ToRequest, Recover;
    r := [];
    assert log[0..] == log;
    for i := 0 to |log|
      invariant r + Kept(log[i..], upTo) == Kept(log, upTo)
    {
      var e := log[i];
      assert log[i..][0] == e && log[i..][1..] == log[i + 1..];
      if e.index > upTo {
        assert r + Kept(log[i..], upTo) == r + [e] + Kept(log[i + 1..], upTo);
        r := r + [e];
      }
    }
  }

  /** Dropping entries up to the snapshot index changes nothing that recovery does: not the
      requests, not the final index, not the error. */
  lemma {:induction false} TruncationHarmless(log: seq<Entry>, upTo: int, recovered: int)
    requires upTo <= recovered
    ensures Recover(Kept(log, upTo), recovered) == Recover(log, recovered)
    decreases |log|
  {
    if log != [] {
      var kept := Kept(log, upTo);
      if log[0].index > upTo {
        assert kept[0] == log[0] && kept[1..] == Kept(log[1..], upTo);
        TruncationHarmless(log[1..], upTo, if log[0].index <= recovered then recovered else log[0].index);
      } else {
        TruncationHarmless(log[1..], upTo, recovered);
      }
    }
  }

  // ---------------------------------------------------------------- executing them

  /** absoluteExpiryFromTTL */
  function ExpiryOf(ttl: int, now: int): (r: int) {
    if ttl <= 0 then 0 else now + ttl * 1_000_000_000
  }

  /** The version a put expects, as the unsigned 64-bit number the store compares. */
  function Unsigned(version: int): (v: nat)
    ensures -0x8000_0000_0000_0000 <= version < 0x8000_0000_0000_0000 ==> v < 0x1_0000_0000_0000_0000
    ensures (v - version) % 0x1_0000_0000_0000_0000 == 0
  {
    if version < 0 then version % 0x1_0000_0000_0000_0000 else version
  }

  /** DoOp on owned shards. What requests other than Put and Delete do is left open. */
  function DoOp(other: (KV, Request) -> KV, kv: KV, req: Request, now: int): (r: KV) {
    match req
    case PutArgs(key, value, version, ttl) => PutCAS(kv, key, value, Unsigned(version), ExpiryOf(ttl, now), now).kv
    case DeleteArgs(key) => DeleteKey(kv, key, now)
    case _ => other(kv, req)
  }

  /** Execute in order, each request at its own clock reading. */
  function RunAll(other: (KV, Request) -> KV, kv: KV, reqs: seq<Request>, clock: seq<int>): (r: KV)
    requires |reqs| <= |clock|
    decreases |reqs|
  {
    if reqs == [] then kv else RunAll(other, DoOp(other, kv, reqs[0], clock[0]), reqs[1..], clock[1..])
  }

  /** A request other than Put and Delete is executed too. */
  lemma OthersRun(other: (KV, Request) -> KV, kv: KV, req: Request, now: int)
    requires !req.PutArgs? && !req.DeleteArgs?
    ensures RunAll(other, kv, [req], [now]) == other(kv, req)
  {
    assert [req][1..] == [];
  }

  lemma {:induction false} RunConcat(other: (KV, Request) -> KV, kv: KV, a: seq<Request>, b: seq<Request>,
                                     first: seq<int>, second: seq<int>)
    requires |a| == |first| && |b| <= |second|
    ensures RunAll(other, kv, a + b, first + second) == RunAll(other, RunAll(other, kv, a, first), b, second)
    decreases |a|
  {
    hide DoOp;
    if a == [] {
      assert a + b == b && first + second == second;
    } else {
      assert (a + b)[1..] == a[1..] + b && (first + second)[1..] == first[1..] + second;
      RunConcat(other, DoOp(other, kv, a[0], first[0]), a[1..], b, first[1..], second);
    }
  }

  /** End to end: over the store that the requests up to the snapshot made, what recovery
      executes gives the store of executing them all. */
  lemma RecoveryCompletes(other: (KV, Request) -> KV, init: KV, log: seq<Entry>, idx: seq<int>, reqs: seq<Request>,
                          m: nat, low: int, snapshot: int, first: seq<int>, second: seq<int>)
    requires Logged(log, idx, reqs) && m <= |reqs| && low <= snapshot && |log| <= |second|
    requires (forall i | 0 <= i < m :: idx[i] <= snapshot) && (forall i | m <= i < |idx| :: idx[i] > snapshot)
    requires forall i | 0 <= i < |idx| :: idx[i] > low
    requires |first| == |Changes(idx[..m], reqs[..m], low)|
    ensures var r := Recover(log, snapshot);
      var start := RunAll(other, init, Changes(idx[..m], reqs[..m], low), first);
      && r.ok && r.index == LastIndexOf(idx, snapshot) && |r.reqs| <= |second|
      && RunAll(other, start, r.reqs, second) == RunAll(other, init, Changes(idx, reqs, low), first + second)
  {
    hide DoOp, Logged, Recover, RunAll;
    LoggedIsRecovered(log, idx, reqs, snapshot);
    LoggedSizes(log, idx, reqs);
    ChangesSplit(idx, reqs, m, low, snapshot);
    RunConcat(other, init, Changes(idx[..m], reqs[..m], low), Changes(idx, reqs, snapshot), first, second);
  }

  lemma LoggedSizes(log: seq<Entry>, idx: seq<int>, reqs: seq<Request>)
    requires Logged(log, idx, reqs)
    ensures |log| == |idx| == |reqs|
  {}

  /** recoverFromWAL: an error keeps the snapshot index, though earlier entries were executed.
      From the log of some requests it executes exactly the changes above the snapshot. */
  method RecoverFromWAL(other: (KV, Request) -> KV, start: KV, log: seq<Entry>, snapshot: int, clock: seq<int>)
    returns (kv: KV, index: int, ok: bool)
    requires |log| <= |clock|
    ensures var r := Recover(log, snapshot);
      && |r.reqs| <= |clock|
      && kv == RunAll(other, start, r.reqs, clock)
      && ok == r.ok && index == if ok then r.index else snapshot
    ensures forall idx, reqs | Logged(log, idx, reqs) ::
      && ok && index == LastIndexOf(idx, snapshot)
      && kv == RunAll(other, start, Changes(idx, reqs, snapshot), clock)
  {
    hide DoOp, Logged, Changes;
    forall idx, reqs | Logged(log, idx, reqs)
      ensures |idx| == |reqs| <= |clock|
      ensures Recover(log, snapshot) == Recovery(Changes(idx, reqs, snapshot), LastIndexOf(idx, snapshot), true)
    {
      LoggedSizes(log, idx, reqs);
      LoggedIsRecovered(log, idx, reqs, snapshot);
    }
    kv := start;
    var recovered := snapshot;
    var ran := 0;
    ghost var all := Recover(log, snapshot);
    RequestCount(log, snapshot);
    assert log[0..] == log;
    assert clock[0..] == clock && all.reqs[0..] == all.reqs;
    for i := 0 to |log|
      invariant snapshot <= recovered && ran <= i && ran <= |all.reqs|
      invariant Recover(log[i..], recovered) == Recovery(all.reqs[ran..], all.index, all.ok)
      invariant RunAll(other, start, all.reqs, clock) == RunAll(other, kv, all.reqs[ran..], clock[ran..])
    {
      assert log[i..][1..] == log[i + 1..];
      if log[i].index <= snapshot {
        continue;
      }
      if log[i].index <= recovered {
        continue;
      }
      var parsed := ToRequest(log[i]);
      if parsed == Bad {
        return kv, snapshot, false;
      }
      if parsed.Do? {
        assert all.reqs[ran..] == [parsed.req] + Recover(log[i + 1..], log[i].index).reqs;
        assert all.reqs[ran..][1..] == all.reqs[ran + 1..] && clock[ran..][1..] == clock[ran + 1..];
        kv := DoOp(other, kv, parsed.req, clock[ran]);
        ran := ran + 1;
      }
      recovered := log[i].index;
    }
    return kv, recovered, true;
  }

  lemma {:induction false} RequestCount(log: seq<Entry>, recovered: int)
    ensures |Recover(log, recovered).reqs| <= |log|
    decreases |log|
  {
    if log != [] {
      RequestCount(log[1..], if log[0].index <= recovered then recovered else log[0].index);
    }
  }

  // ---------------------------------------------------------------- one key at a time

  /** Puts without expiry, deletes, and requests that leave stored cells alone, as recording a
      decision or setting a shard's state does. */
  ghost predicate Plain(other: (KV, Request) -> KV, req: Request) {
    match req
    case PutArgs(_, _, _, ttl) => ttl <= 0
    case DeleteArgs(_) => true
    case _ => forall kv | NoExpiry(kv) :: other(kv, req) == kv
  }

  ghost predicate AllPlain(other: (KV, Request) -> KV, reqs: seq<Request>) {
    forall i | 0 <= i < |reqs| :: Plain(other, reqs[i])
  }

  predicate NoExpiry(kv: KV) {
    forall k | k in kv :: kv[k].expires <= 0
  }

  function Look(kv: KV, k: Key): (c: Option<Cell>) {
    if k in kv then Some(kv[k]) else None
  }

  function Ver(c: Option<Cell>): (v: nat) {
    if c.Some? then c.value.version else 0
  }

  /** What a plain request does to one key's cell; no clock is needed. */
  function StepKey(c: Option<Cell>, req: Request, k: Key): (r: Option<Cell>) {
    match req
    case PutArgs(key, value, version, _) =>
      if key == k && Unsigned(version) == Ver(c) then Some(Cell(value, Ver(c) + 1, 0)) else c
    case DeleteArgs(key) => if key == k then None else c
    case _ => c
  }

  function RunKey(c: Option<Cell>, reqs: seq<Request>, k: Key): (r: Option<Cell>)
    decreases |reqs|
  {
    if reqs == [] then c else RunKey(StepKey(c, reqs[0], k), reqs[1..], k)
  }

  lemma {:induction false} RunByKey(other: (KV, Request) -> KV, kv: KV, reqs: seq<Request>, clock: seq<int>, k: Key)
    requires |reqs| <= |clock| && AllPlain(other, reqs) && NoExpiry(kv)
    ensures Look(RunAll(other, kv, reqs, clock), k) == RunKey(Look(kv, k), reqs, k)
    ensures NoExpiry(RunAll(other, kv, reqs, clock))
    decreases |reqs|
  {
    if reqs != [] {
      assert Plain(other, reqs[0]);
      var next := DoOp(other, kv, reqs[0], clock[0]);
      assert NoExpiry(next) && Look(next, k) == StepKey(Look(kv, k), reqs[0], k);
      assert forall i | 0 <= i < |reqs| - 1 :: reqs[1..][i] == reqs[i + 1];
      RunByKey(other, next, reqs[1..], clock[1..], k);
    }
  }

  predicate Deletes(reqs: seq<Request>, k: Key) {
    DeleteArgs(k) in reqs
  }

  /** Some put of the key expects exactly this version. */
  predicate Hits(reqs: seq<Request>, k: Key, v: nat) {
    exists i :: 0 <= i < |reqs| && reqs[i].PutArgs? && reqs[i].key == k && Unsigned(reqs[i].version) == v
  }

  lemma {:induction false} RunKeyConcat(c: Option<Cell>, a: seq<Request>, b: seq<Request>, k: Key)
    ensures RunKey(c, a + b, k) == RunKey(RunKey(c, a, k), b, k)
    decreases |a|
  {
    if a == [] {
      assert a + b == b;
    } else {
      assert (a + b)[1..] == a[1..] + b;
      RunKeyConcat(StepKey(c, a[0], k), a[1..], b, k);
    }
  }

  /** A delete of the key anywhere makes the outcome independent of where it started. */
  lemma {:induction false} DeleteResets(c: Option<Cell>, d: Option<Cell>, reqs: seq<Request>, k: Key)
    requires Deletes(reqs, k)
    ensures RunKey(c, reqs, k) == RunKey(d, reqs, k)
    decreases |reqs|
  {
    if reqs[0] != DeleteArgs(k) {
      assert Deletes(reqs[1..], k);
      DeleteResets(StepKey(c, reqs[0], k), StepKey(d, reqs[0], k), reqs[1..], k);
    }
  }

  lemma HitsSplit(reqs: seq<Request>, k: Key, v: nat)
    requires reqs != []
    ensures Hits(reqs, k, v) <==>
      (reqs[0].PutArgs? && reqs[0].key == k && Unsigned(reqs[0].version) == v) || Hits(reqs[1..], k, v)
  {
    var rest := reqs[1..];
    if Hits(reqs, k, v) {
      var i :| 0 <= i < |reqs| && reqs[i].PutArgs? && reqs[i].key == k && Unsigned(reqs[i].version) == v;
      assert i > 0 ==> rest[i - 1] == reqs[i];
    }
    if Hits(rest, k, v) {
      var i :| 0 <= i < |rest| && rest[i].PutArgs? && rest[i].key == k && Unsigned(rest[i].version) == v;
      assert reqs[i + 1] == rest[i];
    }
  }

  /** Without deletes, versions never go down, and replaying leaves the cell alone exactly
      when no put expects the version the cell already has. */
  lemma {:induction false} UndeletedExact(c: Option<Cell>, reqs: seq<Request>, k: Key)
    requires !Deletes(reqs, k)
    ensures Ver(RunKey(c, reqs, k)) >= Ver(c)
    ensures RunKey(c, reqs, k) == c <==> !Hits(reqs, k, Ver(c))
    decreases |reqs|
  {
    if reqs != [] {
      HitsSplit(reqs, k, Ver(c));
      assert !Deletes(reqs[1..], k);
      UndeletedExact(StepKey(c, reqs[0], k), reqs[1..], k);
    }
  }

  // ---------------------------------------------------------------- convergence

  /** Every put of the key took effect when first executed. */
  predicate Effective(c: Option<Cell>, reqs: seq<Request>, k: Key)
    decreases |reqs|
  {
    reqs == [] ||
    (&& (reqs[0].PutArgs? && reqs[0].key == k ==> Unsigned(reqs[0].version) == Ver(c))
     && Effective(StepKey(c, reqs[0], k), reqs[1..], k))
  }

  /** Then, without deletes, no put expects the final version or a later one. */
  lemma {:induction false} EffectiveMisses(c: Option<Cell>, reqs: seq<Request>, k: Key, v: nat)
    requires Effective(c, reqs, k) && !Deletes(reqs, k) && v >= Ver(RunKey(c, reqs, k))
    ensures !Hits(reqs, k, v)
    decreases |reqs|
  {
    if reqs != [] {
      HitsSplit(reqs, k, v);
      assert !Deletes(reqs[1..], k);
      UndeletedExact(StepKey(c, reqs[0], k), reqs[1..], k);
      EffectiveMisses(StepKey(c, reqs[0], k), reqs[1..], k, v);
    }
  }

  lemma {:induction false} EffectivePrefix(c: Option<Cell>, reqs: seq<Request>, k: Key, p: nat)
    requires Effective(c, reqs, k) && p <= |reqs|
    ensures Effective(c, reqs[..p], k)
    decreases |reqs|
  {
    if p > 0 {
      assert reqs[..p][1..] == reqs[1..][..p - 1];
      EffectivePrefix(StepKey(c, reqs[0], k), reqs[1..], k, p - 1);
    }
  }

  /** Replaying everything over the state after the first p requests. */
  lemma KeyConverges(c: Option<Cell>, reqs: seq<Request>, k: Key, p: nat)
    requires p <= |reqs|
    requires Deletes(reqs, k) || !Hits(reqs[..p], k, Ver(RunKey(c, reqs[..p], k)))
    ensures RunKey(RunKey(c, reqs[..p], k), reqs, k) == RunKey(c, reqs, k)
  {
    var ahead := RunKey(c, reqs[..p], k);
    if Deletes(reqs, k) {
      DeleteResets(ahead, c, reqs, k);
    } else {
      assert reqs == reqs[..p] + reqs[p..];
      assert !Deletes(reqs[..p], k);
      RunKeyConcat(ahead, reqs[..p], reqs[p..], k);
      RunKeyConcat(c, reqs[..p], reqs[p..], k);
      UndeletedExact(ahead, reqs[..p], k);
    }
  }

  ghost predicate PutsTookEffect(kv: KV, reqs: seq<Request>) {
    forall k :: Effective(Look(kv, k), reqs, k)
  }

  lemma SameLooks(a: KV, b: KV)
    requires forall k :: Look(a, k) == Look(b, k)
    ensures a == b
  {
    forall k
      ensures (k in a <==> k in b) && (k in a ==> a[k] == b[k])
    {
      assert Look(a, k) == Look(b, k);
    }
  }

  /** Replaying the whole log over a store that holds the first p requests ends in the store of
      one run, whatever the clocks read, if every key is deleted somewhere in the log or no put
      of it among those p expects the version it has now. */
  lemma PrefixConverges(other: (KV, Request) -> KV, start: KV, reqs: seq<Request>, p: nat,
                        first: seq<int>, second: seq<int>)
    requires |reqs| <= |first| && |reqs| <= |second| && p <= |reqs| && AllPlain(other, reqs) && NoExpiry(start)
    requires var ahead := RunAll(other, start, reqs[..p], first);
      forall k :: Deletes(reqs, k) || !Hits(reqs[..p], k, Ver(Look(ahead, k)))
    ensures var ahead := RunAll(other, start, reqs[..p], first);
      RunAll(other, ahead, reqs, second) == RunAll(other, start, reqs, first)
  {
    hide DoOp, StepKey;
    var ahead := RunAll(other, start, reqs[..p], first);
    var again, once := RunAll(other, ahead, reqs, second), RunAll(other, start, reqs, first);
    forall k
      ensures Look(again, k) == Look(once, k)
    {
      RunByKey(other, start, reqs[..p], first, k);
      RunByKey(other, ahead, reqs, second, k);
      RunByKey(other, start, reqs, first, k);
      KeyConverges(Look(start, k), reqs, k, p);
    }
    SameLooks(again, once);
  }

  /** Recovery converges: if every logged put took effect when first executed, then replaying
      the whole log over a store that already holds any prefix of it ends in the store that
      executing it once gives, whatever the clocks read. */
  lemma ReplayConverges(other: (KV, Request) -> KV, start: KV, reqs: seq<Request>, p: nat,
                        first: seq<int>, second: seq<int>)
    requires |reqs| <= |first| && |reqs| <= |second| && p <= |reqs|
    requires AllPlain(other, reqs) && NoExpiry(start) && PutsTookEffect(start, reqs)
    ensures var ahead := RunAll(other, start, reqs[..p], first);
      RunAll(other, ahead, reqs, second) == RunAll(other, start, reqs, first)
  {
    hide DoOp, StepKey;
    var ahead := RunAll(other, start, reqs[..p], first);
    forall k
      ensures Deletes(reqs, k) || !Hits(reqs[..p], k, Ver(Look(ahead, k)))
    {
      RunByKey(other, start, reqs[..p], first, k);
      var c := Look(start, k);
      assert Effective(c, reqs, k);
      EffectivePrefix(c, reqs, k, p);
      if !Deletes(reqs, k) {
        assert !Deletes(reqs[..p], k);
        EffectiveMisses(c, reqs[..p], k, Ver(RunKey(c, reqs[..p], k)));
      }
    }
    PrefixConverges(other, start, reqs, p, first, second);
  }

  /** When the store is already up to date, replaying changes nothing if and only if every
      key is deleted somewhere in the log or no put of it expects its current version. */
  lemma FullReplayExact(other: (KV, Request) -> KV, start: KV, reqs: seq<Request>, first: seq<int>, second: seq<int>)
    requires |reqs| <= |first| && |reqs| <= |second| && AllPlain(other, reqs) && NoExpiry(start)
    ensures var done := RunAll(other, start, reqs, first);
      RunAll(other, done, reqs, second) == done <==>
        forall k :: Deletes(reqs, k) || !Hits(reqs, k, Ver(Look(done, k)))
  {
    hide DoOp, StepKey;
    var done := RunAll(other, start, reqs, first);
    var again := RunAll(other, done, reqs, second);
    assert reqs[..|reqs|] == reqs;
    forall k
      ensures Look(again, k) == Look(done, k) <==> Deletes(reqs, k) || !Hits(reqs, k, Ver(Look(done, k)))
    {
      RunByKey(other, start, reqs, first, k);
      RunByKey(other, done, reqs, second, k);
      if Deletes(reqs, k) {
        DeleteResets(Look(done, k), Look(start, k), reqs, k);
      } else {
        UndeletedExact(Look(done, k), reqs, k);
      }
    }
    if forall k :: Deletes(reqs, k) || !Hits(reqs, k, Ver(Look(done, k))) {
      SameLooks(again, done);
    }
  }

  /** A failed put in the log can take effect the second time: recovery then ends elsewhere. */
  lemma FailedPutDiverges(other: (KV, Request) -> KV)
    ensures var reqs := [PutArgs("k", "a", 1, 0), PutArgs("k", "b", 0, 0)];
      var once := RunAll(other, map[], reqs, [0, 0]);
      once == map["k" := Cell("b", 1, 0)] && RunAll(other, once, reqs, [0, 0]) == map["k" := Cell("a", 2, 0)]
  {
    var reqs := [PutArgs("k", "a", 1, 0), PutArgs("k", "b", 0, 0)];
    var last := [PutArgs("k", "b", 0, 0)];
    var clock := [0, 0];
    assert reqs[1..] == last && last[1..] == [] && clock[1..] == [0] && clock[1..][1..] == [];
    assert RunAll(other, map[], reqs, clock) == RunAll(other, map[], last, [0]) == map["k" := Cell("b", 1, 0)];
    var once: KV := map["k" := Cell("b", 1, 0)];
    var mid := DoOp(other, once, reqs[0], 0);
    assert mid == map["k" := Cell("a", 2, 0)];
    assert RunAll(other, once, reqs, clock) == RunAll(other, mid, last, [0]) == mid;
  }

  /** So can a put with a lifetime that has run out in between: its key expires later. */
  lemma ExpiryDiverges(other: (KV, Request) -> KV)
    ensures var reqs := [PutArgs("k", "a", 0, 1)];
      var once := RunAll(other, map[], reqs, [0]);
      && once == map["k" := Cell("a", 1, 1_000_000_000)]
      && RunAll(other, once, reqs, [2_000_000_000]) == map["k" := Cell("a", 1, 3_000_000_000)]
  {
    var reqs := [PutArgs("k", "a", 0, 1)];
    assert reqs[1..] == [];
    var once: KV := map["k" := Cell("a", 1, 1_000_000_000)];
    assert DoOp(other, map[], reqs[0], 0) == once;
    assert DoOp(other, once, reqs[0], 2_000_000_000) == map["k" := Cell("a", 1, 3_000_000_000)];
  }

  /** The whole of recovery: the log of some requests, truncated anywhere up to the snapshot,
      over a store that already holds the first p of the changes above it; the outcome is the
      store and index of executing them once. */
  lemma RecoveryExact(other: (KV, Request) -> KV, start: KV, log: seq<Entry>, idx: seq<int>, reqs: seq<Request>,
                      snapshot: int, upTo: int, p: nat, first: seq<int>, second: seq<int>)
    requires Logged(log, idx, reqs) && upTo <= snapshot && |log| <= |first| && |log| <= |second| && NoExpiry(start)
    requires var changes := Changes(idx, reqs, snapshot);
      p <= |changes| && AllPlain(other, changes) && PutsTookEffect(start, changes)
    ensures var changes := Changes(idx, reqs, snapshot);
      var r := Recover(Kept(log, upTo), snapshot);
      && r.ok && r.index == LastIndexOf(idx, snapshot) && |changes| <= |log| && |r.reqs| <= |log|
      && RunAll(other, RunAll(other, start, changes[..p], first), r.reqs, second)
           == RunAll(other, start, changes, first)
  {
    hide Recover, Kept, RunAll, Logged, PutsTookEffect, AllPlain;
    LoggedSizes(log, idx, reqs);
    TruncationHarmless(log, upTo, snapshot);
    LoggedIsRecovered(log, idx, reqs, snapshot);
    ReplayConverges(other, start, Changes(idx, reqs, snapshot), p, first, second);
  }
}
