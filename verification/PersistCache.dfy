/** The cached, incrementally patched encoding of the Raft state (pkg/raft/raft.go).
    Log edits only lower a dirty index; the next encode truncates the cached buffer
    to that index, appends the missing entries and overwrites the header. */
module PersistCache {
  import opened Bytes
  import opened PersistFormat
  import opened DeltaFrames
  import opened Options

  /** What enqueuePersistLocked hands to the persister. */
  datatype Request =
    | AppendState(payload: seq<byte>)
    | SaveState(state: seq<byte>, snapshot: Option<seq<byte>>)

  function Min(a: int, b: int): (m: int) {
    if a <= b then a else b
  }

  /** Overwriting a slice of the buffer in place. */
  function Patch(buf: seq<byte>, off: nat, bytes: seq<byte>): (r: seq<byte>)
    requires off + |bytes| <= |buf|
    ensures |r| == |buf|
  {
    buf[..off] + bytes + buf[off + |bytes|..]
  }

  class Cache {
    var currentTerm: int
    var votedFor: int
    var lastIncludedIndex: int
    var lastIncludedTerm: int
    var log: seq<LogEntry>

    var persistState: seq<byte>
    var persistEntryEnd: seq<nat>
    var persistLogCount: nat
    var persistDirtyFrom: nat
    var persistReady: bool
    var persistQueuedLen: nat
    var persistQueuedLogCount: nat

    ghost var cached: seq<LogEntry> // the entries that persistState encodes
    ghost var queued: seq<byte>     // the state last handed to the persister

    ghost predicate Agree()
      reads this
    {
      var m := Min(persistDirtyFrom, Min(|cached|, |log|));
      cached[..m] == log[..m]
    }

    ghost predicate CacheOk()
      reads this
    {
      && |persistState| >= HEADER_SIZE
      && persistState[HEADER_SIZE..] == EncodeLog(cached)
      && persistEntryEnd == Ends(cached)
      && persistLogCount == |cached|
      && Agree()
    }

    /** Once something was enqueued, the cache still holds the entries of that state. */
    ghost predicate QueueOk()
      reads this
    {
      persistQueuedLen > 0 ==>
        && |queued| == persistQueuedLen >= HEADER_SIZE
        && persistQueuedLogCount == |cached|
        && queued[HEADER_SIZE..] == EncodeLog(cached)
    }

    ghost predicate Valid()
      reads this
    {
      && (persistReady ==> CacheOk() && QueueOk())
      && (!persistReady ==> persistDirtyFrom == persistQueuedLen == persistQueuedLogCount == 0)
    }

    ghost function Current(): (p: Persisted)
      reads this
    {
      Persisted(currentTerm, votedFor, lastIncludedIndex, lastIncludedTerm, log)
    }

    /** A fresh node: one dummy entry, nothing cached. */
    constructor ()
      ensures Valid() && !persistReady
      ensures Current() == Persisted(0, -1, 0, 0, [LogEntry(0, [])])
    {
      currentTerm, votedFor, lastIncludedIndex, lastIncludedTerm := 0, -1, 0, 0;
      log := [LogEntry(0, [])];
      persistState, persistEntryEnd, persistLogCount, persistDirtyFrom, persistReady := [], [], 0, 0, false;
      persistQueuedLen, persistQueuedLogCount := 0, 0;
      cached, queued := [], [];
    }

    // ------------------------------------------------------------ log edits

    /** markPersistDirtyFromLocked: the dirty index only moves down, to at most
        pos clamped into the log. */
    method MarkDirtyFrom(pos: int)
      modifies this`persistDirtyFrom
      ensures persistDirtyFrom ==
        if persistReady then Min(old(persistDirtyFrom), if pos < 0 then 0 else Min(pos, |log|))
        else old(persistDirtyFrom)
    {
      if !persistReady {
        return;
      }
      var p := pos;
      if p < 0 {
        p := 0;
      }
      if p > |log| {
        p := |log|;
      }
      if persistDirtyFrom > p {
        persistDirtyFrom := p;
      }
    }

    /** The conflict cut of AppendEntries: drop the entries from position cut on. */
    method CutLog(cut: nat)
      requires Valid() && cut < |log|
      modifies this`persistDirtyFrom, this`log
      ensures Valid() && log == old(log)[..cut]
      ensures persistReady ==> persistDirtyFrom <= cut
    {
      ghost var m := Min(persistDirtyFrom, Min(|cached|, |log|));
      MarkDirtyFrom(cut);
      ghost var m' := Min(persistDirtyFrom, Min(|cached|, cut));
      assert persistReady ==> cached[..m'] == cached[..m][..m'] && log[..cut][..m'] == log[..m][..m'];
      log := log[..cut];
    }

    /** Start appends one entry, AppendEntries the missing tail. */
    method ExtendLog(entries: seq<LogEntry>)
      requires Valid()
      modifies this`persistDirtyFrom, this`log
      ensures Valid() && log == old(log) + entries
      ensures persistDirtyFrom == if persistReady then Min(old(persistDirtyFrom), |old(log)|) else old(persistDirtyFrom)
    {
      ghost var m := Min(persistDirtyFrom, Min(|cached|, |log|));
      MarkDirtyFrom(|log|);
      ghost var m' := Min(persistDirtyFrom, Min(|cached|, |log| + |entries|));
      assert persistReady ==> cached[..m'] == cached[..m][..m'] && (log + entries)[..m'] == log[..m][..m'];
      log := log + entries;
    }

    /** Snapshot and InstallSnapshot replace the log, then mark everything dirty. */
    method ReplaceLog(newLog: seq<LogEntry>, index: int, term: int)
      requires Valid()
      modifies this`persistDirtyFrom, this`log, this`lastIncludedIndex, this`lastIncludedTerm
      ensures Valid() && log == newLog && lastIncludedIndex == index && lastIncludedTerm == term
      ensures persistDirtyFrom == 0
    {
      log := newLog;
      MarkDirtyFrom(0);
      lastIncludedIndex, lastIncludedTerm := index, term;
    }

    method SetTermAndVote(term: int, vote: int)
      requires Valid()
      modifies this`currentTerm, this`votedFor
      ensures Valid() && currentTerm == term && votedFor == vote
    {
      currentTerm, votedFor := term, vote;
    }

    // ------------------------------------------------------------ encoding

    /** initPersistCacheLocked */
    method InitCache()
      modifies this`persistState, this`persistEntryEnd, this`persistLogCount, this`persistDirtyFrom, this`persistReady,
        this`cached
      ensures CacheOk() && persistReady && cached == [] && persistDirtyFrom == 0
    {
      persistState := U32(MAGIC) + seq(HEADER_SIZE - 4, _ => 0);
      persistEntryEnd := [];
      persistLogCount := 0;
      persistDirtyFrom := 0;
      persistReady := true;
      cached := [];
    }

    /** truncatePersistToLocked */
    method TruncateTo(keep: nat) returns (ok: bool)
      requires persistReady && CacheOk()
      modifies this`persistState, this`persistEntryEnd, this`persistLogCount, this`cached
      ensures CacheOk()
      ensures ok == (keep == 0 || keep <= |old(cached)|)
      ensures cached == if ok then old(cached)[..keep] else old(cached)
    {
      hide EncodeEntry, EncodeLog, Ends;
      if keep == 0 {
        EmptyLog();
        persistState := persistState[..HEADER_SIZE];
        persistEntryEnd := [];
        persistLogCount := 0;
        cached := [];
        return true;
      }
      if keep > |persistEntryEnd| {
        return false;
      }
      var end := persistEntryEnd[keep - 1];
      TruncatedEncoding(persistState, cached, keep);
      // The source's second failure branch (an end outside the buffer) cannot be taken.
      assert HEADER_SIZE <= end <= |persistState|;
      ghost var m := Min(persistDirtyFrom, Min(|cached|, |log|));
      ghost var m' := Min(persistDirtyFrom, Min(keep, |log|));
      assert cached[..keep][..m'] == cached[..m][..m'] && log[..m'] == log[..m][..m'];
      persistState := persistState[..end];
      persistEntryEnd := persistEntryEnd[..keep];
      persistLogCount := keep;
      cached := cached[..keep];
      return true;
    }

    /** appendPersistEntryLocked */
    method AppendEntry(entry: LogEntry)
      requires persistReady && CacheOk()
      requires |cached| < |log| && entry == log[|cached|] && cached == log[..|cached|]
      modifies this`persistState, this`persistEntryEnd, this`persistLogCount, this`cached
      ensures CacheOk() && cached == log[..|old(cached)| + 1]
    {
      ghost var longer := cached + [entry];
      assert longer[..|longer| - 1] == cached && longer == log[..|cached| + 1];
      AppendedEncoding(persistState, longer);
      persistState := persistState + I64(entry.term);
      persistState := persistState + I64(|entry.command|);
      persistState := persistState + entry.command;
      persistEntryEnd := persistEntryEnd + [|persistState|];
      persistLogCount := persistLogCount + 1;
      cached := longer;
    }

    /** putPersistHeaderFields: six fields overwritten in place. */
    method PutHeaderFields()
      requires |persistState| >= HEADER_SIZE
      modifies this`persistState
      ensures persistState == Header(Current()) + old(persistState)[HEADER_SIZE..]
    {
      hide U32, I64;
      ghost var body := persistState[HEADER_SIZE..];
      ghost var p := Current();
      PatchedHeader(persistState, p);
      persistState := Patch(persistState, 0, U32(MAGIC));
      persistState := Patch(persistState, 4, I64(currentTerm));
      persistState := Patch(persistState, 12, I64(votedFor));
      persistState := Patch(persistState, 20, I64(lastIncludedIndex));
      persistState := Patch(persistState, 28, I64(lastIncludedTerm));
      persistState := Patch(persistState, 36, I64(|log|));
    }

    /** The first half of encodePersistentStateIncrementalLocked: drop what is no longer
        in the log or may differ from it. */
    method DropStale()
      requires Valid()
      modifies this`persistState, this`persistEntryEnd, this`persistLogCount, this`persistDirtyFrom, this`persistReady,
        this`cached
      ensures persistReady && CacheOk()
      ensures |cached| <= |log| && cached == log[..|cached|]
    {
      hide EncodeLog, Ends;
      if !persistReady {
        InitCache();
      }
      if persistDirtyFrom > |log| {
        persistDirtyFrom := |log|;
      }
      if persistLogCount > |log| {
        var ok := TruncateTo(|log|);
        assert ok; // so the source's fallback to an empty cache is not needed
      }
      if persistDirtyFrom < persistLogCount {
        var ok := TruncateTo(persistDirtyFrom);
        assert ok;
      }
      assert cached[..|cached|] == cached;
    }

    /** encodePersistentStateIncrementalLocked: the cached buffer, patched, is the
        whole current state encoded from scratch. */
    method EncodeIncremental() returns (state: seq<byte>)
      requires Valid()
      modifies this`persistState, this`persistEntryEnd, this`persistLogCount, this`persistDirtyFrom, this`persistReady,
        this`cached
      ensures persistReady && CacheOk() && cached == log
      ensures state == persistState == Encode(Current())
      ensures persistEntryEnd == Ends(log)
      ensures persistDirtyFrom == persistLogCount == |log|
    {
      hide EncodeLog, Ends, Header;
      DropStale();
      while persistLogCount < |log|
        invariant persistReady && CacheOk()
        invariant |cached| <= |log| && cached == log[..|cached|]
        decreases |log| - persistLogCount
      {
        AppendEntry(log[persistLogCount]);
      }
      assert cached == log;
      PutHeaderFields();
      persistDirtyFrom := |log|;
      state := persistState;
    }

    /** canPersistAppendLocked */
    predicate CanPersistAppend(snapshot: Option<seq<byte>>, state: seq<byte>, dirtyFromBefore: nat)
      reads this
    {
      && snapshot.None?
      && persistReady
      && persistQueuedLogCount <= |log|
      && dirtyFromBefore >= persistQueuedLogCount
      && CanAppend(state, persistQueuedLen)
    }

    /** enqueuePersistLocked: whichever request it chooses, carrying it out on the
        previously enqueued state yields the current state encoded from scratch. */
    method EnqueuePersist(snapshot: Option<seq<byte>>) returns (request: Request)
      requires Valid()
      modifies this`persistState, this`persistEntryEnd, this`persistLogCount, this`persistDirtyFrom, this`persistReady,
        this`persistQueuedLen, this`persistQueuedLogCount, this`cached, this`queued
      ensures Valid() && persistReady && queued == Encode(Current()) && Current() == old(Current())
      ensures persistDirtyFrom == |log|
      ensures persistQueuedLen == |queued| > 0 && persistQueuedLogCount == |log|
      ensures request.SaveState? ==> request == SaveState(queued, snapshot)
      ensures request.AppendState? <==>
        && snapshot.None? && old(persistReady) && old(persistQueuedLen) > 0
        && old(persistDirtyFrom) >= old(persistQueuedLogCount) && old(persistQueuedLogCount) <= |log|
      ensures request.AppendState? ==>
        && |old(queued)| == old(persistQueuedLen)
        && CanAppend(queued, |old(queued)|)
        && request == AppendState(BuildPayload(queued, |old(queued)|))
        && old(queued)[HEADER_SIZE..] == queued[HEADER_SIZE..|old(queued)|]
        && |queued| - |old(queued)| == |EncodeLog(log[old(persistQueuedLogCount)..])|
    {
      hide EncodeLog, Ends, Header, BuildPayload;
      ghost var before := cached;
      ghost var wasReady := persistReady;
      ghost var m := Min(persistDirtyFrom, Min(|cached|, |log|));
      ghost var agreed := wasReady ==> before[..m] == log[..m];
      assert agreed;
      var dirtyFromBefore := persistDirtyFrom;
      var state := EncodeIncremental();
      assert state[HEADER_SIZE..] == EncodeLog(log);
      if wasReady && persistQueuedLen > 0 && dirtyFromBefore >= persistQueuedLogCount
        && persistQueuedLogCount <= |log| {
        assert persistQueuedLogCount == |before| == m && before[..m] == before;
        UnchangedEntries(queued, state, before, log);
      }
      if CanPersistAppend(snapshot, state, dirtyFromBefore) {
        request := AppendState(BuildPayload(state, persistQueuedLen));
      } else {
        request := SaveState(state, snapshot);
      }
      persistQueuedLen, persistQueuedLogCount := |state|, |log|;
      queued := state;
    }

    /** readPersist on restart: an accepted state refills the cache when it has entries. */
    method Restore(gob: seq<byte> -> bool, data: seq<byte>)
      requires |data| < TWO63
      modifies this
      ensures Valid()
      ensures Decode(gob, data).Accepted? ==> Current() == Decode(gob, data).state
      ensures Decode(gob, data).Rejected? ==> Current() == old(Current())
      ensures persistReady <==> Decode(gob, data).Accepted? && Decode(gob, data).cacheReady
      ensures persistReady ==>
        queued == data && persistQueuedLen == |data| && persistDirtyFrom == persistQueuedLogCount == |log|
    {
      hide EncodeLog, Ends, Encode, Decode, Fits;
      var r := ReadPersistBinary(gob, data);
      if r.Accepted? {
        LoadedCache(gob, data);
        currentTerm, votedFor, lastIncludedIndex, lastIncludedTerm, log :=
          r.state.term, r.state.vote, r.state.snapIndex, r.state.snapTerm, r.state.log;
      }
      if r.Accepted? && r.cacheReady {
        persistState, persistEntryEnd, persistLogCount := data, r.ends, |log|;
        persistDirtyFrom, persistReady := |log|, true;
        persistQueuedLen, persistQueuedLogCount := |data|, |log|;
        cached, queued := log, data;
      } else {
        persistState, persistEntryEnd, persistLogCount := [], [], 0;
        persistDirtyFrom, persistReady := 0, false;
        persistQueuedLen, persistQueuedLogCount := 0, 0;
      }
    }
  }

  lemma PatchedHeader(buf: seq<byte>, p: Persisted)
    requires |buf| >= HEADER_SIZE
    ensures
      var b1 := Patch(buf, 0, U32(MAGIC));
      var b2 := Patch(b1, 4, I64(p.term));
      var b3 := Patch(b2, 12, I64(p.vote));
      var b4 := Patch(b3, 20, I64(p.snapIndex));
      var b5 := Patch(b4, 28, I64(p.snapTerm));
      var b6 := Patch(b5, 36, I64(|p.log|));
      b6 == Header(p) + buf[HEADER_SIZE..]
  {
    hide U32, I64;
    var h1 := U32(MAGIC);
    var h2 := h1 + I64(p.term);
    var h3 := h2 + I64(p.vote);
    var h4 := h3 + I64(p.snapIndex);
    var h5 := h4 + I64(p.snapTerm);
    var h6 := h5 + I64(|p.log|);
    PatchNext(buf, [], h1);
    PatchNext(buf, h1, I64(p.term));
    PatchNext(buf, h2, I64(p.vote));
    PatchNext(buf, h3, I64(p.snapIndex));
    PatchNext(buf, h4, I64(p.snapTerm));
    PatchNext(buf, h5, I64(|p.log|));
    assert [] + buf[0..] == buf && [] + h1 == h1;
  }

  /** A buffer overwritten up to some point, then a little further. */
  lemma PatchNext(buf: seq<byte>, done: seq<byte>, bytes: seq<byte>)
    requires |done| + |bytes| <= |buf|
    ensures Patch(done + buf[|done|..], |done|, bytes) == done + bytes + buf[|done + bytes|..]
  {
    var b := done + buf[|done|..];
    assert b[..|done|] == done;
    assert b[|done| + |bytes|..] == buf[|done| + |bytes|..];
  }

  lemma LoadedCache(gob: seq<byte> -> bool, data: seq<byte>)
    requires |data| < TWO63 && Decode(gob, data).Accepted?
    ensures var r := Decode(gob, data);
      r.cacheReady ==>
        |data| >= HEADER_SIZE && data[HEADER_SIZE..] == EncodeLog(r.state.log) && r.ends == Ends(r.state.log)
  {
    hide Header, EncodeLog, Ends, ParseLog;
    EncodeDecoded(gob, data);
    var r := Decode(gob, data);
    if r.cacheReady {
      assert Encode(r.state)[HEADER_SIZE..] == EncodeLog(r.state.log);
    }
  }

  lemma AppendedEncoding(state: seq<byte>, longer: seq<LogEntry>)
    requires longer != [] && |state| >= HEADER_SIZE
    requires state[HEADER_SIZE..] == EncodeLog(longer[..|longer| - 1])
    ensures var e := longer[|longer| - 1];
      var state' := state + I64(e.term) + I64(|e.command|) + e.command;
      && state'[HEADER_SIZE..] == EncodeLog(longer)
      && Ends(longer) == Ends(longer[..|longer| - 1]) + [|state'|]
  {
    hide I64;
    var e := longer[|longer| - 1];
    var state' := state + I64(e.term) + I64(|e.command|) + e.command;
    assert state' == state + EncodeEntry(e);
    assert state'[HEADER_SIZE..] == state[HEADER_SIZE..] + EncodeEntry(e);
  }

  /** Extending a log keeps the encoding of its old entries as a prefix. */
  lemma UnchangedEntries(queued: seq<byte>, state: seq<byte>, before: seq<LogEntry>, log: seq<LogEntry>)
    requires |queued| >= HEADER_SIZE && |state| >= HEADER_SIZE
    requires queued[HEADER_SIZE..] == EncodeLog(before) && state[HEADER_SIZE..] == EncodeLog(log)
    requires |before| <= |log| && before == log[..|before|]
    ensures |queued| <= |state| && queued[HEADER_SIZE..] == state[HEADER_SIZE..|queued|]
    ensures |state| - |queued| == |EncodeLog(log[|before|..])|
  {
    hide EncodeLog;
    assert log == before + log[|before|..];
    EncodeLogConcat(before, log[|before|..]);
    assert state[HEADER_SIZE..|queued|] == state[HEADER_SIZE..][..|queued| - HEADER_SIZE];
  }

  lemma EmptyLog()
    ensures EncodeLog([]) == [] && Ends([]) == []
  {}

  /** Cutting the buffer at an entry's end leaves the encoding of the entries before it. */
  lemma TruncatedEncoding(state: seq<byte>, entries: seq<LogEntry>, keep: nat)
    requires |state| >= HEADER_SIZE && state[HEADER_SIZE..] == EncodeLog(entries)
    requires 0 < keep <= |entries|
    ensures HEADER_SIZE <= Ends(entries)[keep - 1] <= |state|
    ensures state[..Ends(entries)[keep - 1]][HEADER_SIZE..] == EncodeLog(entries[..keep])
    ensures Ends(entries)[..keep] == Ends(entries[..keep])
  {
    hide EncodeEntry, EncodeLog, Ends;
    var end := Ends(entries)[keep - 1];
    EndsAt(entries, keep - 1);
    assert entries[..keep - 1 + 1] == entries[..keep];
    EndsPrefix(entries, keep);
    assert entries == entries[..keep] + entries[keep..];
    EncodeLogConcat(entries[..keep], entries[keep..]);
    assert state[..end][HEADER_SIZE..] == state[HEADER_SIZE..][..end - HEADER_SIZE];
  }
}
