/** Durable refinement: whatever mix of delta frames, full saves, compactions and restarts
    a run goes through, the bytes read back are the whole state encoded from scratch, as of the
    last edit that reached the reader. */
module Durable {
  import opened Bytes
  import opened Options
  import opened PersistFormat
  import opened DeltaFrames
  import opened PersistCache
  import opened FilePersister

  /** The persisted changes of a Raft node, each followed by enqueuePersistLocked. */
  datatype Edit =
    | Append(entries: seq<LogEntry>)
    | CutAppend(cut: nat, entries: seq<LogEntry>)
    | Compact(log: seq<LogEntry>, index: int, term: int, snapshot: Option<seq<byte>>)
    | Ballot(currentTerm: int, votedFor: int)
    | Restart

  const INITIAL := Persisted(0, -1, 0, 0, [LogEntry(0, [])])

  function ApplyEdit(p: Persisted, e: Edit): (r: Persisted) {
    match e
    case Append(entries) => p.(log := p.log + entries)
    case CutAppend(cut, entries) => p.(log := p.log[..Min(cut, |p.log|)] + entries)
    case Compact(log, index, term, _) => p.(log := log, snapIndex := index, snapTerm := term)
    case Ballot(term, vote) => p.(term := term, vote := vote)
    case Restart => p
  }

  function Edited(edits: seq<Edit>): (p: Persisted) {
    if edits == [] then INITIAL else ApplyEdit(Edited(edits[..|edits| - 1]), edits[|edits| - 1])
  }

  /** The snapshot last saved; an empty one counts as none. */
  function LastSnapshot(edits: seq<Edit>): (b: seq<byte>) {
    if edits == [] then []
    else SnapshotAfter(LastSnapshot(edits[..|edits| - 1]), edits[|edits| - 1])
  }

  /** Whether anything was persisted at all. */
  predicate Saved(edits: seq<Edit>) {
    exists i | 0 <= i < |edits| :: !edits[i].Restart?
  }

  ghost predicate EntriesFit(gob: seq<byte> -> bool, entries: seq<LogEntry>) {
    forall i | 0 <= i < |entries| :: EntryFits(gob, entries[i])
  }

  /** The Go field widths, and a dummy entry that is never cut. */
  ghost predicate EditOk(gob: seq<byte> -> bool, e: Edit) {
    match e
    case Append(entries) => EntriesFit(gob, entries)
    case CutAppend(cut, entries) => cut >= 1 && EntriesFit(gob, entries)
    case Compact(log, index, term, _) =>
      log != [] && EntriesFit(gob, log) && -TWO63 <= index < TWO63 && -TWO63 <= term < TWO63
    case Ballot(term, vote) => -TWO63 <= term < TWO63 && -TWO63 <= vote < TWO63
    case Restart => true
  }

  /** The entries an edit adds, if what was saved before stays as it is: then they go into a
      delta frame; otherwise the whole state is saved. */
  function DeltaOf(p: Persisted, e: Edit): (entries: Option<seq<LogEntry>>) {
    match e
    case Append(entries) => Some(entries)
    case CutAppend(cut, entries) => if cut < |p.log| then None else Some(entries)
    case Compact(_, _, _, _) => None
    case Ballot(_, _) => Some([])
    case Restart => None
  }

  /** The frame of the edit's delta, if it has one, can state its own length. */
  predicate Sendable(saved: bool, p: Persisted, e: Edit) {
    saved && DeltaOf(p, e).Some? ==> |EncodeLog(DeltaOf(p, e).value)| + 72 < TWO32
  }

  /** How many of the edits a reader finds: a delta too long for a frame is lost, and with it
      every later one, until the whole state is saved again. */
  function Visible(edits: seq<Edit>): (n: nat)
    ensures n <= |edits|
  {
    if edits == [] then 0
    else
      var n := |edits| - 1;
      var seen, p, e := Visible(edits[..n]), Edited(edits[..n]), edits[n];
      if seen == n then (if Sendable(Saved(edits[..n]), p, e) then n + 1 else n)
      else if DeltaOf(p, e).None? then n + 1
      else seen
  }

  /** What a reader should find after these edits. */
  function Expected(edits: seq<Edit>): (v: View) {
    if Saved(edits) then View(Encode(Edited(edits)), LastSnapshot(edits)) else View([], [])
  }

  /** A bound on the encoded size: Go slices are shorter than 2^63 bytes. */
  function TotalBytes(edits: seq<Edit>): (n: nat) {
    if edits == [] then 60
    else
      var e := edits[|edits| - 1];
      TotalBytes(edits[..|edits| - 1]) +
      match e
      case Append(entries) => |EncodeLog(entries)|
      case CutAppend(_, entries) => |EncodeLog(entries)|
      case Compact(log, _, _, _) => |EncodeLog(log)|
      case Ballot(_, _) => 0
      case Restart => 0
  }

  lemma CutShrinks(log: seq<LogEntry>, n: nat)
    requires n <= |log|
    ensures |EncodeLog(log[..n])| <= |EncodeLog(log)|
  {
    hide EncodeLog;
    EncodeLogConcat(log[..n], log[n..]);
    assert log == log[..n] + log[n..];
  }

  lemma {:induction false} EditedSize(edits: seq<Edit>)
    ensures |Encode(Edited(edits))| <= TotalBytes(edits)
    decreases |edits|
  {
    hide EncodeLog, Header;
    if edits == [] {
      InitialSize();
    } else {
      var shorter, e := edits[..|edits| - 1], edits[|edits| - 1];
      var p := Edited(shorter);
      EditedSize(shorter);
      if e.Append? {
        EncodeLogConcat(p.log, e.entries);
      } else if e.CutAppend? {
        var n := Min(e.cut, |p.log|);
        EncodeLogConcat(p.log[..n], e.entries);
        CutShrinks(p.log, n);
      }
    }
  }

  lemma InitialSize()
    ensures |Encode(INITIAL)| == 60
  {
    hide Header, EncodeEntry;
    var log := INITIAL.log;
    assert log[..|log| - 1] == [];
    assert EncodeLog(log) == [] + EncodeEntry(log[0]);
  }

  lemma {:induction false} LogShorter(log: seq<LogEntry>)
    ensures |log| <= |EncodeLog(log)|
    decreases |log|
  {
    if log != [] {
      LogShorter(log[..|log| - 1]);
    }
  }

  lemma {:induction false} EditedFits(gob: seq<byte> -> bool, edits: seq<Edit>)
    requires forall i | 0 <= i < |edits| :: EditOk(gob, edits[i])
    ensures Edited(edits).log != []
    ensures TotalBytes(edits) < TWO63 ==> Fits(gob, Edited(edits))
    decreases |edits|
  {
    hide EncodeLog, TotalBytes;
    EditedSize(edits);
    LogShorter(Edited(edits).log);
    if edits != [] {
      var shorter, e := edits[..|edits| - 1], edits[|edits| - 1];
      TotalBytesGrows(edits);
      EditedFits(gob, shorter);
      assert EditOk(gob, e);
    }
  }

  lemma TotalBytesGrows(edits: seq<Edit>)
    requires edits != []
    ensures TotalBytes(edits[..|edits| - 1]) <= TotalBytes(edits)
  {}

  lemma SinglePayload(state: seq<byte>, payload: seq<byte>)
    requires |payload| < TWO32 && ApplyPayload(state, payload).Applied?
    ensures Chained(state, [payload])
    ensures ApplyAll(state, [payload]) == ApplyPayload(state, payload).state
  {
    hide ApplyPayload;
    var rest := [payload][1..];
    assert |rest| == 0;
  }

  lemma SingleFrame(crc: Crc, payload: seq<byte>)
    ensures File(crc, [payload]) == Frame(crc, payload)
  {
    hide Frame;
    var rest := [payload][1..];
    assert |rest| == 0;
    assert Frame(crc, payload) + [] == Frame(crc, payload);
  }

  /** The cache and the disk agree: nothing saved yet, or exactly the current state. */
  ghost predicate InStep(cache: Cache, fp: Persister)
    reads cache, fp
  {
    && cache.Valid() && fp.Valid() && Clean(fp.crc, fp.files, fp.manifest)
    && (cache.persistReady ==>
        && fp.manifest.gen > 0
        && fp.Shown().state == cache.queued
        && cache.persistQueuedLen > 0)
    && (!cache.persistReady ==> fp.Shown().state == [])
  }

  /** The disk reads an older, shorter state than was enqueued, and its delta file either ends
      with a complete frame or hides whatever is appended. */
  ghost predicate Behind(cache: Cache, fp: Persister)
    reads cache, fp
  {
    && cache.Valid() && cache.persistReady && fp.Valid() && fp.manifest.gen > 0
    && |fp.Shown().state| < |cache.queued| == cache.persistQueuedLen
    && (Clean(fp.crc, fp.files, fp.manifest) || Blocks(fp))
  }

  ghost predicate Blocks(fp: Persister)
    reads fp
  {
    Blocked(fp.crc, Contents(fp.files, Base(fp.manifest.gen)), Contents(fp.files, Delta(fp.manifest.gen)))
  }

  /** The next persist sends a delta. */
  ghost predicate SendsDelta(cache: Cache, snapshot: Option<seq<byte>>)
    reads cache
  {
    && snapshot.None? && cache.persistReady
    && cache.persistDirtyFrom >= cache.persistQueuedLogCount && cache.persistQueuedLogCount <= |cache.log|
  }

  ghost predicate Fitting(cache: Cache, snapshot: Option<seq<byte>>)
    reads cache
  {
    SendsDelta(cache, snapshot) ==> |EncodeLog(cache.log[cache.persistQueuedLogCount..])| + 72 < TWO32
  }

  /** EnqueueSave copies the snapshot, which turns an empty one into none. */
  function Copied(snapshot: Option<seq<byte>>): (r: Option<seq<byte>>) {
    if snapshot.Some? && |snapshot.value| > 0 then snapshot else None
  }

  /** The snapshot found after one more save. */
  ghost function SnapshotNext(fp: Persister, snapshot: Option<seq<byte>>): (b: seq<byte>)
    reads fp
  {
    if Copied(snapshot).Some? then snapshot.value
    else if fp.manifest.snap.Some? then fp.Shown().snapshot else []
  }

  /** One enqueued request carried out: the disk then holds the current state, unless its delta
      is too long for a frame; then the disk still reads as before, and is behind. */
  method CarryOut(cache: Cache, fp: Persister, snapshot: Option<seq<byte>>)
    requires InStep(cache, fp)
    requires |Encode(cache.Current())| < TWO63
    modifies cache, fp
    ensures cache.Valid() && cache.persistReady && cache.Current() == old(cache.Current())
    ensures cache.persistDirtyFrom == cache.persistQueuedLogCount == |cache.log|
    ensures cache.queued == Encode(cache.Current())
    ensures old(Fitting(cache, snapshot)) ==>
      InStep(cache, fp) && fp.Shown() == View(Encode(cache.Current()), old(SnapshotNext(fp, snapshot)))
    ensures !old(Fitting(cache, snapshot)) ==> Behind(cache, fp) && fp.Shown() == old(fp.Shown())
  {
    hide Encode, EncodeLog, ApplyPayload, BuildPayload, Load, Replay, ReadState, Frame, Blocks, Clean;
    ghost var before, shown := cache.queued, fp.Shown();
    ghost var fits := Fitting(cache, snapshot);
    var request := cache.EnqueuePersist(snapshot);
    match request
    case AppendState(payload) =>
      assert payload == BuildPayload(cache.queued, |before|);
      if fits {
        PayloadApplies(before, cache.queued);
      } else {
        TooLong(fp.crc, before, cache.queued);
      }
      AppendOne(fp, payload);
    case SaveState(state, given) =>
      fp.CommitGeneration(state, Copied(given));
  }

  /** A reader with this state stops at the payload's frame, whatever follows it. */
  ghost predicate ReadStop(crc: Crc, state: seq<byte>, payload: seq<byte>) {
    forall more: seq<byte> :: ReplayOne(crc, state, Frame(crc, payload) + more) == Stop
  }

  lemma TooLong(crc: Crc, prev: seq<byte>, next: seq<byte>)
    requires CanAppend(next, |prev|) && |next| < TWO63 && prev[DeltaFrames.STATE_HEADER..] == next[44..|prev|]
    requires |next| - |prev| + 72 >= TWO32
    ensures ReadStop(crc, prev, BuildPayload(next, |prev|))
  {
    hide ReplayOne, Frame, BuildPayload;
    forall more: seq<byte>
      ensures ReplayOne(crc, prev, Frame(crc, BuildPayload(next, |prev|)) + more) == Stop
    {
      FrameReplays(crc, prev, next, more);
    }
  }

  lemma OtherLength(crc: Crc, state: seq<byte>, prev: seq<byte>, next: seq<byte>)
    requires CanAppend(next, |prev|) && |next| < TWO63 && |state| != |prev|
    ensures ReadStop(crc, state, BuildPayload(next, |prev|))
  {
    hide ReplayOne, Frame, BuildPayload;
    forall more: seq<byte>
      ensures ReplayOne(crc, state, Frame(crc, BuildPayload(next, |prev|)) + more) == Stop
    {
      RefusedFrame(crc, state, prev, next, more);
    }
  }

  /** One frame appended: behind a complete frame it is applied; one that the reader stops at,
      or never gets to, leaves the disk reading as before and hides what comes after it. */
  method AppendOne(fp: Persister, payload: seq<byte>)
    requires fp.Valid() && fp.manifest.gen > 0 && (Clean(fp.crc, fp.files, fp.manifest) || Blocks(fp))
    modifies fp
    ensures fp.Valid() && fp.manifest.gen > 0
    ensures old(ReadStop(fp.crc, fp.Shown().state, payload)) ==>
      fp.Shown() == old(fp.Shown()) && (Clean(fp.crc, fp.files, fp.manifest) || Blocks(fp))
    ensures var applied := ApplyPayload(old(fp.Shown().state), payload);
      old(Clean(fp.crc, fp.files, fp.manifest)) && |payload| < TWO32 && applied.Applied? ==>
        Clean(fp.crc, fp.files, fp.manifest) && fp.Shown() == View(applied.state, old(fp.Shown().snapshot))
  {
    hide ReadStop, Load, Replay, ReadState, Frame, Compose, Blocked, ApplyPayload, Chained, ApplyAll;
    ghost var base, delta := Contents(fp.files, Base(fp.manifest.gen)), Contents(fp.files, Delta(fp.manifest.gen));
    ghost var state := fp.Shown().state;
    SingleFrame(fp.crc, payload);
    assert Compose(fp.crc, base, delta) == state by { DeltaRead(fp); }
    if Blocks(fp) {
      BlockedStays(fp.crc, base, delta, Frame(fp.crc, payload));
    } else if ReadStop(fp.crc, state, payload) {
      StopBlocks(fp.crc, base, delta, payload);
    }
    if |payload| < TWO32 && ApplyPayload(state, payload).Applied? {
      SinglePayload(state, payload);
    }
    var ok := fp.CommitAppend([payload]);
    assert ok;
  }

  lemma StopBlocks(crc: Crc, base: seq<byte>, delta: seq<byte>, payload: seq<byte>)
    requires Replay(crc, base, delta).offset == |delta| && ReadStop(crc, Compose(crc, base, delta), payload)
    ensures Compose(crc, base, delta + Frame(crc, payload)) == Compose(crc, base, delta)
    ensures Blocked(crc, base, delta + Frame(crc, payload))
  {
    hide Replay, ReplayOne, Frame, Compose, Blocked;
    FrameBlocks(crc, base, delta, Frame(crc, payload));
  }

  /** The same behind: deltas change nothing, a full save brings the disk up to date. */
  method CarryOutBehind(cache: Cache, fp: Persister, snapshot: Option<seq<byte>>)
    requires Behind(cache, fp)
    requires |Encode(cache.Current())| < TWO63
    modifies cache, fp
    ensures cache.Valid() && cache.persistReady && cache.Current() == old(cache.Current())
    ensures cache.persistDirtyFrom == cache.persistQueuedLogCount == |cache.log|
    ensures cache.queued == Encode(cache.Current())
    ensures old(SendsDelta(cache, snapshot)) ==> Behind(cache, fp) && fp.Shown() == old(fp.Shown())
    ensures !old(SendsDelta(cache, snapshot)) ==>
      InStep(cache, fp) && fp.Shown() == View(Encode(cache.Current()), old(SnapshotNext(fp, snapshot)))
  {
    hide Encode, EncodeLog, ApplyPayload, BuildPayload, Load, Replay, ReadState, Frame, Blocks, Clean;
    ghost var before := cache.queued;
    var request := cache.EnqueuePersist(snapshot);
    match request
    case AppendState(payload) =>
      OtherLength(fp.crc, fp.Shown().state, before, cache.queued);
      AppendOne(fp, payload);
    case SaveState(state, given) =>
      fp.CommitGeneration(state, Copied(given));
  }

  lemma DeltaRead(fp: Persister)
    requires fp.Valid() && fp.manifest.gen > 0
    ensures Compose(fp.crc, Contents(fp.files, Base(fp.manifest.gen)), Contents(fp.files, Delta(fp.manifest.gen))) ==
      fp.Shown().state
  {
    hide Compose, Load;
  }

  /** What changes in memory between two persists. */
  method EditCache(cache: Cache, e: Edit)
    requires cache.Valid() && !e.Restart? && cache.log != []
    requires e.CutAppend? ==> e.cut >= 1
    requires cache.persistReady ==> cache.persistDirtyFrom == cache.persistQueuedLogCount == |cache.log|
    modifies cache
    ensures cache.Valid() && cache.Current() == ApplyEdit(old(cache.Current()), e)
    ensures cache.persistReady == old(cache.persistReady) && cache.queued == old(cache.queued)
    ensures cache.persistQueuedLen == old(cache.persistQueuedLen)
    ensures var delta := DeltaOf(old(cache.Current()), e);
      cache.persistReady ==>
        && (delta.Some? <==> cache.persistDirtyFrom >= cache.persistQueuedLogCount)
        && (delta.Some? ==>
              cache.persistQueuedLogCount <= |cache.log| && cache.log[cache.persistQueuedLogCount..] == delta.value)
  {
    hide EncodeLog, Ends;
    match e
    case Append(entries) =>
      cache.ExtendLog(entries);
    case CutAppend(cut, entries) =>
      if cut < |cache.log| {
        cache.CutLog(cut);
      }
      cache.ExtendLog(entries);
    case Compact(log, index, term, _) =>
      cache.ReplaceLog(log, index, term);
    case Ballot(term, vote) =>
      cache.SetTermAndVote(term, vote);
  }

  /** A restart: the persister reloads its disk and the node decodes what it reads. */
  method Reopen(gob: seq<byte> -> bool, cache: Cache, fp: Persister) returns (cache': Cache, fp': Persister)
    requires InStep(cache, fp) && cache.Current().log != []
    requires cache.persistReady ==> fp.Shown().state == Encode(cache.Current())
    requires !cache.persistReady ==> cache.Current() == INITIAL
    requires Fits(gob, cache.Current()) && |Encode(cache.Current())| < TWO63
    ensures fresh(cache') && fresh(fp') && InStep(cache', fp')
    ensures fp'.crc == fp.crc && fp'.deltaCompactBytes == fp.deltaCompactBytes
    ensures cache'.Current() == cache.Current() && cache'.persistReady == cache.persistReady
    ensures fp'.Shown() == fp.Shown() && fp'.manifest == fp.manifest
    ensures cache'.persistReady ==> cache'.persistDirtyFrom == cache'.persistQueuedLogCount == |cache'.log|
  {
    hide Encode, EncodeLog, Decode, Fits, Clean, ReadView, Load, Best;
    fp' := new Persister(fp.crc, fp.deltaCompactBytes, Disk(fp.files, fp.manifestFile));
    cache' := new Cache();
    var data := fp'.ReadRaftState();
    if cache.persistReady {
      DecodeEncoded(gob, cache.Current());
    } else {
      EmptyRejected(gob);
    }
    cache'.Restore(gob, data);
  }

  lemma EmptyRejected(gob: seq<byte> -> bool)
    ensures Decode(gob, []) == Rejected
  {}

  /** The cache and the disk agree on p and on the snapshot. */
  ghost predicate Holds(cache: Cache, fp: Persister, p: Persisted, snapshot: seq<byte>)
    reads cache, fp
  {
    && InStep(cache, fp)
    && cache.Current() == p
    && (cache.persistReady ==>
        && fp.Shown() == View(Encode(p), snapshot)
        && cache.persistDirtyFrom == cache.persistQueuedLogCount == |cache.log|)
    && (!cache.persistReady ==> fp.Shown() == View([], []) && p == INITIAL && snapshot == [])
  }

  /** The disk is behind p; its snapshot is still the last one. */
  ghost predicate Trails(cache: Cache, fp: Persister, p: Persisted, snapshot: seq<byte>)
    reads cache, fp
  {
    && Behind(cache, fp)
    && cache.Current() == p && cache.queued == Encode(p) && fp.Shown().snapshot == snapshot
    && cache.persistDirtyFrom == cache.persistQueuedLogCount == |cache.log|
  }

  function SnapshotAfter(snapshot: seq<byte>, e: Edit): (r: seq<byte>) {
    if e.Compact? && e.snapshot.Some? && e.snapshot.value != [] then e.snapshot.value else snapshot
  }

  function GivenSnapshot(e: Edit): (snapshot: Option<seq<byte>>) {
    if e.Compact? then e.snapshot else None
  }

  /** One edit with its persist, or a restart. */
  method OneEdit(gob: seq<byte> -> bool, cache: Cache, fp: Persister, e: Edit, ghost p: Persisted,
                 ghost snapshot: seq<byte>)
    returns (cache': Cache, fp': Persister)
    requires Holds(cache, fp, p, snapshot) && EditOk(gob, e)
    requires Fits(gob, p) && p.log != [] && |Encode(p)| < TWO63 && |Encode(ApplyEdit(p, e))| < TWO63
    modifies cache, fp
    ensures (cache' == cache || fresh(cache')) && (fp' == fp || fresh(fp'))
    ensures fp'.crc == fp.crc && cache'.persistReady == (old(cache.persistReady) || !e.Restart?)
    ensures Sendable(old(cache.persistReady), p, e) ==> Holds(cache', fp', ApplyEdit(p, e), SnapshotAfter(snapshot, e))
    ensures !Sendable(old(cache.persistReady), p, e) ==>
      Trails(cache', fp', ApplyEdit(p, e), SnapshotAfter(snapshot, e)) && fp'.Shown() == old(fp.Shown())
  {
    hide Encode, Fits, Load, ReadView, Clean, EncodeLog, Blocks;
    if e.Restart? {
      cache', fp' := Reopen(gob, cache, fp);
    } else {
      SnapshotNamed(fp);
      EditCache(cache, e);
      CarryOut(cache, fp, GivenSnapshot(e));
      cache', fp' := cache, fp;
    }
  }

  /** One edit while the disk is behind. */
  method OneEditBehind(gob: seq<byte> -> bool, cache: Cache, fp: Persister, e: Edit, ghost p: Persisted,
                       ghost snapshot: seq<byte>)
    requires Trails(cache, fp, p, snapshot) && EditOk(gob, e) && !e.Restart?
    requires p.log != [] && |Encode(ApplyEdit(p, e))| < TWO63
    modifies cache, fp
    ensures cache.persistReady
    ensures DeltaOf(p, e).None? ==> Holds(cache, fp, ApplyEdit(p, e), SnapshotAfter(snapshot, e))
    ensures DeltaOf(p, e).Some? ==>
      Trails(cache, fp, ApplyEdit(p, e), SnapshotAfter(snapshot, e)) && fp.Shown() == old(fp.Shown())
  {
    hide Encode, Load, ReadView, Clean, EncodeLog, Blocks;
    SnapshotNamed(fp);
    EditCache(cache, e);
    CarryOutBehind(cache, fp, GivenSnapshot(e));
  }

  lemma SnapshotNamed(fp: Persister)
    requires fp.Valid()
    ensures fp.manifest.gen > 0 ==> fp.manifest.snap.Some?
    ensures fp.manifest.gen == 0 ==> fp.manifest.snap.None?
  {}

  /** Every edit is well formed, and the node is not restarted from a disk that is behind. */
  ghost predicate RunOk(gob: seq<byte> -> bool, edits: seq<Edit>) {
    && TotalBytes(edits) < TWO63
    && (forall i | 0 <= i < |edits| :: EditOk(gob, edits[i]))
    && (forall i | 0 <= i < |edits| && edits[i].Restart? :: Visible(edits[..i]) == i)
  }

  /** After these edits the disk shows the visible ones and is in step or behind. */
  ghost predicate After(cache: Cache, fp: Persister, edits: seq<Edit>)
    reads cache, fp
  {
    && cache.persistReady == Saved(edits) && fp.Shown() == Expected(edits[..Visible(edits)])
    && (if Visible(edits) == |edits| then Holds(cache, fp, Edited(edits), LastSnapshot(edits))
        else Trails(cache, fp, Edited(edits), LastSnapshot(edits)))
  }

  /** The first n edits of a run. */
  method PersistSome(crc: Crc, compact: int, gob: seq<byte> -> bool, edits: seq<Edit>, n: nat)
    returns (cache: Cache, fp: Persister)
    requires n <= |edits| && RunOk(gob, edits)
    ensures fresh(cache) && fresh(fp) && fp.crc == crc && After(cache, fp, edits[..n])
  {
    hide Saved, Encode, EncodeLog, Fits, EditOk, TotalBytes, Edited, LastSnapshot, Load, ReadView, Clean, Sendable;
    hide Visible, Expected, Holds, Trails;
    cache := new Cache();
    EmptyDisk(crc);
    fp := new Persister(crc, compact, Disk(map[], None));
    var i := 0;
    assert edits[..0] == [];
    NothingPersisted(cache, fp);
    while i < n
      invariant 0 <= i <= n
      invariant fresh(cache) && fresh(fp) && fp.crc == crc
      invariant After(cache, fp, edits[..i])
    {
      PrefixStep(gob, edits, i);
      VisibleStep(edits, i);
      if Visible(edits[..i]) == i {
        cache, fp := OneEdit(gob, cache, fp, edits[i], Edited(edits[..i]), LastSnapshot(edits[..i]));
        if Visible(edits[..i + 1]) == i + 1 { HoldsExpected(cache, fp, edits[..i + 1]); }
      } else {
        OneEditBehind(gob, cache, fp, edits[i], Edited(edits[..i]), LastSnapshot(edits[..i]));
        if Visible(edits[..i + 1]) == i + 1 { HoldsExpected(cache, fp, edits[..i + 1]); }
      }
      i := i + 1;
    }
  }

  lemma HoldsExpected(cache: Cache, fp: Persister, edits: seq<Edit>)
    requires Holds(cache, fp, Edited(edits), LastSnapshot(edits)) && cache.persistReady == Saved(edits)
    ensures fp.Shown() == Expected(edits)
  {
    hide InStep, Encode, Edited, LastSnapshot, Saved, ReadView;
  }

  lemma VisibleStep(edits: seq<Edit>, i: nat)
    requires i < |edits|
    ensures var seen, p, e := Visible(edits[..i]), Edited(edits[..i]), edits[i];
      && Visible(edits[..i + 1]) ==
        (if seen == i then (if Sendable(Saved(edits[..i]), p, e) then i + 1 else i)
         else if DeltaOf(p, e).None? then i + 1 else seen)
      && edits[..i][..seen] == edits[..seen]
      && edits[..i + 1][..Visible(edits[..i + 1])] == edits[..Visible(edits[..i + 1])]
  {
    hide Edited, Saved, Sendable;
    assert edits[..i + 1][..i] == edits[..i];
  }

  lemma NothingPersisted(cache: Cache, fp: Persister)
    requires InStep(cache, fp) && !cache.persistReady && cache.Current() == INITIAL && fp.Shown() == View([], [])
    ensures After(cache, fp, [])
  {}

  /** The main result, over every sequence of edits and restarts: what is read back is the
      edited state encoded from scratch, with the last snapshot, as of the last visible edit.
      So it is up to date if and only if all edits are visible: no delta too long for a frame
      was sent since the last full save. */
  method PersistRun(crc: Crc, compact: int, gob: seq<byte> -> bool, edits: seq<Edit>)
    returns (cache: Cache, fp: Persister)
    requires RunOk(gob, edits)
    ensures cache.Current() == Edited(edits)
    ensures fp.Shown() == Expected(edits[..Visible(edits)])
    ensures fp.Shown() == Expected(edits) <==> Visible(edits) == |edits|
  {
    hide Saved, Encode, EncodeLog, Fits, EditOk, TotalBytes, Edited, LastSnapshot, Load, ReadView, Clean, Visible;
    cache, fp := PersistSome(crc, compact, gob, edits, |edits|);
    assert edits[..|edits|] == edits;
  }

  // ---------------------------------------------------------------- a crash inside the last request

  /** The next request changes what the disk shows. */
  ghost predicate Shows(cache: Cache, fp: Persister, snapshot: Option<seq<byte>>)
    reads cache, fp
  {
    if InStep(cache, fp) then Fitting(cache, snapshot) else !SendsDelta(cache, snapshot)
  }

  /** The disk a crash leaves while a request is carried out: it reads as before or, where the
      request is one that shows, as after it. */
  method CrashInRequest(cache: Cache, fp: Persister, snapshot: Option<seq<byte>>, crash: Crash) returns (left: Disk)
    requires InStep(cache, fp) || Behind(cache, fp)
    requires |Encode(cache.Current())| < TWO63
    modifies cache
    ensures var view := ReadView(fp.crc, left.files, Load(left));
      || view == fp.Shown()
      || (old(Shows(cache, fp, snapshot)) && view == View(Encode(old(cache.Current())), SnapshotNext(fp, snapshot)))
  {
    hide Encode, EncodeLog, ApplyPayload, BuildPayload, Load, Replay, ReadState, Frame, Consistent, Blocks, Unread;
    ghost var before, inStep, shows := cache.queued, InStep(cache, fp), Shows(cache, fp, snapshot);
    var request := cache.EnqueuePersist(snapshot);
    var d := Disk(fp.files, fp.manifestFile);
    match request
    case AppendState(payload) =>
      assert payload == BuildPayload(cache.queued, |before|);
      NamedFiles(d, fp.manifest);
      if shows {
        PayloadApplies(before, cache.queued);
        AppendCrashes(fp.crc, d, fp.manifest, payload, crash);
      } else {
        if inStep {
          TooLong(fp.crc, before, cache.queued);
        } else {
          OtherLength(fp.crc, fp.Shown().state, before, cache.queued);
        }
        IsUnread(fp, payload);
        UnreadCrashes(fp.crc, d, fp.manifest, payload, crash);
      }
      left := CrashedAppend(fp.crc, d, fp.manifest, payload, crash);
    case SaveState(state, given) =>
      SaveCrashes(fp.crc, d, fp.manifest, state, Copied(given), crash);
      left := CrashedSave(d, fp.manifest, state, Copied(given), crash);
  }

  lemma IsUnread(fp: Persister, payload: seq<byte>)
    requires fp.Valid() && fp.manifest.gen > 0 && ReadStop(fp.crc, fp.Shown().state, payload)
    requires Clean(fp.crc, fp.files, fp.manifest) || Blocks(fp)
    ensures Unread(fp.crc, Contents(fp.files, Base(fp.manifest.gen)), Contents(fp.files, Delta(fp.manifest.gen)),
              Frame(fp.crc, payload))
  {
    hide Load, Replay, ReplayOne, Frame, Blocked, Compose, ReadState;
    DeltaRead(fp);
    assert Frame(fp.crc, payload) + [] == Frame(fp.crc, payload);
  }

  /** The run stops inside the last edit's request, at any byte of its frame or any durable
      write, and the node is opened again from the disk left behind: it reads exactly what is
      visible after all edits, or after all but the last, and resumes with that state. */
  method PersistThenCrash(crc: Crc, compact: int, gob: seq<byte> -> bool, edits: seq<Edit>, crash: Crash)
    returns (cache: Cache, fp: Persister)
    requires edits != [] && !edits[|edits| - 1].Restart? && RunOk(gob, edits)
    ensures
      || (fp.Shown() == Expected(edits[..Visible(edits)]) && cache.Current() == Edited(edits[..Visible(edits)]))
      || (var seen := Visible(edits[..|edits| - 1]);
          fp.Shown() == Expected(edits[..seen]) && cache.Current() == Edited(edits[..seen]))
  {
    hide Saved, Encode, EncodeLog, Fits, EditOk, TotalBytes, Edited, LastSnapshot, Load, ReadView, Clean, Decode;
    hide Visible, Blocks;
    var n := |edits| - 1;
    var live, disk := PersistSome(crc, compact, gob, edits, n);
    PrefixStep(gob, edits, n);
    VisibleStep(edits, n);
    assert edits[..n + 1] == edits;
    SnapshotNamed(disk);
    CutAboveDummy(gob, edits[n]);
    ghost var seen := Visible(edits[..n]);
    EditCache(live, edits[n]);
    assert Shows(live, disk, GivenSnapshot(edits[n])) ==> Visible(edits) == n + 1;
    assert SnapshotNext(disk, GivenSnapshot(edits[n])) == LastSnapshot(edits);
    var left := CrashInRequest(live, disk, GivenSnapshot(edits[n]), crash);
    fp := new Persister(crc, compact, left);
    cache := new Cache();
    assert fp.Shown() == Expected(edits[..seen]) || fp.Shown() == Expected(edits[..Visible(edits)]);
    var data := fp.ReadRaftState();
    ReadPrefix(gob, edits, seen);
    ReadPrefix(gob, edits, Visible(edits));
    cache.Restore(gob, data);
  }

  lemma ReadPrefix(gob: seq<byte> -> bool, edits: seq<Edit>, n: nat)
    requires n <= |edits| && TotalBytes(edits) < TWO63 && forall i | 0 <= i < |edits| :: EditOk(gob, edits[i])
    ensures |Expected(edits[..n]).state| < TWO63
    ensures Saved(edits[..n]) ==>
      var r := Decode(gob, Expected(edits[..n]).state); r.Accepted? && r.state == Edited(edits[..n])
    ensures !Saved(edits[..n]) ==> Decode(gob, Expected(edits[..n]).state) == Rejected && Edited(edits[..n]) == INITIAL
  {
    hide Saved, Encode, EditOk, TotalBytes, Edited, Decode, Expected;
    TotalBytesPrefix(edits, n);
    ReadBack(gob, edits[..n]);
    if !Saved(edits[..n]) { NeverEdited(edits[..n]); }
  }

  lemma {:induction false} NeverEdited(edits: seq<Edit>)
    requires !Saved(edits)
    ensures Edited(edits) == INITIAL
    decreases |edits|
  {
    if edits != [] {
      var n := |edits| - 1;
      assert edits[..n + 1] == edits;
      SavedStep(edits, n);
      NeverEdited(edits[..n]);
    }
  }

  lemma CutAboveDummy(gob: seq<byte> -> bool, e: Edit)
    requires EditOk(gob, e)
    ensures e.CutAppend? ==> e.cut >= 1
  {}

  /** Decoding what is expected on disk gives the edited state. */
  lemma ReadBack(gob: seq<byte> -> bool, edits: seq<Edit>)
    requires TotalBytes(edits) < TWO63 && forall i | 0 <= i < |edits| :: EditOk(gob, edits[i])
    ensures |Expected(edits).state| < TWO63
    ensures Saved(edits) ==>
      var r := Decode(gob, Expected(edits).state); r.Accepted? && r.state == Edited(edits)
    ensures !Saved(edits) ==> Decode(gob, Expected(edits).state) == Rejected
  {
    hide Saved, Encode, EditOk, TotalBytes, Edited, Decode;
    EditedFits(gob, edits);
    EditedSize(edits);
    if Saved(edits) {
      DecodeEncoded(gob, Edited(edits));
    } else {
      EmptyRejected(gob);
    }
  }

  lemma EmptyDisk(crc: Crc)
    ensures var d := Disk(map[], None);
      && Load(d) == EMPTY_MANIFEST && Consistent(d, Load(d)) && Clean(crc, d.files, Load(d))
      && ReadView(crc, d.files, Load(d)) == View([], [])
  {
    var files: Files := map[];
    assert IsBest(files, 0);
    BestUnique(files, 0, Best(files));
  }

  lemma PrefixStep(gob: seq<byte> -> bool, edits: seq<Edit>, i: nat)
    requires i < |edits| && TotalBytes(edits) < TWO63
    requires forall j | 0 <= j < |edits| :: EditOk(gob, edits[j])
    ensures Edited(edits[..i + 1]) == ApplyEdit(Edited(edits[..i]), edits[i])
    ensures |Encode(Edited(edits[..i]))| < TWO63 && |Encode(Edited(edits[..i + 1]))| < TWO63
    ensures Fits(gob, Edited(edits[..i])) && Edited(edits[..i]).log != []
    ensures EditOk(gob, edits[i])
    ensures Saved(edits[..i + 1]) == (Saved(edits[..i]) || !edits[i].Restart?)
    ensures LastSnapshot(edits[..i + 1]) == SnapshotAfter(LastSnapshot(edits[..i]), edits[i])
  {
    hide Encode, EncodeLog, Fits, EditOk, TotalBytes;
    assert edits[..i + 1][..i] == edits[..i];
    SavedStep(edits, i);
    TotalBytesPrefix(edits, i);
    TotalBytesPrefix(edits, i + 1);
    EditedSize(edits[..i]);
    EditedSize(edits[..i + 1]);
    EditedFits(gob, edits[..i]);
  }

  lemma SavedStep(edits: seq<Edit>, i: nat)
    requires i < |edits|
    ensures Saved(edits[..i + 1]) == (Saved(edits[..i]) || !edits[i].Restart?)
  {
    assert edits[..i + 1][i] == edits[i];
    assert forall j | 0 <= j < i :: edits[..i][j] == edits[..i + 1][j];
  }

  lemma {:induction false} TotalBytesPrefix(edits: seq<Edit>, i: nat)
    requires i <= |edits|
    ensures TotalBytes(edits[..i]) <= TotalBytes(edits)
    decreases |edits|
  {
    if i == |edits| {
      assert edits[..i] == edits;
    } else {
      var shorter := edits[..|edits| - 1];
      assert shorter[..i] == edits[..i];
      TotalBytesPrefix(shorter, i);
    }
  }
}
