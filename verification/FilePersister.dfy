/** The file persister (pkg/persister/file.go): numbered generations of base, delta and
    snapshot files behind a manifest. A durable write replaces one file atomically
    (temporary file, sync, rename). JSON is taken as faithful. */
module FilePersister {
  import opened Bytes
  import opened DeltaFrames
  import opened Options

  /** raft-state.bin, snapshot.bin and the numbered files of a generation. */
  datatype FileName = LegacyRaft | LegacySnapshot | Base(gen: nat) | Delta(gen: nat) | Snap(gen: nat)

  /** persisterManifest; an empty path is None. */
  datatype Manifest = Manifest(gen: nat, base: Option<FileName>, delta: Option<FileName>, snap: Option<FileName>)

  const EMPTY_MANIFEST := Manifest(0, None, None, None)

  type Files = map<FileName, seq<byte>>

  datatype Disk = Disk(files: Files, manifest: Option<Manifest>)

  datatype View = View(state: seq<byte>, snapshot: seq<byte>)

  // ---------------------------------------------------------------- reading

  /** os.ReadFile with the error dropped. */
  function Contents(files: Files, name: FileName): (b: seq<byte>) {
    if name in files then files[name] else []
  }

  function Path(rel: Option<FileName>, fallback: FileName): (p: FileName) {
    if rel.Some? then rel.value else fallback
  }

  function DeltaPath(m: Manifest): (p: Option<FileName>) {
    if m.delta.Some? then m.delta
    else if m.gen > 0 then Some(Delta(m.gen))
    else None
  }

  /** composeRaftState */
  function Compose(crc: Crc, base: seq<byte>, delta: seq<byte>): (s: seq<byte>) {
    if delta == [] then base else Replay(crc, base, delta).state
  }

  function ReadState(crc: Crc, files: Files, m: Manifest): (s: seq<byte>) {
    var base := Contents(files, Path(m.base, LegacyRaft));
    var delta := DeltaPath(m);
    if delta.None? then base else Compose(crc, base, Contents(files, delta.value))
  }

  function ReadSnapshot(files: Files, m: Manifest): (s: seq<byte>) {
    Contents(files, Path(m.snap, LegacySnapshot))
  }

  function ReadView(crc: Crc, files: Files, m: Manifest): (v: View) {
    View(ReadState(crc, files, m), ReadSnapshot(files, m))
  }

  // ---------------------------------------------------------------- loading

  predicate Complete(files: Files, gen: nat) {
    gen > 0 && Base(gen) in files && Snap(gen) in files
  }

  /** best is the highest generation with both a base and a snapshot file, or 0. */
  ghost predicate IsBest(files: Files, best: nat) {
    && (best > 0 ==> Complete(files, best))
    && (forall g: nat :: Complete(files, g) ==> g <= best)
  }

  ghost predicate BestAmong(files: Files, names: set<FileName>, best: nat) {
    && (best > 0 ==> Complete(files, best))
    && (forall g: nat :: Complete(files, g) && Base(g) in names ==> g <= best)
  }

  lemma {:induction false} BestExists(files: Files, names: set<FileName>)
    ensures exists best: nat :: BestAmong(files, names, best)
    decreases |names|
  {
    if names == {} {
      assert BestAmong(files, names, 0);
    } else {
      var n :| n in names;
      BestExists(files, names - {n});
      var best: nat :| BestAmong(files, names - {n}, best);
      var better := if n.Base? && Complete(files, n.gen) && n.gen > best then n.gen else best;
      assert forall g: nat :: Base(g) in names ==> Base(g) in names - {n} || Base(g) == n;
      assert BestAmong(files, names, better);
    }
  }

  ghost function Best(files: Files): (best: nat)
    ensures IsBest(files, best)
  {
    BestExists(files, files.Keys);
    var best: nat :| BestAmong(files, files.Keys, best);
    best
  }

  function ManifestOf(best: nat): (m: Manifest) {
    if best == 0 then EMPTY_MANIFEST else Manifest(best, Some(Base(best)), Some(Delta(best)), Some(Snap(best)))
  }

  /** discoverLatestCompleteGeneration: the directory is listed in any order. */
  method Discover(files: Files) returns (m: Manifest)
    ensures m == ManifestOf(Best(files))
  {
    var raftGens: set<nat> := {};
    var snapGens: set<nat> := {};
    var names := files.Keys;
    while names != {}
      invariant names <= files.Keys
      invariant forall g: nat :: g in raftGens <==> Base(g) in files.Keys - names
      invariant forall g: nat :: g in snapGens <==> Snap(g) in files.Keys - names
      decreases |names|
    {
      var n :| n in names;
      if n.Base? {
        raftGens := raftGens + {n.gen};
      } else if n.Snap? {
        snapGens := snapGens + {n.gen};
      }
      names := names - {n};
    }
    var best: nat := 0;
    var gens := raftGens;
    while gens != {}
      invariant gens <= raftGens
      invariant best > 0 ==> Complete(files, best)
      invariant forall g: nat :: g in raftGens - gens && Complete(files, g) ==> g <= best
      decreases |gens|
    {
      var g :| g in gens;
      gens := gens - {g};
      if g in snapGens && g > best {
        best := g;
      }
    }
    BestUnique(files, best, Best(files));
    m := ManifestOf(best);
  }

  lemma BestUnique(files: Files, a: nat, b: nat)
    requires IsBest(files, a) && IsBest(files, b)
    ensures a == b
  {}

  /** loadManifest's choice of the current generation. */
  ghost function Load(d: Disk): (m: Manifest) {
    if d.manifest.None? then ManifestOf(Best(d.files))
    else
      var m := d.manifest.value;
      if m.base.None? || m.snap.None? || m.base.value !in d.files || m.snap.value !in d.files
      then ManifestOf(Best(d.files))
      else m.(delta := if m.delta.Some? then m.delta else Some(Delta(m.gen)))
  }

  /** A generation whose files are missing is never chosen while a complete one exists: the
      manifest's choice stands exactly if its base and snapshot are there, and otherwise the
      highest complete generation is taken. */
  lemma LoadExact(d: Disk)
    ensures var m := Load(d);
      var named := d.manifest.Some? && d.manifest.value.base.Some? && d.manifest.value.snap.Some?
        && d.manifest.value.base.value in d.files && d.manifest.value.snap.value in d.files;
      && (named ==>
            m.gen == d.manifest.value.gen && m.base == d.manifest.value.base && m.snap == d.manifest.value.snap)
      && (!named ==> m.gen > 0 || m == EMPTY_MANIFEST)
      && (!named && m.gen > 0 ==>
            m.base == Some(Base(m.gen)) && m.snap == Some(Snap(m.gen)) && Complete(d.files, m.gen))
      && (!named ==> forall g: nat | Complete(d.files, g) :: g <= m.gen)
  {}

  // ---------------------------------------------------------------- generation switch

  datatype Write = WriteFile(name: FileName, data: seq<byte>) | WriteManifest(manifest: Manifest)

  function Perform(d: Disk, w: Write): (r: Disk) {
    match w
    case WriteFile(name, data) => d.(files := d.files[name := data])
    case WriteManifest(m) => d.(manifest := Some(m))
  }

  function PerformAll(d: Disk, ws: seq<Write>): (r: Disk) {
    if ws == [] then d else Perform(PerformAll(d, ws[..|ws| - 1]), ws[|ws| - 1])
  }

  function NextSnap(m: Manifest, snapshot: Option<seq<byte>>): (name: FileName) {
    if snapshot.None? && m.snap.Some? then m.snap.value else Snap(m.gen + 1)
  }

  function NextManifest(m: Manifest, snapshot: Option<seq<byte>>): (r: Manifest) {
    Manifest(m.gen + 1, Some(Base(m.gen + 1)), Some(Delta(m.gen + 1)), Some(NextSnap(m, snapshot)))
  }

  /** The durable writes of commitGeneration, in order. */
  function Writes(m: Manifest, state: seq<byte>, snapshot: Option<seq<byte>>): (ws: seq<Write>) {
    var next := m.gen + 1;
    [WriteFile(Base(next), state)]
    + (if snapshot.Some? then [WriteFile(Snap(next), snapshot.value)]
       else if m.snap.None? then [WriteFile(Snap(next), [])]
       else [])
    + [WriteFile(Delta(next), []), WriteManifest(NextManifest(m, snapshot))]
  }

  /** What a completed switch shows: the given snapshot, else the one the manifest
      names, else an empty one. */
  function Switched(files: Files, m: Manifest, state: seq<byte>, snapshot: Option<seq<byte>>): (v: View) {
    View(state, if snapshot.Some? then snapshot.value else if m.snap.Some? then ReadSnapshot(files, m) else [])
  }

  /** What every run of switches, appends, crashes and reloads keeps. */
  ghost predicate Consistent(d: Disk, m: Manifest) {
    && m == Load(d)
    && (m.gen == 0 ==> m == EMPTY_MANIFEST)
    && (m.gen > 0 ==>
        && m.base == Some(Base(m.gen)) && m.delta == Some(Delta(m.gen))
        && m.snap.Some? && m.snap.value.Snap? && m.snap.value.gen <= m.gen
        && Base(m.gen) in d.files && m.snap.value in d.files)
    && (d.manifest.Some? ==> d.manifest == Some(m) && m.gen > 0)
    && (d.manifest.None? ==> forall g: nat | g > m.gen :: Snap(g) !in d.files)
    && (forall g: nat | g > m.gen :: Contents(d.files, Delta(g)) == [])
  }

  lemma PerformNext(d: Disk, ws: seq<Write>, k: nat)
    requires k < |ws|
    ensures PerformAll(d, ws[..k + 1]) == Perform(PerformAll(d, ws[..k]), ws[k])
  {
    assert ws[..k + 1][..k] == ws[..k];
  }

  /** The base file of the next generation is not yet visible. */
  lemma BaseWritten(d: Disk, m: Manifest, state: seq<byte>)
    requires Consistent(d, m)
    ensures var d' := Perform(d, WriteFile(Base(m.gen + 1), state));
      Consistent(d', m) && forall crc: Crc :: ReadView(crc, d'.files, m) == ReadView(crc, d.files, m)
  {
    hide Compose;
    var d' := Perform(d, WriteFile(Base(m.gen + 1), state));
    if d.manifest.None? {
      assert forall g: nat :: Complete(d'.files, g) <==> Complete(d.files, g);
      BestUnique(d.files, Best(d.files), Best(d'.files));
    }
  }

  /** The snapshot of the next generation becomes visible only without a manifest,
      and then together with its base. */
  lemma SnapWritten(d: Disk, m: Manifest, snapshot: seq<byte>)
    requires Consistent(d, m) && Base(m.gen + 1) in d.files
    ensures var d' := Perform(d, WriteFile(Snap(m.gen + 1), snapshot));
      if d.manifest.Some? then
        Consistent(d', m) && forall crc: Crc :: ReadView(crc, d'.files, m) == ReadView(crc, d.files, m)
      else
        var m' := ManifestOf(m.gen + 1);
        Consistent(d', m') && forall crc: Crc :: ReadView(crc, d'.files, m') == View(d.files[Base(m.gen + 1)], snapshot)
  {
    hide Replay;
    var d' := Perform(d, WriteFile(Snap(m.gen + 1), snapshot));
    if d.manifest.None? {
      assert Complete(d'.files, m.gen + 1);
      assert IsBest(d'.files, m.gen + 1);
      BestUnique(d'.files, m.gen + 1, Best(d'.files));
    }
  }

  /** An empty delta file of a generation that has none yet changes nothing. */
  lemma DeltaWritten(d: Disk, m: Manifest, gen: nat)
    requires Consistent(d, m) && gen >= m.gen && Contents(d.files, Delta(gen)) == []
    ensures var d' := Perform(d, WriteFile(Delta(gen), []));
      Consistent(d', m) && forall crc: Crc :: ReadView(crc, d'.files, m) == ReadView(crc, d.files, m)
  {
    hide Replay;
    var d' := Perform(d, WriteFile(Delta(gen), []));
    if d.manifest.None? {
      assert forall g: nat :: Complete(d'.files, g) <==> Complete(d.files, g);
      BestUnique(d.files, Best(d.files), Best(d'.files));
    }
  }

  lemma ManifestWritten(d: Disk, m: Manifest)
    requires m.gen > 0 && m.base == Some(Base(m.gen)) && m.delta == Some(Delta(m.gen))
    requires m.snap.Some? && m.snap.value.Snap? && m.snap.value.gen <= m.gen
    requires Base(m.gen) in d.files && m.snap.value in d.files
    requires forall g: nat | g >= m.gen :: Contents(d.files, Delta(g)) == []
    ensures var d' := Perform(d, WriteManifest(m));
      && Consistent(d', m)
      && forall crc: Crc :: ReadView(crc, d'.files, m) == View(d.files[Base(m.gen)], d.files[m.snap.value])
  {
    hide Replay;
  }

  /** Whether the first k writes of a switch already show the new generation: only the
      manifest does, unless there is none yet, when base and snapshot together do. */
  predicate SwitchVisible(d: Disk, m: Manifest, snapshot: Option<seq<byte>>, k: nat) {
    if d.manifest.None? && (snapshot.Some? || m.snap.None?) then k >= 2 else k >= |Writes(m, [], snapshot)|
  }

  /** Crash atomicity: stopping after any number of commitGeneration's durable writes and
      reloading shows exactly the old pair or exactly the new one, and leaves a disk on
      which the next switch is crash-atomic again. */
  lemma CrashAtomic(crc: Crc, d: Disk, m: Manifest, state: seq<byte>, snapshot: Option<seq<byte>>, k: nat)
    requires Consistent(d, m) && k <= |Writes(m, state, snapshot)|
    ensures var d' := PerformAll(d, Writes(m, state, snapshot)[..k]);
      && Consistent(d', Load(d'))
      && ReadView(crc, d'.files, Load(d')) ==
           (if SwitchVisible(d, m, snapshot, k) then Switched(d.files, m, state, snapshot)
             else ReadView(crc, d.files, m))
      && (k == |Writes(m, state, snapshot)| ==> Load(d') == NextManifest(m, snapshot))
  {
    hide Consistent, ReadView, Perform, Load, Switched, NextManifest;
    var ws := Writes(m, state, snapshot);
    assert ws[..0] == [];
    if k > 0 { PerformNext(d, ws, 0); }
    if k > 1 { PerformNext(d, ws, 1); }
    if k > 2 { PerformNext(d, ws, 2); }
    if k > 3 { PerformNext(d, ws, 3); }
    BaseWritten(d, m, state);
    if snapshot.Some? || m.snap.None? {
      StagesWithSnapshot(crc, d, m, state, snapshot);
    } else {
      StagesWithoutSnapshot(crc, d, m, state);
    }
    if k == 0 {
      LoadOf(d, m);
    } else if k == 1 {
      LoadOf(Perform(d, ws[0]), m);
    }
  }

  ghost predicate Shows(crc: Crc, d: Disk, v: View) {
    Consistent(d, Load(d)) && ReadView(crc, d.files, Load(d)) == v
  }

  lemma StagesWithoutSnapshot(crc: Crc, d: Disk, m: Manifest, state: seq<byte>)
    requires Consistent(d, m) && m.snap.Some?
    ensures var ws := Writes(m, state, None);
      var d2 := Perform(Perform(d, ws[0]), ws[1]);
      var d3 := Perform(d2, ws[2]);
      && Shows(crc, d2, ReadView(crc, d.files, m))
      && Shows(crc, d3, Switched(d.files, m, state, None)) && Load(d3) == NextManifest(m, None)
  {
    hide ReadView, Replay, Load;
    var ws := Writes(m, state, None);
    var d1 := Perform(d, ws[0]);
    BaseWritten(d, m, state);
    var d2 := Perform(d1, ws[1]);
    DeltaWritten(d1, m, m.gen + 1);
    LoadOf(d2, m);
    var next := NextManifest(m, None);
    ManifestWritten(d2, next);
    LoadOf(Perform(d2, ws[2]), next);
  }

  lemma StagesWithSnapshot(crc: Crc, d: Disk, m: Manifest, state: seq<byte>, snapshot: Option<seq<byte>>)
    requires Consistent(d, m) && (snapshot.Some? || m.snap.None?)
    ensures var ws := Writes(m, state, snapshot);
      var d2 := Perform(Perform(d, ws[0]), ws[1]);
      var d3 := Perform(d2, ws[2]);
      var d4 := Perform(d3, ws[3]);
      var before := if d.manifest.Some? then ReadView(crc, d.files, m) else Switched(d.files, m, state, snapshot);
      && Shows(crc, d2, before) && Shows(crc, d3, before)
      && Shows(crc, d4, Switched(d.files, m, state, snapshot)) && Load(d4) == NextManifest(m, snapshot)
  {
    hide ReadView, Replay, Load;
    var ws := Writes(m, state, snapshot);
    var data := if snapshot.Some? then snapshot.value else [];
    var d1 := Perform(d, ws[0]);
    BaseWritten(d, m, state);
    var d2 := Perform(d1, ws[1]);
    SnapWritten(d1, m, data);
    var now := if d.manifest.Some? then m else ManifestOf(m.gen + 1);
    LoadOf(d2, now);
    var d3 := Perform(d2, ws[2]);
    DeltaWritten(d2, now, m.gen + 1);
    LoadOf(d3, now);
    var next := NextManifest(m, snapshot);
    ManifestWritten(d3, next);
    LoadOf(Perform(d3, ws[3]), next);
  }

  /** A switch without a snapshot keeps the current one, except that the first
      generation drops a snapshot.bin left by the unnumbered layout. */
  lemma SnapshotKept(d: Disk, m: Manifest, state: seq<byte>)
    requires Consistent(d, m)
    ensures Switched(d.files, m, state, None).snapshot == ReadSnapshot(d.files, m)
      <==> m.gen > 0 || Contents(d.files, LegacySnapshot) == []
  {
    hide Load;
  }

  /** A directory with nothing but an unnumbered snapshot: the first save without a snapshot
      loses it. */
  lemma SnapshotDropped(state: seq<byte>)
    ensures var d := Disk(map[LegacySnapshot := [1]], None);
      && Consistent(d, EMPTY_MANIFEST)
      && ReadSnapshot(d.files, EMPTY_MANIFEST) == [1]
      && Switched(d.files, EMPTY_MANIFEST, state, None).snapshot == []
  {
    var d := Disk(map[LegacySnapshot := [1]], None);
    assert IsBest(d.files, 0);
    BestUnique(d.files, 0, Best(d.files));
  }

  lemma LoadOf(d: Disk, m: Manifest)
    requires Consistent(d, m)
    ensures Load(d) == m
  {}

  /** The current delta file ends with a complete frame. */
  ghost predicate Clean(crc: Crc, files: Files, m: Manifest) {
    m.gen > 0 ==>
      var delta := Contents(files, Delta(m.gen));
      Replay(crc, Contents(files, Base(m.gen)), delta).offset == |delta|
  }

  lemma EmptyDelta(crc: Crc, base: seq<byte>)
    ensures Replay(crc, base, []) == Replayed(base, 0)
  {}

  /** Appending chained frames to a clean delta file applies them to the state read. */
  lemma FramesAppended(crc: Crc, base: seq<byte>, delta: seq<byte>, payloads: seq<seq<byte>>)
    requires Replay(crc, base, delta).offset == |delta|
    requires Chained(Compose(crc, base, delta), payloads)
    ensures var delta' := delta + File(crc, payloads);
      && Replay(crc, base, delta').offset == |delta'|
      && Compose(crc, base, delta') == ApplyAll(Compose(crc, base, delta), payloads)
  {
    hide ReplayOne, Frame, ApplyPayload;
    EmptyDelta(crc, base);
    ReplayAppended(crc, base, delta, File(crc, payloads));
    ReplayWhole(crc, Replay(crc, base, delta).state, payloads);
    assert delta == [] ==> delta + File(crc, payloads) == File(crc, payloads);
  }

  /** A frame that replay stops at, whole or torn, leaves a clean file reading as before. */
  lemma FrameLost(crc: Crc, base: seq<byte>, delta: seq<byte>, bytes: seq<byte>)
    requires Replay(crc, base, delta).offset == |delta|
    requires ReplayOne(crc, Compose(crc, base, delta), bytes) == Stop
    ensures Compose(crc, base, delta + bytes) == Compose(crc, base, delta)
  {
    hide ReplayOne;
    EmptyDelta(crc, base);
    ReplayAppended(crc, base, delta, bytes);
    assert delta == [] ==> delta + bytes == bytes;
  }

  /** After a crash inside a frame, reopening keeps its bytes, so later frames are not read: the
      file shows the state before the crash until the next generation, or until it is long
      enough for the length the torn header seems to state. */
  lemma TornHides(crc: Crc, base: seq<byte>, delta: seq<byte>, torn: seq<byte>, n: nat, later: seq<seq<byte>>)
    requires Replay(crc, base, delta).offset == |delta|
    requires |torn| < TWO32 && 0 < n < FRAME_HEADER + |torn|
    requires n < 4 || n + |File(crc, later)| < FRAME_HEADER + if n < 8 then MIXED_LENGTH else |torn|
    ensures Compose(crc, base, delta + Frame(crc, torn)[..n] + File(crc, later)) == Compose(crc, base, delta)
  {
    hide Replay, ReplayOne, Frame, File, Compose;
    HiddenBehindTorn(crc, Compose(crc, base, delta), torn, n, later);
    FrameLost(crc, base, delta, Frame(crc, torn)[..n] + File(crc, later));
    assert delta + (Frame(crc, torn)[..n] + File(crc, later)) == delta + Frame(crc, torn)[..n] + File(crc, later);
  }

  /** Whatever is appended to the delta file changes nothing. */
  ghost predicate Blocked(crc: Crc, base: seq<byte>, delta: seq<byte>) {
    forall more: seq<byte> :: Compose(crc, base, delta + more) == Compose(crc, base, delta)
  }

  /** Behind a frame that replay stops at, whatever follows, nothing is read. */
  lemma FrameBlocks(crc: Crc, base: seq<byte>, delta: seq<byte>, frame: seq<byte>)
    requires Replay(crc, base, delta).offset == |delta|
    requires forall more: seq<byte> :: ReplayOne(crc, Compose(crc, base, delta), frame + more) == Stop
    ensures Compose(crc, base, delta + frame) == Compose(crc, base, delta)
    ensures Blocked(crc, base, delta + frame)
  {
    hide ReplayOne, Compose;
    assert frame + [] == frame;
    FrameLost(crc, base, delta, frame);
    forall more: seq<byte>
      ensures Compose(crc, base, delta + frame + more) == Compose(crc, base, delta + frame)
    {
      FrameLost(crc, base, delta, frame + more);
      assert delta + (frame + more) == delta + frame + more;
    }
  }

  lemma BlockedStays(crc: Crc, base: seq<byte>, delta: seq<byte>, bytes: seq<byte>)
    requires Blocked(crc, base, delta)
    ensures Compose(crc, base, delta + bytes) == Compose(crc, base, delta)
    ensures Blocked(crc, base, delta + bytes)
  {
    hide Compose;
    forall more: seq<byte>
      ensures Compose(crc, base, delta + bytes + more) == Compose(crc, base, delta + bytes)
    {
      assert delta + bytes + more == delta + (bytes + more);
    }
  }

  /** The frame will not be read behind this file, nor any part of it. */
  ghost predicate Unread(crc: Crc, base: seq<byte>, delta: seq<byte>, frame: seq<byte>) {
    || Blocked(crc, base, delta)
    || (Replay(crc, base, delta).offset == |delta| && ReplayOne(crc, Compose(crc, base, delta), frame) == Stop)
  }

  lemma UnreadPart(crc: Crc, base: seq<byte>, delta: seq<byte>, frame: seq<byte>, n: nat)
    requires Unread(crc, base, delta, frame) && n <= |frame|
    ensures Compose(crc, base, delta + frame[..n]) == Compose(crc, base, delta)
  {
    hide ReplayOne, Compose;
    if !Blocked(crc, base, delta) {
      PrefixStops(crc, Compose(crc, base, delta), frame, n);
      FrameLost(crc, base, delta, frame[..n]);
    }
  }

  // ---------------------------------------------------------------- crashes inside one request

  /** Where a crash interrupts a request: among the bytes of its frame, or among the durable
      writes of a switch, be it a full save or the compaction behind a frame. */
  datatype Crash = InFrame(bytes: nat) | InSwitch(writes: nat)

  function FirstOf<T>(s: seq<T>, n: nat): (r: seq<T>) {
    if n <= |s| then s[..n] else s
  }

  function Grown(d: Disk, m: Manifest, bytes: seq<byte>): (r: Disk) {
    d.(files := d.files[Delta(m.gen) := Contents(d.files, Delta(m.gen)) + bytes])
  }

  /** The disk after a crash while a frame was appended or compacted away. */
  function CrashedAppend(crc: Crc, d: Disk, m: Manifest, payload: seq<byte>, crash: Crash): (r: Disk) {
    match crash
    case InFrame(n) => Grown(d, m, FirstOf(Frame(crc, payload), n))
    case InSwitch(k) =>
      var whole := Grown(d, m, Frame(crc, payload));
      PerformAll(whole, FirstOf(Writes(m, ReadState(crc, whole.files, m), None), k))
  }

  /** The disk after a crash during a full save. */
  function CrashedSave(d: Disk, m: Manifest, state: seq<byte>, snapshot: Option<seq<byte>>, crash: Crash): (r: Disk) {
    match crash
    case InFrame(_) => d
    case InSwitch(k) => PerformAll(d, FirstOf(Writes(m, state, snapshot), k))
  }

  /** A crash at any byte of an append or at any write of the compaction shows the state before
      the append or the state after it, with the same snapshot. */
  lemma AppendCrashes(crc: Crc, d: Disk, m: Manifest, payload: seq<byte>, crash: Crash)
    requires Consistent(d, m) && m.gen > 0 && Clean(crc, d.files, m)
    requires |payload| < TWO32 && ApplyPayload(ReadState(crc, d.files, m), payload).Applied?
    ensures var d' := CrashedAppend(crc, d, m, payload, crash);
      var before := ReadView(crc, d.files, m);
      var next := View(ApplyPayload(before.state, payload).state, before.snapshot);
      Consistent(d', Load(d')) && ReadView(crc, d'.files, Load(d')) in {before, next}
  {
    hide Replay, ReplayOne, ApplyPayload, Load, Frame, PerformAll, Writes, Consistent;
    NamedFiles(d, m);
    var base, delta := Contents(d.files, Base(m.gen)), Contents(d.files, Delta(m.gen));
    var frame := Frame(crc, payload);
    var state := Compose(crc, base, delta);
    match crash
    case InFrame(n) =>
      var bytes := FirstOf(frame, n);
      DeltaGrown(crc, d, m, delta + bytes);
      LoadOf(Grown(d, m, bytes), m);
      if n < |frame| {
        TornFrame(crc, state, payload, n);
        FrameLost(crc, base, delta, bytes);
      } else {
        assert bytes == frame;
        FrameRead(crc, base, delta, payload);
      }
    case InSwitch(k) =>
      var whole := Grown(d, m, frame);
      DeltaGrown(crc, d, m, delta + frame);
      FrameRead(crc, base, delta, payload);
      var ws := Writes(m, ReadState(crc, whole.files, m), None);
      var j := if k <= |ws| then k else |ws|;
      assert FirstOf(ws, k) == ws[..j];
      CrashAtomic(crc, whole, m, ReadState(crc, whole.files, m), None, j);
  }

  /** A crash while an unread frame is appended, or compacted away, shows what was shown. */
  lemma UnreadCrashes(crc: Crc, d: Disk, m: Manifest, payload: seq<byte>, crash: Crash)
    requires Consistent(d, m) && m.gen > 0
    requires Unread(crc, Contents(d.files, Base(m.gen)), Contents(d.files, Delta(m.gen)), Frame(crc, payload))
    ensures var d' := CrashedAppend(crc, d, m, payload, crash);
      Consistent(d', Load(d')) && ReadView(crc, d'.files, Load(d')) == ReadView(crc, d.files, m)
  {
    hide Replay, ReplayOne, Load, Frame, PerformAll, Writes, Consistent, Compose, Unread;
    NamedFiles(d, m);
    var base, delta := Contents(d.files, Base(m.gen)), Contents(d.files, Delta(m.gen));
    var frame := Frame(crc, payload);
    assert frame[..|frame|] == frame;
    match crash
    case InFrame(n) =>
      var bytes := FirstOf(frame, n);
      DeltaGrown(crc, d, m, delta + bytes);
      LoadOf(Grown(d, m, bytes), m);
      UnreadPart(crc, base, delta, frame, if n <= |frame| then n else |frame|);
      DeltaComposed(crc, d, m);
    case InSwitch(k) =>
      var whole := Grown(d, m, frame);
      DeltaGrown(crc, d, m, delta + frame);
      UnreadPart(crc, base, delta, frame, |frame|);
      DeltaComposed(crc, d, m);
      var ws := Writes(m, ReadState(crc, whole.files, m), None);
      var j := if k <= |ws| then k else |ws|;
      assert FirstOf(ws, k) == ws[..j];
      CrashAtomic(crc, whole, m, ReadState(crc, whole.files, m), None, j);
  }

  lemma DeltaComposed(crc: Crc, d: Disk, m: Manifest)
    requires Consistent(d, m) && m.gen > 0
    ensures ReadState(crc, d.files, m) ==
      Compose(crc, Contents(d.files, Base(m.gen)), Contents(d.files, Delta(m.gen)))
  {
    hide Compose, Load;
  }

  lemma NamedFiles(d: Disk, m: Manifest)
    requires Consistent(d, m) && m.gen > 0
    ensures m.base == Some(Base(m.gen)) && m.delta == Some(Delta(m.gen)) && m.snap.Some?
  {}

  lemma FrameRead(crc: Crc, base: seq<byte>, delta: seq<byte>, payload: seq<byte>)
    requires Replay(crc, base, delta).offset == |delta| && |payload| < TWO32
    requires ApplyPayload(Compose(crc, base, delta), payload).Applied?
    ensures Compose(crc, base, delta + Frame(crc, payload)) == ApplyPayload(Compose(crc, base, delta), payload).state
  {
    hide ReplayOne, ApplyPayload, Frame;
    var state := Compose(crc, base, delta);
    EmptyDelta(crc, base);
    ReplayAppended(crc, base, delta, Frame(crc, payload));
    ReplayFrame(crc, state, payload, []);
    assert Frame(crc, payload) + [] == Frame(crc, payload);
    assert Frame(crc, payload)[FRAME_HEADER + |payload|..] == [];
    EmptyDelta(crc, ApplyPayload(state, payload).state);
    assert delta == [] ==> delta + Frame(crc, payload) == Frame(crc, payload);
  }

  /** A crash at any write of a full save shows the old pair or the new one. */
  lemma SaveCrashes(crc: Crc, d: Disk, m: Manifest, state: seq<byte>, snapshot: Option<seq<byte>>, crash: Crash)
    requires Consistent(d, m)
    ensures var d' := CrashedSave(d, m, state, snapshot, crash);
      && Consistent(d', Load(d'))
      && ReadView(crc, d'.files, Load(d')) in {ReadView(crc, d.files, m), Switched(d.files, m, state, snapshot)}
  {
    hide Consistent, ReadView, Load, PerformAll, Writes, Switched;
    match crash
    case InFrame(_) => LoadOf(d, m);
    case InSwitch(k) =>
      var ws := Writes(m, state, snapshot);
      var j := if k <= |ws| then k else |ws|;
      assert FirstOf(ws, k) == ws[..j];
      CrashAtomic(crc, d, m, state, snapshot, j);
  }

  /** The frames of a batch written one after the other behind what the file holds. */
  method WriteFrames(crc: Crc, delta: seq<byte>, payloads: seq<seq<byte>>) returns (written: seq<byte>)
    ensures written == delta + File(crc, payloads)
  {
    hide Frame;
    written := delta;
    assert payloads[..0] == [];
    for i := 0 to |payloads|
      invariant written == delta + File(crc, payloads[..i])
    {
      FileSnoc(crc, payloads[..i], payloads[i]);
      assert payloads[..i + 1] == payloads[..i] + [payloads[i]];
      written := written + Frame(crc, payloads[i]);
    }
    assert payloads[..|payloads|] == payloads;
  }

  class Persister {
    const crc: Crc
    const deltaCompactBytes: int
    var files: Files
    var manifestFile: Option<Manifest>
    var manifest: Manifest

    ghost function OnDisk(): (d: Disk)
      reads this
    {
      Disk(files, manifestFile)
    }

    ghost predicate Valid()
      reads this
    {
      Consistent(OnDisk(), manifest)
    }

    ghost function Shown(): (v: View)
      reads this
    {
      ReadView(crc, files, manifest)
    }

    /** NewFilePersister and loadManifest, on any disk: without a manifest, or with one that
        names no or missing files, the generation is discovered; a missing delta file is
        recreated; and what is read is what Load says. */
    constructor (crc: Crc, compact: int, d: Disk)
      ensures manifest == Load(d) && Shown() == ReadView(crc, d.files, Load(d))
      ensures this.crc == crc && deltaCompactBytes == compact && manifestFile == d.manifest
      ensures Consistent(d, Load(d)) ==> Valid()
      ensures Consistent(d, Load(d)) && Clean(crc, d.files, Load(d)) ==> Clean(crc, files, manifest)
    {
      hide Replay, ReplayOne, Best;
      this.crc, deltaCompactBytes := crc, compact;
      files, manifestFile := d.files, d.manifest;
      new;
      if d.manifest.None? {
        manifest := Discover(d.files);
        return;
      }
      var m := d.manifest.value;
      if m.base.None? || m.snap.None? || m.base.value !in d.files || m.snap.value !in d.files {
        manifest := Discover(d.files);
        return;
      }
      if m.delta.None? {
        m := m.(delta := Some(Delta(m.gen)));
      }
      if m.delta.value !in files {
        if Consistent(d, Load(d)) {
          DeltaWritten(d, m, m.gen);
        }
        files := files[m.delta.value := []];
      }
      manifest := m;
    }

    method ReadRaftState() returns (state: seq<byte>)
      ensures state == Shown().state
    {
      var base := Contents(files, Path(manifest.base, LegacyRaft));
      var delta := DeltaPath(manifest);
      if delta.None? || Contents(files, delta.value) == [] {
        return base;
      }
      var offset;
      state, offset := ReplayDeltaFrames(crc, base, Contents(files, delta.value));
    }

    /** commitGeneration */
    method CommitGeneration(state: seq<byte>, snapshot: Option<seq<byte>>)
      requires Valid()
      modifies this
      ensures Valid() && Clean(crc, files, manifest)
      ensures OnDisk() == PerformAll(old(OnDisk()), Writes(old(manifest), state, snapshot))
      ensures Shown() == Switched(old(files), old(manifest), state, snapshot)
      ensures manifest == NextManifest(old(manifest), snapshot)
    {
      hide Consistent, ReadView, Load, Replay, Perform, PerformAll;
      ghost var d, m := OnDisk(), manifest;
      ghost var ws := Writes(m, state, snapshot);
      assert ws[..|ws|] == ws;
      CrashAtomic(crc, d, m, state, snapshot, |ws|);
      SwitchResult(d, m, state, snapshot);
      EmptyDelta(crc, state);

      var next := manifest.gen + 1;
      var snapRel := manifest.snap;
      files := files[Base(next) := state];
      if snapshot.Some? {
        snapRel := Some(Snap(next));
        files := files[Snap(next) := snapshot.value];
      }
      if snapRel.None? {
        snapRel := Some(Snap(next));
        files := files[Snap(next) := []];
      }
      files := files[Delta(next) := []];
      var updated := Manifest(next, Some(Base(next)), Some(Delta(next)), snapRel);
      manifestFile := Some(updated);
      manifest := updated;
    }

    /** The base and delta files of the current generation, read as one state. */
    ghost function Composed(more: seq<byte>): (state: seq<byte>)
      reads this
    {
      Compose(crc, Contents(files, Base(manifest.gen)), Contents(files, Delta(manifest.gen)) + more)
    }

    /** The first half of commitAppendRaftState: frames go behind the current delta file,
        whatever they hold; chained ones behind a complete frame are all applied. */
    method AppendFrames(payloads: seq<seq<byte>>) returns (size: nat)
      requires Valid() && manifest.gen > 0
      modifies this`files
      ensures Valid() && size == |Contents(files, Delta(manifest.gen))|
      ensures Contents(files, Base(manifest.gen)) == old(Contents(files, Base(manifest.gen)))
      ensures Contents(files, Delta(manifest.gen)) == old(Contents(files, Delta(manifest.gen))) + File(crc, payloads)
      ensures Shown() == View(old(Composed(File(crc, payloads))), old(Shown().snapshot))
      ensures old(Clean(crc, files, manifest)) && Chained(old(Shown().state), payloads) ==>
        Clean(crc, files, manifest) && Shown().state == ApplyAll(old(Shown().state), payloads)
    {
      hide Replay, Chained, ApplyAll, Load;
      var path := Delta(manifest.gen);
      ghost var base, delta := Contents(files, Base(manifest.gen)), Contents(files, path);
      EmptyDelta(crc, base);
      if Clean(crc, files, manifest) && Chained(Shown().state, payloads) {
        FramesAppended(crc, base, delta, payloads);
      }
      var written := WriteFrames(crc, Contents(files, path), payloads);
      DeltaGrown(crc, OnDisk(), manifest, written);
      files := files[path := written];
      size := |written|;
    }

    /** The end of commitAppendRaftState: a large delta file is folded into a new base. */
    method CompactIfLarge(size: nat)
      requires Valid() && manifest.gen > 0
      modifies this
      ensures Valid() && Shown() == old(Shown())
      ensures manifest.gen ==
        old(manifest.gen) + if 0 < deltaCompactBytes <= size && old(Shown().state) != [] then 1 else 0
      ensures old(Clean(crc, files, manifest)) ==> Clean(crc, files, manifest)
      ensures Clean(crc, files, manifest) || (manifest == old(manifest) && files == old(files))
    {
      hide Replay, Load, ReadState;
      if deltaCompactBytes > 0 && size >= deltaCompactBytes {
        var state := ReadRaftState();
        if |state| > 0 {
          CommitGeneration(state, None);
        }
      }
    }

    /** commitAppendRaftState: there must be a delta file; what is then read back is the old
        files with the new frames behind them, compacted or not, and for chained frames
        exactly the state they lead to. */
    method CommitAppend(payloads: seq<seq<byte>>) returns (ok: bool)
      requires Valid()
      modifies this
      ensures Valid() && manifest.gen >= old(manifest.gen)
      ensures ok <==> payloads == [] || old(manifest.gen) > 0
      ensures payloads == [] || !ok ==> Shown() == old(Shown())
      ensures payloads != [] && ok ==> Shown() == View(old(Composed(File(crc, payloads))), old(Shown().snapshot))
      ensures ok && old(Clean(crc, files, manifest)) && Chained(old(Shown().state), payloads) ==>
        Clean(crc, files, manifest) && Shown().state == ApplyAll(old(Shown().state), payloads)
      ensures ok && payloads != [] ==>
        || Clean(crc, files, manifest)
        || (&& manifest == old(manifest)
            && Contents(files, Base(manifest.gen)) == old(Contents(files, Base(manifest.gen)))
            && Contents(files, Delta(manifest.gen)) == old(Contents(files, Delta(manifest.gen))) + File(crc, payloads))
    {
      hide Replay, Chained, ApplyAll, Load, ReadView, Compose;
      if payloads == [] {
        NothingToApply(Shown().state);
        return true;
      }
      if DeltaPath(manifest).None? {
        return false; // opening an empty path fails
      }
      var size := AppendFrames(payloads);
      CompactIfLarge(size);
      return true;
    }
  }

  lemma NothingToApply(state: seq<byte>)
    ensures ApplyAll(state, []) == state
  {}

  /** Rewriting the current delta file touches neither the generation nor the snapshot. */
  lemma DeltaGrown(crc: Crc, d: Disk, m: Manifest, written: seq<byte>)
    requires Consistent(d, m) && m.gen > 0
    ensures var files' := d.files[Delta(m.gen) := written];
      && Consistent(Disk(files', d.manifest), m)
      && ReadView(crc, files', m) ==
           View(Compose(crc, Contents(d.files, Base(m.gen)), written), ReadSnapshot(d.files, m))
      && Contents(files', Base(m.gen)) == Contents(d.files, Base(m.gen))
  {
    hide Replay;
    var files' := d.files[Delta(m.gen) := written];
    if d.manifest.None? {
      assert forall g: nat :: Complete(files', g) <==> Complete(d.files, g);
      BestUnique(d.files, Best(d.files), Best(files'));
    }
  }

  /** The files after all writes of a switch. */
  lemma SwitchResult(d: Disk, m: Manifest, state: seq<byte>, snapshot: Option<seq<byte>>)
    ensures var next := m.gen + 1;
      var f1 := d.files[Base(next) := state];
      var f2 :=
        if snapshot.Some? then f1[Snap(next) := snapshot.value]
        else if m.snap.None? then f1[Snap(next) := []]
        else f1;
      PerformAll(d, Writes(m, state, snapshot)) == Disk(f2[Delta(next) := []], Some(NextManifest(m, snapshot)))
  {
    hide PerformAll;
    var ws := Writes(m, state, snapshot);
    if |ws| == 3 {
      ThreeWrites(d, ws);
    } else {
      FourWrites(d, ws);
    }
  }

  lemma ThreeWrites(d: Disk, ws: seq<Write>)
    requires |ws| == 3
    ensures PerformAll(d, ws) == Perform(Perform(Perform(d, ws[0]), ws[1]), ws[2])
  {
    hide Perform;
    assert ws[..0] == [] && ws[..3] == ws;
    PerformNext(d, ws, 0);
    PerformNext(d, ws, 1);
    PerformNext(d, ws, 2);
  }

  lemma FourWrites(d: Disk, ws: seq<Write>)
    requires |ws| == 4
    ensures PerformAll(d, ws) == Perform(Perform(Perform(Perform(d, ws[0]), ws[1]), ws[2]), ws[3])
  {
    hide Perform;
    ThreeWrites(d, ws[..3]);
    assert ws[..4] == ws;
    PerformNext(d, ws, 3);
  }
}
