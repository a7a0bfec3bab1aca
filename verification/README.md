# OrbisKV: a verified model of its protocols and its persistence

OrbisKV is a sharded key-value store with its own Raft, an incremental crash-safe persister
under it and cross-group two-phase commit above it. This project models the parts whose
correctness cannot be read off one function and proves what they promise. The main theorems are
for every input, every reachable state or every run; the models follow the code, also where
its comments promise something else.

Imperative code is modelled imperatively: `PersistCache.Cache`, `FilePersister.Persister`,
`RaftNode.Raft`, `TxManager.Manager`, `TxHandle.Handle` and `Topology.ShardTopology` are
classes whose methods keep the source's loops and in-place updates, each proved against a
function on values; protocol runs are state machines over those functions.

| files | part |
|---|---|
| Bytes, PersistFormat, PersistCache, DeltaFrames, FilePersister, Durable | the persisted Raft state: byte format, cached incremental encoding, delta frames, generations on disk, and their composition over whole runs |
| RaftHandlers, RaftNode, LogRepair | the Raft handlers, as functions and as the object that runs them; log repair |
| RaftSystem, RaftBallots, RaftElections, RaftElectionSteps, RaftSafety, RaftVotes, RaftWrites, RaftCommitRun | a cluster with asynchronous writes to two files, message loss, delay and restart; election safety, Log Matching, commit indexes, who gets votes, what restarts keep |
| Store, TxGroup, TxAnswers, TxManager, TxHandle, TxReuse | compare-and-set batches; one group's transaction handlers and what their answers mean; the client's handle and what happens if it goes on after Rollback |
| TxLocal, TxProtocol, TxRuns, TxAgreement, TxReads, TxSplit | two-phase commit between groups: effects exactly once, agreement and exactly when it holds, validated reads, no stranded participant |
| TxLocks, TxRebuild, TxPending, TxForgottenLock, TxOvertaken | the lock table, its rebuild after a restart, when prepared write sets stay valid, and two runs that break locks and validity |
| WalEntries, WalRecovery | the write-ahead log and recovery over a store that is already ahead |
| Topology | shard ownership and expansion planning |
| Options, Sets, Ordering | small shared definitions |

`dafny verify dfyconfig.toml` checks everything.

## How the parts are modelled

- A Raft log before compaction keeps a dummy entry of term 0 at position 0. A cluster step is
  one handler call, one write reaching a file, or a restart. History fields record votes cast,
  leaderships and canonical logs; no handler reads them. Vote requests and replies are
  delivered at most once, appends any number of times.
- An append may be sent by any node from its own log under its current term, so the runs
  include messages of a node that has just stepped down. A leader may commit any further index
  of its log, which includes whatever its count of acknowledgements picks; the runs therefore
  also include senders whose commit index lies beyond their log.
- The disk is a map from file names to bytes plus a manifest; one durable write (temporary
  file, sync, rename) replaces one file atomically. The checksum is an arbitrary 32-bit
  function of the payload; a command's gob decoding is an arbitrary predicate.
- One group's transaction state is one atomic machine: store, prepare records, markers,
  decisions, lock table and cache. A history of store changes is kept beside it. Answers of
  remote coordinators are arguments, and must once have been given. Clock readings are
  arguments everywhere.
- In protocol runs a transaction may have any number of plans, one for each Commit of its
  handle, with any groups and records. Routing is fixed and transaction ids are unique.

## What the code does not promise

These natural claims are false of the code. Each comes with the condition under which it
holds, as an equivalence where one is known.

- A byte string that the decoder accepts re-encodes to itself if and only if it holds an
  entry: an accepted state without entries gets a dummy one (`PersistFormat.EncodeDecoded`,
  with the input `PersistFormat.EmptyLogAccepted`).
- A delta is read back if and only if it is shorter than 2^32 - 72 bytes, because the length
  field of its frame has 32 bits; a longer one is written and silently skipped
  (`DeltaFrames.FrameReplays`), and so is every later delta until the next full save
  (`Durable.PersistRun`).
- Frames appended behind a frame torn by a crash are not read. If the tear lies in its payload,
  this lasts until they fill it up, and then they count as its payload if the checksums collide
  (`DeltaFrames.AppendedBehindTorn`); a tear anywhere, also in the 16-byte header, hides them
  at least while the file is too short for the length the header seems to state
  (`DeltaFrames.HiddenBehindTorn`). A new generation ends it.
- The first numbered generation drops a non-empty unnumbered `snapshot.bin` unless it brings
  a snapshot of its own (`FilePersister.SnapshotKept`, with the directory
  `FilePersister.SnapshotDropped`).
- A group's pending transactions keep their locks throughout a run if and only if no restart of
  that group meets a transaction decided COMMITTED whose write set no longer applies, because
  the rebuild moves on after a failed commit (`TxPending.LockInvariant`, with the run
  `TxForgottenLock.LockLost`).
- Where the group has no such restart, a prepared write set stays valid if and only if the
  transaction's own prepares found its versions and no plain write changed the version of one
  of its keys meanwhile (`TxPending.PreparedStaysValid`). With such a restart even that is not
  enough (`TxOvertaken.ValidityLost`).
- A transaction ends the same way at all groups, in every run, if and only if its plans can name
  only one coordinator group (`TxSplit.AgreementExact`). A handle can be used again after
  Rollback or Commit, and its coordinator group changes if and only if a key it has by then
  read or written is routed below all groups touched before (`TxReuse.CoordinatorMoves`). One
  further write or one further read is enough to commit at one group and stay aborted at
  another (`TxReuse.SplitOutcome`, `TxReuse.ReadSplitsOutcome`).
- An accepted append lowers the follower's commit index if and only if the sender claims more is
  committed and the follower's log then ends below its old index (`LogRepair.CommitRule`, with
  the append `LogRepair.CommitFalls`).
- Replaying a log over an up-to-date store changes nothing if and only if each key is deleted
  somewhere in it or no logged put expects the key's current version
  (`WalRecovery.FullReplayExact`, with the log `WalRecovery.FailedPutDiverges`); this is for
  logs without lifetimes, with which it fails too (`WalRecovery.ExpiryDiverges`).
- A log round trip loses the values of a prepare's read keys and the write keys of a decision
  (`WalEntries.RoundTripExact`).

## Model

| member | source | states |
|---|---|---|
| Bytes.ValueOfLE | pkg/raft/raft.go:396-400 | Writing a number into n little-endian bytes and reading it back keeps it modulo 256^n, for every number and width |
| Bytes.LEOfValue | pkg/raft/raft.go:402-409 | Every byte string is the encoding of the value read from it |
| Bytes.I64RoundTrip | pkg/raft/raft.go:396-409 | int64 fields, negative ones included, are read back unchanged |
| Bytes.I64Surjective | pkg/raft/raft.go:396-409 | Any eight bytes are the encoding of the int64 they decode to |
| PersistFormat.EncodeLogConcat | pkg/raft/raft.go:546-602 | The encoding of a concatenated log is the concatenation of the encodings, which is what lets a tail be appended or cut |
| PersistFormat.EndsAt | pkg/raft/raft.go:546-558 | The recorded end of entry i is the header size plus the encoding of the first i+1 entries |
| PersistFormat.DecodeEncoded | pkg/raft/raft.go:669-742 | Round trip: decoding an encoded state with a non-empty log returns the same term, vote, snapshot metadata, log and entry ends, and loads the cache |
| PersistFormat.EncodeDecoded | pkg/raft/raft.go:669-742 | Every accepted byte string re-encodes to itself if and only if its entry count is positive; the cache is loaded in exactly those cases, and the decoded log is never empty |
| PersistFormat.EmptyLogAccepted | pkg/raft/raft.go:669-742 | A concrete byte string of the other kind: a 44-byte header that counts no entries is accepted and does not re-encode to itself |
| PersistFormat.EncodeInjective | pkg/raft/raft.go:546-602 | Two states with the same encoding are the same state |
| PersistFormat.ReadPersistBinary | pkg/raft/raft.go:669-742 | The decoder, with every rejection (short header, wrong magic, negative or overlong lengths, trailing bytes, undecodable command), computes Decode |
| PersistFormat.ReadEntries | pkg/raft/raft.go:691-713 | Its loop over the entries computes ParseLog and the entry ends |
| PersistCache.Cache.constructor | pkg/raft/raft.go:1688-1694 | A fresh node has one dummy entry and no cached encoding |
| PersistCache.Cache.MarkDirtyFrom | pkg/raft/raft.go:505-518 | The dirty index only moves down, to at most the position clamped into the log, and not at all without a cache |
| PersistCache.Cache.CutLog | pkg/raft/raft.go:1067-1075 | Cutting at a conflict marks the cut before dropping the entries and keeps the cache invariant |
| PersistCache.Cache.ExtendLog | pkg/raft/raft.go:1083-1091 | Appending entries (here and in Start) keeps the cache invariant |
| PersistCache.Cache.ReplaceLog | pkg/raft/raft.go:845-859 | Snapshot replaces the log and the metadata and marks everything dirty |
| PersistCache.Cache.SetTermAndVote | pkg/raft/raft.go:902-906 | Term and vote changes need no dirty mark: the header is rewritten on every encode |
| PersistCache.Cache.InitCache | pkg/raft/raft.go:411-417 | The cache restarts as a bare header with no entries |
| PersistCache.Cache.TruncateTo | pkg/raft/raft.go:520-544 | Truncating the buffer at a recorded entry end leaves exactly the encoding of the first entries; it fails exactly for a count beyond the cached entries |
| PersistCache.Cache.AppendEntry | pkg/raft/raft.go:546-559 | Appending one entry to the buffer keeps it the encoding of a log prefix, with its end recorded |
| PersistCache.Cache.PutHeaderFields | pkg/raft/raft.go:383-394 | Six in-place overwrites turn the first 44 bytes into the header of the current state and touch nothing else |
| PersistCache.Cache.DropStale | pkg/raft/raft.go:561-585 | After the truncation phase the cached entries are a prefix of the current log, whatever edits were made |
| PersistCache.Cache.EncodeIncremental | pkg/raft/raft.go:561-602 | The incremental encoder returns, byte for byte, the whole current state encoded from scratch, and the entry-end table equals the one computed from scratch |
| PersistCache.Cache.EnqueuePersist | pkg/raft/raft.go:604-621 | The queued state is the full encoding; a delta is sent if and only if no snapshot is given and nothing queued before was touched, and the bytes beyond the header are then unchanged |
| PersistCache.Cache.Restore | pkg/raft/raft.go:662-742 | After a restart the node holds what Decode accepts, or its initial state, and a loaded cache equals the file |
| PersistCache.TruncatedEncoding | pkg/raft/raft.go:520-544 | Cutting the buffer at an entry's end is the encoding of the shorter log, with the shorter end table |
| PersistCache.UnchangedEntries | pkg/raft/raft.go:441-476 | Extending a log keeps the queued bytes beyond the header as a prefix of the new ones |
| DeltaFrames.PayloadApplies | pkg/persister/file.go:409-456 | A delta payload handed over whole turns the previous state into exactly the new one if its delta is shorter than 2^32 bytes, and is refused otherwise; its frame is FrameReplays |
| DeltaFrames.FrameReplays | pkg/persister/file.go:458-491 | The frame that carries a delta is replayed into exactly the new state if and only if the delta is shorter than 2^32 - 72 bytes; from there on replay stops at the frame, for every checksum function and whatever follows |
| DeltaFrames.RefusedFrame | pkg/persister/file.go:416-456 | A frame built against a state of another length than the reader has stops the reader, however long it is and whatever follows |
| DeltaFrames.ReplayDeltaFrames | pkg/persister/file.go:458-491 | The replay loop over frames (magic, length, checksum, payload) computes Replay, state and offset |
| DeltaFrames.ReplayFrame | pkg/persister/file.go:458-491 | A complete frame is replayed by applying its payload, whatever bytes follow and whatever function the checksum is |
| DeltaFrames.TornFrame | pkg/persister/file.go:458-491 | A frame cut at any byte before its end is not replayed |
| DeltaFrames.ReplayAppended | pkg/persister/file.go:458-491 | Replaying a fully consumed file and then more bytes is one replay of the concatenation |
| DeltaFrames.TornThenMore | pkg/persister/file.go:458-491 | A frame torn after its header with more bytes behind it is read exactly when they fill its stated length and the mixed payload has the checksum of the torn one |
| DeltaFrames.AppendedBehindTorn | pkg/persister/file.go:507-530 | Behind a frame torn in its payload, appended bytes are not read until they fill it, and then only as its payload, if the checksums collide |
| DeltaFrames.HiddenBehindTorn | pkg/persister/file.go:507-530 | Frames appended behind one torn at any byte, its header included, stay unread for good if the magic number is torn, and otherwise while the file is too short for the length the torn header seems to state |
| DeltaFrames.TornTail | pkg/persister/file.go:398-491 | For every byte prefix of a file of chained frames, replay stops at the end of the last complete frame with exactly the state after it |
| DeltaFrames.ReplayWhole | pkg/persister/file.go:458-491 | An untorn file of chained frames is replayed to its end |
| FilePersister.Best | pkg/persister/file.go:769-781 | There is a highest generation with both a base and a snapshot file, or none |
| FilePersister.Discover | pkg/persister/file.go:732-795 | The directory scan finds exactly that generation, in whatever order files are listed |
| FilePersister.LoadExact | pkg/persister/file.go:680-729 | The manifest's choice stands exactly if its base and snapshot exist; otherwise the highest complete generation is taken |
| FilePersister.CrashAtomic | pkg/persister/file.go:568-626 | Stopping after any number of commitGeneration's durable writes and reloading shows exactly the old (state, snapshot) pair or exactly the new one, says which, and leaves a disk on which the next switch is crash-atomic again; the first generation without a manifest is included |
| FilePersister.SnapshotKept | pkg/persister/file.go:584-600 | A generation written without a snapshot keeps the current one, if and only if this is not the first generation over a non-empty unnumbered snapshot.bin |
| FilePersister.SnapshotDropped | pkg/persister/file.go:593-600 | A concrete directory on which the first save loses such a snapshot |
| FilePersister.FrameLost | pkg/persister/file.go:458-504 | A frame that replay stops at, whole or torn, leaves a complete delta file reading as before |
| FilePersister.FrameBlocks | pkg/persister/file.go:458-504 | Behind a frame that replay stops at whatever follows, no appended bytes are ever read |
| FilePersister.TornHides | pkg/persister/file.go:507-530 | So after a crash inside a frame and a reopening, later frames leave what is read as it was, under the same condition |
| FilePersister.UnreadCrashes | pkg/persister/file.go:507-565 | A crash while such an unread frame is appended or compacted away shows what was shown before |
| FilePersister.AppendCrashes | pkg/persister/file.go:507-565 | A crash at any byte of an appended frame, or at any durable write of the compaction behind it, shows exactly the state before the append or the state after it |
| FilePersister.SaveCrashes | pkg/persister/file.go:568-626 | A crash at any durable write of a full save shows exactly the old pair or the new one |
| FilePersister.FramesAppended | pkg/persister/file.go:494-530 | Chained frames behind a complete delta file are all applied to the state read, and the file stays complete |
| FilePersister.WriteFrames | pkg/persister/file.go:523-530 | The loop writes the frames in order behind what the file holds |
| FilePersister.Persister.constructor | pkg/persister/file.go:680-729 | On any disk: without a manifest, or with one that names no or missing files, the generation is discovered; a missing delta file is recreated; what is read is what was there |
| FilePersister.Persister.ReadRaftState | pkg/persister/file.go:223-231 | Reading replays the delta over the base |
| FilePersister.Persister.CommitGeneration | pkg/persister/file.go:568-626 | A completed switch performs exactly the listed durable writes and shows the new state with the given, kept or empty snapshot |
| FilePersister.Persister.AppendFrames | pkg/persister/file.go:518-541 | Any payloads go behind the delta file; chained ones are all visible on the next read |
| FilePersister.Persister.CompactIfLarge | pkg/persister/file.go:542-565 | A delta file of at least the threshold is folded into a new generation, and that does not change what is read |
| FilePersister.Persister.CommitAppend | pkg/persister/file.go:507-565 | Fails exactly when there is no generation to append to; otherwise the read-back state is the old files with the new frames behind them, compacted or not |
| Durable.CarryOut | pkg/raft/raft.go:604-621 | One enqueued request carried out in order: the disk then holds the current state encoded from scratch, unless the delta is too long for a frame; then it still reads as before and is behind |
| Durable.CarryOutBehind | pkg/raft/raft.go:604-621 | While the disk is behind, every delta is refused or hidden and the disk reads as before; a full save brings it up to date |
| Durable.AppendOne | pkg/persister/file.go:507-565 | One frame behind a complete one is applied; one that the reader stops at changes nothing and hides what comes after it |
| Durable.Reopen | pkg/raft/raft.go:662-742 | A restart between two requests resumes with the same state and snapshot |
| Durable.OneEdit | pkg/raft/raft.go:604-621 | One edit followed by its persist, or a restart, keeps cache and disk in step if and only if its delta, if it has one, fits a frame; otherwise the disk shows the same as before |
| Durable.OneEditBehind | pkg/raft/raft.go:604-621 | An edit while the disk is behind: invisible if it is sent as a delta, and otherwise cache and disk are in step again |
| Durable.PersistRun | pkg/raft/raft.go:441-621 | Over every sequence of appends, conflict cuts, snapshots, term and vote changes and restarts, across deltas, full saves and compactions: what is read back is byte for byte the state encoded from scratch, with the last snapshot, as of the last visible edit. A delta too long for a frame is lost with all later ones until the next full save, and the disk is up to date if and only if there is none such |
| Durable.CrashInRequest | pkg/persister/file.go:507-626 | A crash while a request is carried out leaves a disk that reads as before, or as after it if the request is one that shows |
| Durable.PersistThenCrash | pkg/raft/raft.go:441-742 | If the run stops inside the last request, at any byte of its frame or any durable write, the node reopens with exactly what is visible after all edits, or after all but the last, and resumes with that state |
| RaftHandlers.GrantedExactly | pkg/raft/raft.go:891-946 | A vote is granted if and only if the candidate is up to date and this node has not voted for another in that term; the reply tells the newer term, a newer term makes the node a follower without a vote, and the pair is written exactly if a vote was cast or the term changed |
| LogRepair.GrantedByLog | pkg/raft/raft.go:909-910 | What up to date means, in terms of the logs themselves: a voter free to vote grants if and only if the candidate's log ends in a later term, or in the same term and continues the voter's log |
| LogRepair.LongerIsGranted | pkg/raft/raft.go:909-910 | A candidate whose log continues the voter's is never refused for its log |
| RaftHandlers.VoteCountedExactly | pkg/raft/raft.go:1531-1562 | A vote that counts makes the candidate leader if and only if twice its votes exceed the number of peers; a newer term ends the candidacy; any other reply changes nothing |
| RaftHandlers.ElectionStarts | pkg/raft/raft.go:1564-1583 | A candidate starts the next term with its own vote and leads at once exactly if it is alone |
| RaftHandlers.FirstOfTerm | pkg/raft/raft.go:1043-1050 | Where the run of entries of a term that ends below an index begins |
| RaftHandlers.AppendAnswers | pkg/raft/raft.go:973-1110 | An append is accepted if and only if its term is not over and the entry before the new ones has the sender's term; a refusal carries the log's length, or the conflicting term and where its run begins; a changed log is written whole, else a changed term alone |
| RaftHandlers.LastOfTerm | pkg/raft/raft.go:1437-1445 | The backward search returns the highest index of the term, or -1 if the log has none |
| RaftHandlers.MatchingExtends | pkg/raft/raft.go:1057-1078 | Two logs that match agree up to the conflict loop's stopping point, and differ in term there |
| RaftHandlers.MergeResult | pkg/raft/raft.go:1054-1093 | Accepting a tail leaves the old log if it already begins with the sender's log, and otherwise exactly the sender's log; the log changes if and only if some sent entry was missing |
| LogRepair.RejectLowersNext | pkg/raft/raft.go:1432-1457 | Every rejected exchange strictly lowers nextIndex and keeps it at 1 or more, whether the log was short, the conflict term is known to the leader, or it is not |
| LogRepair.BacktrackFast | pkg/raft/raft.go:1432-1457 | A rejected exchange passes over no index at which the logs agree; if the leader has an entry of the conflicting term the next exchange is accepted, and if not the follower's whole run of that term is skipped |
| LogRepair.AcceptAgrees | pkg/raft/raft.go:1054-1106 | An accepted exchange leaves the follower its log if that begins with the leader's, else the leader's log, and brings its commit index up to the leader's as far as the leader's log goes |
| LogRepair.RepairConverges | pkg/raft/raft.go:1358-1457 | Repeated exchanges end, with the follower agreeing with the leader at every leader index and its commit index brought up to the leader's |
| LogRepair.CommitRule | pkg/raft/raft.go:1101-1106 | An accepted append, with entries or without, learns all that the sender's log holds and the sender knows to be committed; beyond its old commit index it commits exactly what the sender says and its own log holds; the index falls if and only if the sender claims more and the log now ends below the old index |
| LogRepair.CommitFalls | pkg/raft/raft.go:1101-1106 | A concrete append that lowers the commit index |
| LogRepair.CommitBound | pkg/raft/raft.go:1101-1106 | Although the receiver takes the minimum with its own, possibly longer log, every index it newly commits holds the sender's entry as far as the sender's log goes, and it goes that far if and only if the sender's commit index lay in its log or the receiver's log is no longer |
| RaftBallots.MergeSupersedes | pkg/raft/raft.go:744-761 | Merging the raft-state header with the hard state supersedes both, whichever file each vote was written to, and invents nothing |
| RaftBallots.PersistedMoves | pkg/raft/raft.go:744-761 | When a new pair reaches either file, the merge is still the newest pair ever persisted |
| RaftBallots.Rebooted | pkg/raft/raft.go:662-761 | A restart resumes from exactly the newest (term, vote) on disk |
| RaftElections.MajoritiesMeet | pkg/raft/raft.go:1555-1560 | Two sets of more than half the peers share a voter |
| RaftElections.GrantUnique | pkg/raft/raft.go:924-930 | A voter's visible votes of one term are for one candidate |
| RaftElections.WinnerIsFirst | pkg/raft/raft.go:1555-1560 | A candidate that reaches a majority leads a term nobody has led |
| RaftElectionSteps.TimeoutKeeps | pkg/raft/raft.go:1564-1597 | Starting an election, with the self-vote written synchronously, keeps the election invariant |
| RaftElectionSteps.HandleVoteKeeps | pkg/raft/raft.go:891-946 | Handling a vote request keeps the election invariant, the reply being held until the hard state is written |
| RaftElectionSteps.AnswerVoteKeeps | pkg/raft/raft.go:937-946 | Releasing a reply after its write keeps the election invariant |
| RaftElectionSteps.ReceiveAnswerKeeps | pkg/raft/raft.go:1531-1562 | Counting a vote, perhaps becoming leader, keeps the election invariant |
| RaftElectionSteps.FlushHardKeeps | pkg/raft/raft.go:635-639 | Hard-state writes reaching the disk in order keep the election invariant |
| RaftElectionSteps.FlushStateKeeps | pkg/raft/raft.go:604-621 | Raft-state writes reaching the disk in order keep the election invariant |
| RaftElectionSteps.ReceiveAppendKeeps | pkg/raft/raft.go:973-1110 | AppendEntries keeps the election invariant |
| RaftElectionSteps.ProposeKeeps | pkg/raft/raft.go:1134-1173 | A leader's new entry keeps the election invariant |
| RaftElectionSteps.AdvanceKeeps | pkg/raft/raft.go:1462-1492 | A leader's commit advance keeps the election invariant |
| RaftElectionSteps.SendAppendKeeps | pkg/raft/raft.go:1357-1392 | Sending an append from the node's own log keeps the election invariant |
| RaftElectionSteps.LearnTermKeeps | pkg/raft/raft.go:1409-1416 | Stepping down for a newer term keeps the election invariant |
| RaftElectionSteps.RestartKeeps | pkg/raft/raft.go:662-761 | A crash and restart to what reached the files keeps the election invariant |
| RaftElectionSteps.ElectionsStep | pkg/raft/raft.go:891-1597 | Every step of the cluster keeps the election invariant |
| RaftSafety.CoherentKindred | pkg/raft/raft.go:1375-1390 | Logs whose every prefix is a prefix of its term's canonical log agree up to any term they share |
| RaftSafety.ReceiveAppendLogs | pkg/raft/raft.go:1054-1093 | Receiving any append, even from a node that has stepped down, keeps every log a prefix of the canonical logs |
| RaftSafety.ProposeLogs | pkg/raft/raft.go:1134-1173 | A leader's new entry extends its term's canonical log and no other |
| RaftSafety.StepKeeps | pkg/raft/raft.go:891-1597 | Every step keeps both invariants; leaderships are only added and their logs only grow |
| RaftSafety.RunKeeps | pkg/raft/raft.go:891-1597 | Both invariants hold in every state of every run |
| RaftSafety.ElectionSafety | pkg/raft/raft.go:1531-1597 | Over every run with crashes and restarts, two nodes that ever lead the same term are the same node |
| RaftSafety.LogMatching | pkg/raft/raft.go:973-1110 | Over every run, any two logs in memory, on disk, queued for disk or in flight, at whatever moments, that have the same term at an index are equal up to it |
| RaftSafety.RestartIsExact | pkg/raft/raft.go:744-761 | In every run a restart resumes from exactly the newest (term, vote) that ever reached either file |
| RaftSafety.CommitBoundInRuns | pkg/raft/raft.go:1101-1106 | In every run, with leaders committing any further index of their logs, whatever append arrives: newly committed indexes hold the sender's entries, with the exact condition for the sender's log to reach them; and an accepted append brings the commit index up to the sender's |
| RaftSafety.CountedIsStep | pkg/raft/raft.go:1462-1492 | The index that the count of acknowledgements picks is one that a leader may commit in these runs |
| RaftCommitRun.CommitRises | pkg/raft/raft.go:973-1110 | A concrete run of election, proposal, commit and append in which a follower's commit index rises |
| RaftSafety.RepairInRuns | pkg/raft/raft.go:1358-1457 | In every run, log repair between any two nodes terminates in agreement from any nextIndex, commit index included |
| RaftVotes.RequestsAreAnswered | pkg/raft/raft.go:891-946 | Every vote request is answered: refused at once with the voter's term, or granted with its write queued and its reply waiting for it |
| RaftVotes.RepliesAreSent | pkg/raft/raft.go:937-946 | The reply is sent once the write is there |
| RaftVotes.VisibleVotesAreFair | pkg/raft/raft.go:891-946 | In every run each visible vote went to a candidate whose log, when it asked, was not behind the voter's when it granted |
| RaftVotes.LeadersAreElected | pkg/raft/raft.go:1531-1597 | In every run a leader has the votes of more than half of the nodes, each itself or a voter whose log its own was not behind, and a candidate has at most half |
| RaftWrites.TermsNeverFall | pkg/raft/raft.go:973-1110 | In every run the terms never fall along any log in memory, on disk, queued or in flight |
| RaftWrites.NothingForgotten | pkg/raft/raft.go:604-639 | In every run a node that restarts once its queued writes have reached the disk has exactly the term, vote and log it had in memory |
| RaftWrites.TermLearned | pkg/raft/raft.go:1409-1416 | A node that learns of a newer term follows in it without a vote, and that is on disk |
| RaftWrites.BacktrackInRuns | pkg/raft/raft.go:1432-1457 | In every run a refused exchange between two nodes backs up as BacktrackFast says |
| RaftNode.Raft.constructor | pkg/raft/raft.go:1688-1697 | A new node is a follower of term 0 without a vote, with one dummy entry |
| RaftNode.Raft.RequestVote | pkg/raft/raft.go:891-946 | The handler's field updates compute HandleRequestVote, with the write it owes |
| RaftNode.Raft.FirstIndexOf | pkg/raft/raft.go:1043-1050 | The search loop finds where the conflicting term's run starts |
| RaftNode.Raft.MergeEntries | pkg/raft/raft.go:1054-1093 | The conflict loop, cut and append compute MergeLog, and report a change exactly when an entry was missing |
| RaftNode.Raft.AppendEntries | pkg/raft/raft.go:973-1110 | The handler computes HandleAppend: log, commit index, conflict hints and owed write |
| RaftNode.Raft.BecomeLeader | pkg/raft/raft.go:1518-1529 | nextIndex starts behind the log and matchIndex at 0, except the leader's own |
| RaftNode.Raft.BeginElection | pkg/raft/raft.go:1564-1583 | The node votes for itself in a new term and leads at once if alone |
| RaftNode.Raft.HandleVoteResponse | pkg/raft/raft.go:1531-1562 | A reply counts only in the current term of a candidate; a newer term forces a step down |
| RaftNode.Raft.Start | pkg/raft/raft.go:1134-1173 | Only a leader appends, at the index after its last, in its own term |
| RaftNode.Raft.LastIndexOf | pkg/raft/raft.go:1437-1445 | The backward loop computes LastOfTerm |
| RaftNode.Raft.UpdatePeer | pkg/raft/raft.go:1422-1458 | nextIndex and matchIndex of one peer after success or backtracking; other peers untouched |
| RaftNode.Raft.HandleAppendReply | pkg/raft/raft.go:1401-1494 | Ignored unless still leader of the sent term, step down for a newer term, else the peer is updated and the commit index moves to the highest committable index |
| RaftNode.Raft.CountAckers | pkg/raft/raft.go:1481-1485 | The loop counts the other peers whose matchIndex has reached an index |
| RaftNode.Raft.AdvanceCommit | pkg/raft/raft.go:1462-1492 | The commit index becomes the highest entry of the current term stored by a majority, the node itself counting only if the entry is on its disk; it never moves back |
| RaftNode.CommittableExact | pkg/raft/raft.go:1462-1492 | What is counted: an entry of the leader's own term that some majority of the nodes is known to have on disk |
| Store.BatchCriterion | pkg/storage/store.go:253-321 | A batch over distinct keys succeeds if and only if each key has its expected version beforehand; it then writes exactly those keys, each one version up |
| Store.BatchFrame | pkg/storage/store.go:253-321 | Keys a successful batch does not mention keep their cells |
| Store.WriteBatch | pkg/storage/store.go:253-321 | The batch loop computes ApplyBatch; a failure leaves no write |
| Store.PutCASExact | pkg/storage/store.go:185-248 | A put takes effect if and only if the caller knows the current version, an expired key counting as absent; it raises the version by one and touches no other key |
| Store.DeleteExact | pkg/kv/server.go:373-409 | After a delete no reader sees the key and every other key is as before; a key past its expiry stays |
| TxLocal.ApplyCommitOnce | pkg/kv/tx.go:511-526 | Applying a write set together with its commit marker keeps the exactly-once invariant |
| TxLocal.ResolveLockEvolves | pkg/kv/tx.go:632-694 | Resolving a lock writes a marker only for a decision that approves it |
| TxLocal.ClearConflictsEvolves | pkg/kv/tx.go:333-346 | So does Prepare's whole conflict loop |
| TxLocal.PrepareEvolves | pkg/kv/tx.go:326-411 | A successful Prepare adds exactly its record and locks; a failed one leaves only what resolving old locks did |
| TxLocal.CommitRequestEvolves | pkg/kv/tx.go:449-533 | A commit request applies the prepared write set at most once and succeeds only with a commit marker |
| TxLocal.AbortRequestEvolves | pkg/kv/tx.go:537-578 | An abort request writes an abort marker only, and never over a commit marker |
| TxLocal.RestartEvolves | pkg/kv/tx.go:78-144 | RebuildLockTable, in any scan order, writes markers only as decided |
| TxLocal.ExpireEvolves | pkg/kv/server.go:439-478 | Expiry leaves records and markers alone |
| TxLocal.PutEvolves | pkg/kv/server.go:250-290 | A plain put leaves records and markers alone |
| TxLocal.DeleteEvolves | pkg/kv/server.go:373-409 | A plain delete leaves records and markers alone |
| TxAnswers.PrepareExact | pkg/kv/tx.go:326-411 | Prepare answers OK if and only if, old locks once resolved, no key it writes is held by another and every version it has read is still current, an absent or expired key counting as 0; it then holds all its keys |
| TxAnswers.PrepareAtOnce | pkg/kv/tx.go:348-369 | With its keys free, Prepare answers OK if and only if its reads are current, and a refusal changes nothing |
| TxAnswers.ConflictRemains | pkg/kv/tx.go:333-346 | Prepare resolves the locks in its way: what is left standing has no known decision, or cannot be committed, or was finished just now without the key among those it wrote |
| TxAnswers.ResolveExact | pkg/kv/tx.go:632-694 | Resolving: a finished or forgotten transaction loses all its locks and only those; a pending one is finished as decided, or kept with its locks while the decision is not known |
| TxAnswers.QueryExact | pkg/kv/tx.go:147-187 | The coordinator group goes by its own decision, any other by the coordinator's answer |
| TxAnswers.CommitExecuted | pkg/kv/tx.go:190-219 | Executing a commit applies the whole batch with its marker and frees exactly its keys, or does nothing at all |
| TxAnswers.AbortExecuted | pkg/kv/tx.go:222-239 | Executing an abort writes the marker and frees exactly its keys, with the store untouched |
| TxAnswers.CommitExact | pkg/kv/tx.go:449-533 | Commit answers OK exactly with a commit marker in place and finds nothing exactly without marker or record; a pending transaction is committed, its keys freed, if and only if the decision is not missing here and its batch applies |
| TxAnswers.AbortExact | pkg/kv/tx.go:537-578 | Abort is refused exactly for a committed transaction; otherwise the marker is in place, the record gone, and exactly the cached keys that the transaction holds are freed |
| TxAnswers.DecisionExact | pkg/kv/tx.go:419-442 | A decision is accepted exactly if it agrees with the one recorded afterwards; only the first changes anything |
| TxAnswers.StatusExact | pkg/kv/tx.go:581-630 | The status is the decision, else the marker, else the record, else that nothing is known |
| TxReads.PreparedReadsCurrent | pkg/kv/tx.go:326-411 | In every run each OK to a prepare was given with all reads of its record current and all its keys locked |
| TxReads.CommittedReadsCurrent | pkg/kv/tx_coordinator.go:189-226 | So COMMITTED is recorded only for a plan whose reads were current and whose keys were locked at every group when it prepared |
| TxReads.StatusIsTrue | pkg/kv/tx.go:581-630 | In every run a status that names a decision names the one recorded at the coordinator group |
| TxReads.DecisionsAreTold | pkg/kv/tx_coordinator.go:344-379 | Whoever asks a group about a decided transaction is told the decision |
| TxAgreement.DecisionKeeps | pkg/kv/tx.go:419-442 | Recording a decision keeps the protocol invariant; the first decision written stands |
| TxAgreement.PrepareKeeps | pkg/kv/tx.go:326-411 | Preparing keeps the protocol invariant, and an OK answer means the record is held |
| TxAgreement.StepKeeps | pkg/kv/tx_coordinator.go:135-452 | Every step of client, rollback, retry, recovery, lock resolution, restart and plain traffic keeps the protocol invariant |
| TxAgreement.RunKeeps | pkg/kv/tx_coordinator.go:135-452 | The protocol invariant holds in every state of every run, with messages lost, delayed, reordered or repeated |
| TxAgreement.Agreement | pkg/kv/tx_coordinator.go:135-226 | In every run a transaction whose plans all name one coordinator group, however many Commits sent them and however their groups and writes differ, has no commit marker at one group with an abort marker at another, and every marker is the decision recorded at the coordinator group; transactions that share none may run beside it |
| TxSplit.AgreementExact | pkg/kv/tx_coordinator.go:135-226 | Exactly when this holds: a transaction is unanimous in every run, whatever its plans say otherwise and other transactions do, if and only if its plans can name only one coordinator group |
| TxSplit.SplitRun | pkg/kv/tx_coordinator.go:427-452 | For any two groups to name there is a run that ends committed at one and aborted at the other |
| TxAgreement.DecisionStaysInRun | pkg/kv/tx.go:419-442 | A recorded decision, with its participants, is never changed |
| TxAgreement.NoParticipantStranded | pkg/kv/tx_coordinator.go:189-226 | From the moment COMMITTED is recorded, every group it lists holds its commit marker, or a prepare record exactly as one of the plans sent it, and no abort marker |
| TxAgreement.SentOnce | pkg/kv/tx_coordinator.go:166-187 | With one plan that record is the plan's own |
| TxAgreement.CommitAlwaysPossible | pkg/kv/tx.go:449-533 | So a commit request succeeds there if and only if the marker exists or the batch still applies: no other obstacle is left |
| TxRuns.StepKeepsLocal | pkg/kv/tx_coordinator.go:135-452 | Every step keeps each group's own invariant, whatever plans the transactions have |
| TxRuns.AppliedExactlyOnce | pkg/kv/tx.go:449-533 | In every run, one coordinator or several, each group's store is its history; a write set occurs there once if its commit marker exists and otherwise never, and always as one of the plans sent it |
| TxLocks.AppliesExact | pkg/storage/store.go:253-321 | For distinct keys the whole batch applies if and only if every key has its expected version |
| TxLocks.HeldSeparate | pkg/kv/tx.go:333-374 | Transactions that hold the locks on all their keys write disjoint keys |
| TxLocks.ExecuteCommitKeeps | pkg/kv/tx.go:190-219 | Executing a commit succeeds exactly if the write set applies, and takes neither locks nor validity from any other pending transaction |
| TxLocks.ExecuteAbortKeeps | pkg/kv/tx.go:222-239 | Executing an abort takes neither locks nor validity from any other pending transaction |
| TxLocks.ResolveLockKeeps | pkg/kv/tx.go:632-703 | Resolving only takes locks away, and none from a pending transaction left undecided |
| TxLocks.ClearConflictsKeeps | pkg/kv/tx.go:333-346 | Past the conflict loop, every key to be written is free or its own |
| TxLocks.PrepareKeeps | pkg/kv/tx.go:326-411 | A prepare keeps the locks held, whatever versions it found, and disturbs no other pending transaction |
| TxLocks.CommitKeeps | pkg/kv/tx.go:449-533 | A commit request keeps the locks held and, for a pending transaction whose decision is in place, succeeds exactly if its write set applies |
| TxLocks.AbortKeeps | pkg/kv/tx.go:537-578 | An abort request keeps the locks held and disturbs nobody else |
| TxLocks.ExpireKeeps | pkg/kv/server.go:448-457 | Expiry never touches a key that a pending transaction will write |
| TxLocks.PlainKeeps | pkg/kv/server.go:250-290 | A plain put or delete leaves every lock where it is |
| TxLocks.BumpsExact | pkg/kv/server.go:250-290 | A write to one key leaves a valid write set valid if and only if it does not change the version of one of its keys |
| TxRebuild.VisitAll | pkg/kv/tx.go:90-140 | After any part of the scan, in any order, visited records are settled and the others untouched |
| TxRebuild.RestartExact | pkg/kv/tx.go:78-144 | A restart settles every record by its marker or decision and rebuilds exactly the locks and cache of the transactions still in doubt; the lock invariant holds afterwards if and only if no transaction decided COMMITTED has an inapplicable write set |
| TxRebuild.RestartKeeps | pkg/kv/tx.go:78-144 | A restart that meets no stuck transaction keeps the locks held and disturbs nobody who stays in doubt |
| TxRebuild.RestartLoses | pkg/kv/tx.go:110-119 | One that does loses a lock |
| TxPending.LockInvariant | pkg/kv/tx.go:78-703 | Over every run and for each group, whatever prepares found and plain writes or other groups do: every transaction pending at the group owns the locks on all its keys in every state up to n if and only if no restart of the group before n meets a transaction decided COMMITTED whose write set no longer applies |
| TxPending.AllLocksInvariant | pkg/kv/tx.go:78-703 | The same for all groups together |
| TxPending.StepOnWrites | pkg/kv/tx.go:326-411 | Where the group's locks are held, any step but a stuck restart of that group changes a pending transaction's verdict exactly if it is that transaction's own prepare without its versions, or a plain write that changes the version of one of its keys |
| TxPending.PreparedStaysValid | pkg/kv/tx.go:326-411 | In every run in which no restart of the group meets a stuck transaction, whatever other transactions found and other groups do: a transaction's batch would succeed there in every state in which it is pending if and only if its own prepares found its versions and no plain write changed the version of one of its keys meanwhile |
| TxPending.CommitSucceeds | pkg/kv/tx.go:449-533 | Then, once COMMITTED is recorded, a commit request succeeds at the listed participant in every later state |
| TxPending.UndisturbedNeverStuck | pkg/kv/tx.go:78-144 | Where no transaction of the group is ever so disturbed, no restart of the group is ever stuck |
| TxForgottenLock.LockLost | pkg/kv/tx.go:110-119 | A concrete run with one plain put on a locked key: the restart forgets the lock of a committed transaction and the next prepare takes its key |
| TxOvertaken.ValidityLost | pkg/kv/tx.go:476-530 | A concrete run of transactions only: A prepares with its version in place, B, whose locks a stuck restart forgot, is reloaded by a late commit request and commits under A, and A's batch no longer applies |
| TxManager.Manager.constructor | pkg/kv/tx.go:47-54 | An empty store and lock table |
| TxManager.Manager.DropLocks | pkg/kv/tx.go:522-525 | The loop removes the keys' locks, whoever holds them |
| TxManager.Manager.TakeLocks | pkg/kv/tx.go:371-374 | The loop locks every key for the transaction |
| TxManager.Manager.ReleaseLocks | pkg/kv/tx.go:697-703 | The walk over the table, in any order, removes exactly the transaction's locks |
| TxManager.Manager.ExecuteCommit | pkg/kv/tx.go:190-219 | Computes ExecuteCommit: batch and marker together, or nothing |
| TxManager.Manager.ExecuteAbort | pkg/kv/tx.go:222-239 | Computes ExecuteAbort |
| TxManager.Manager.BuildOps | pkg/kv/tx.go:500-509 | The write set as batch operations |
| TxManager.Manager.QueryDecision | pkg/kv/tx.go:147-187 | Local decision if this group coordinates, else the remote answer or unknown |
| TxManager.Manager.ResolveLock | pkg/kv/tx.go:632-694 | Computes ResolveLock, with the group changed and whether the lock was released |
| TxManager.Manager.ClearConflicts | pkg/kv/tx.go:333-346 | The conflict loop computes ClearConflicts |
| TxManager.Manager.Prepare | pkg/kv/tx.go:326-411 | Computes Prepare: conflict, stale read, or locks and record |
| TxManager.Manager.RecordDecision | pkg/kv/tx.go:419-442 | Computes RecordDecision: the first decision stands |
| TxManager.Manager.Commit | pkg/kv/tx.go:449-533 | Computes Commit, including the reload after a restart |
| TxManager.Manager.Abort | pkg/kv/tx.go:537-578 | Computes Abort, releasing only locks it holds |
| TxManager.Manager.RebuildLockTable | pkg/kv/tx.go:78-144 | The scan visits every record once, in some order, and computes Restart for that order |
| TxManager.Manager.RebuildRecord | pkg/kv/tx.go:97-139 | One record of the scan |
| TxManager.Manager.ExpireKeys | pkg/kv/server.go:439-478 | Removes exactly the listed keys that are present, expired and unlocked, and reports them |
| Ordering.AscendingUnique | pkg/kv/tx_coordinator.go:159-165 | A set of groups has one ascending order, so one coordinator |
| Ordering.Sorted | pkg/kv/tx_coordinator.go:148-159 | The groups in ascending order, each once |
| TxHandle.KeyCount | pkg/kv/tx_coordinator.go:140-147 | Distinct keys are as many as the writes carrying them, which makes the length check a routing check |
| TxHandle.Handle.constructor | pkg/kv/tx_coordinator.go:47-56 | A new handle has read and written nothing |
| TxHandle.Handle.Get | pkg/kv/tx_coordinator.go:67-90 | Value and version: own writes first, then what was first read, then the server's answer, which is remembered |
| TxHandle.Handle.Put | pkg/kv/tx_coordinator.go:93-102 | The last write of a key stands; the groups written stay those of the routable keys |
| TxHandle.Handle.Delete | pkg/kv/tx_coordinator.go:108-128 | A delete expects the version first read, reading it if need be |
| TxHandle.Handle.GroupWriteKeys | pkg/kv/tx_coordinator.go:455-464 | Each group's list holds exactly the writes routed to it, each key once |
| TxHandle.Handle.GroupReadKeys | pkg/kv/tx_coordinator.go:467-476 | Each group's list holds exactly the reads routed to it |
| TxHandle.Handle.AllRouted | pkg/kv/tx_coordinator.go:139-147 | The count check passes if and only if every written key can be routed |
| TxHandle.Handle.PlanCommit | pkg/kv/tx_coordinator.go:135-187 | ErrWrongGroup if and only if some write cannot be routed; otherwise all touched groups in order, the first coordinating, each sent exactly its own reads and writes |
| TxHandle.Handle.RollbackGroups | pkg/kv/tx_coordinator.go:427-452 | Rollback addresses exactly the touched groups in order |
| TxHandle.SameCoordinator | pkg/kv/tx_coordinator.go:427-452 | Commit and Rollback of one handle state name the same groups and so record their decision at the same coordinator group |
| TxReuse.CoordinatorMoves | pkg/kv/tx_coordinator.go:427-452 | Nothing marks a handle as finished: in any later state, its reads and writes only grown, its decisions go to another coordinator group if and only if some key read or written by then is routed below all groups touched before |
| TxReuse.ReuseShares | pkg/kv/tx_coordinator.go:135-187 | So a handle committed any number of times keeps one coordinator group, and with it agreement, if and only if no later plan touches a group below the first |
| TxReuse.LatePlanIsSent | pkg/kv/tx_coordinator.go:135-187 | Commit after such a write sends the plan of the split run |
| TxReuse.SplitOutcome | pkg/kv/tx_coordinator.go:427-452 | Rollback at group 2, a write to group 1, then Commit: all prepares answer OK, the commit goes through at group 1, and group 2 keeps its abort marker and refuses it |
| TxReuse.ReadPlanIsSent | pkg/kv/tx_coordinator.go:135-187 | Commit after a read of group 1 instead sends the plan of the next run |
| TxReuse.ReadSplitsOutcome | pkg/kv/tx_coordinator.go:427-452 | A read is enough: Rollback at group 2, a read in group 1, then Commit: COMMITTED is recorded and carried out at group 1, while group 2 keeps its abort marker and the handle's only write is lost |
| TxHandle.Collect | pkg/kv/tx_coordinator.go:189-217 | COMMITTED is proposed if and only if every participant answered OK |
| WalEntries.RoundTripExact | pkg/kv/consensus.go:260-432 | Logging never makes a request unreadable; reads are skipped on replay; a changing request comes back exactly if and only if it carries no read values and no decision write keys |
| WalEntries.ChangingIsReplayed | pkg/kv/consensus.go:260-432 | Every request that can change the store, a shard or a transaction is executed again, and no other |
| WalRecovery.Truncate | pkg/wal/logger.go:302-362 | The rewrite loop computes Kept |
| WalRecovery.KeptExact | pkg/wal/logger.go:302-362 | Exactly the entries above the index are kept, each as often as it was there |
| WalRecovery.KeptInOrder | pkg/wal/logger.go:302-362 | They are kept in order |
| WalRecovery.TruncationHarmless | pkg/wal/logger.go:302-362 | Dropping entries up to the snapshot index changes neither the requests recovery executes, nor its final index, nor its error |
| WalRecovery.RecoverPicks | pkg/kv/consensus.go:434-459 | Recovery executes, in order and each once, exactly the requests at positions whose index is above the snapshot and above every index before, up to the first unreadable such entry |
| WalRecovery.RecoverEnds | pkg/kv/consensus.go:434-459 | It fails exactly at an unreadable entry of that kind, and otherwise ends at the highest index |
| WalRecovery.LoggedIsRecovered | pkg/kv/consensus.go:434-459 | From the log of some requests under rising indexes, recovery executes exactly those that change something and lie above the snapshot, in order, and ends at the last index |
| WalRecovery.RecoveryCompletes | pkg/kv/consensus.go:434-459 | End to end: over the store that the requests up to the snapshot made, recovery gives the store of executing them all |
| WalRecovery.OthersRun | pkg/kv/consensus.go:434-459 | Requests other than Put and Delete are executed too |
| WalRecovery.RecoverFromWAL | pkg/kv/consensus.go:434-459 | The replay loop executes exactly the requests of Recover; from the log of some requests, exactly the changes above the snapshot, ending at the last index; an unreadable entry keeps the snapshot index |
| WalRecovery.RunByKey | pkg/storage/store.go:185-248 | Without expiry a run acts on each key independently of clocks and of other keys |
| WalRecovery.DeleteResets | pkg/kv/server.go:373-409 | A delete of a key anywhere in the log makes the outcome independent of the starting store |
| WalRecovery.UndeletedExact | pkg/storage/store.go:185-248 | Without a delete, replaying leaves a key alone if and only if no put expects the version it already has |
| WalRecovery.PrefixConverges | pkg/kv/consensus.go:434-459 | Replaying a log of puts without expiry, deletes and requests that leave cells alone over a store holding its first p requests ends in the store of one run if each key is deleted somewhere or no put of it among those p expects its present version |
| WalRecovery.ReplayConverges | pkg/kv/consensus.go:434-459 | For such logs and a store without expiry: if every logged put took effect when first executed, replaying the whole log over a store holding any prefix of it ends in the store of one run, whatever the clocks read |
| WalRecovery.FullReplayExact | pkg/kv/consensus.go:434-459 | For such logs and an up-to-date store without expiry: replaying changes nothing if and only if every key is deleted somewhere in the log or no put of it expects its current version |
| WalRecovery.FailedPutDiverges | pkg/kv/consensus.go:434-459 | A concrete log with one failed put whose replay ends in a different store |
| WalRecovery.ExpiryDiverges | pkg/kv/consensus.go:434-459 | A concrete put with a lifetime whose replay ends in a different store |
| WalRecovery.RecoveryExact | pkg/kv/consensus.go:434-459 | For such requests: recovery from their log, truncated anywhere up to the snapshot, over a store that already holds any number of the changes above it, reaches the store and index of executing them once |
| Topology.CountsAddUp | pkg/sharding/topology.go:142-147 | The owners' counts over distinct groups add up to the number of shards |
| Topology.ShareReached | pkg/sharding/topology.go:148-168 | If no donor is left above the target, the new group has at least its share |
| Topology.MoveOne | pkg/sharding/topology.go:157-167 | Moving a donor's highest shard keeps every planning invariant and shifts one count |
| Topology.MovesReach | pkg/sharding/topology.go:201-213 | Moving the listed shards one by one arrives at the planned table |
| Topology.RoundRobinBalanced | pkg/sharding/topology.go:54-57 | Each group gets the quotient of shards by groups, the first few one more |
| Topology.ShardTopology.constructor | pkg/sharding/topology.go:31-60 | Round robin over the groups in ascending order, 1024 shards by default; groups must not be empty, as the source demands |
| Topology.ShardTopology.WithOwnership | pkg/sharding/topology.go:64-81 | Refused if and only if the sizes disagree or some owner is unknown; otherwise exactly the given table and epoch |
| Topology.ShardTopology.MoveShard | pkg/sharding/topology.go:201-213 | Succeeds if and only if shard and group exist; changes one owner and raises the epoch by one |
| Topology.ShardTopology.RegisterGroup | pkg/sharding/topology.go:186-197 | Adds a new group without changing ownership |
| Topology.ShardTopology.LastOwned | pkg/sharding/topology.go:158-166 | The downward search finds the donor's highest shard |
| Topology.ShardTopology.Tally | pkg/sharding/topology.go:143-146 | The counts are the numbers of shards owned |
| Topology.ShardTopology.TakeFrom | pkg/sharding/topology.go:157-168 | One donor gives its highest shards until it or the new group is at the target |
| Topology.ShardTopology.AskDonors | pkg/sharding/topology.go:153-169 | All donors in ascending order |
| Topology.ShardTopology.PlanAddGroup | pkg/sharding/topology.go:136-171 | No plan for a known group or one without replicas; otherwise it terminates, the new group gets exactly numShards/(groups+1) shards, no donor falls below that, ownership changes at exactly the listed distinct shards, donors are asked in ascending order and give their highest shards |

## Left out

- Durable.PersistRun: requests are carried out in enqueue order, total sizes stay below 2^63, and a node that restarts from a disk that is behind does not go on.
- Durable.Reopen: a restart between two requests; a crash inside a request is `Durable.PersistThenCrash`.
- Durable.PersistThenCrash: the run does not go on after the crash; what later frames do behind a torn one is `FilePersister.TornHides`.
- DeltaFrames.HiddenBehindTorn: a file long enough for the length stated by a header torn after its magic number is not covered; `DeltaFrames.AppendedBehindTorn` covers it where the whole header is there.
- FilePersister.Persister.CommitGeneration: not stated for a disk whose manifest names missing files; opening such a disk is.
- WalRecovery.PrefixConverges: logs with lifetimes, with expiry, or with transaction requests that write cells are not covered.
- WalRecovery.ReplayConverges: logs with lifetimes, with expiry, or with transaction requests that write cells are not covered; for a proper prefix the condition is sufficient only.
- WalRecovery.FullReplayExact: the same logs are not covered.
- WalRecovery.RecoveryExact: the same logs are not covered.
- RaftSystem.DoAdvance: acknowledgements and matchIndex are not part of cluster runs; `RaftNode.Raft.HandleAppendReply` models them for one node.
- TxGroup.Prepare: marshalling and storage errors (ErrWrongLeader) are not modelled; neither are they elsewhere.
- TxGroup.ResolveStatus: the timeout abort of transactions without participants is not modelled.
- TxManager.Manager.RebuildLockTable: records are stored under their own transaction id, as Prepare leaves them; corrupt JSON records are not modelled.
- WalEntries.ToRequest: operation names are compared exactly, not after trimming and upper-casing.
- WalRecovery.DoOp: versions grow without the 64-bit limit, as in the rest of the store.
- Topology.ShardTopology.constructor: an empty group map, which makes the code divide by zero, is excluded.
- Leader completeness and state-machine safety: a stepped-down node may send under a term it does not lead, and persistedIndex is not lowered when a suffix is cut.
- InstallSnapshot and compacted logs inside Raft runs; snapshots appear in the persistence part only.
- The persister's worker with three channels, which can reorder a save and an append, and write errors.
- A failing gob encoding, on which the process exits.
- Serializability of transactions.
- Mutexes and goroutine interleavings inside one handler.
- Determinism of replicas that read the clock or query other groups while applying.
- Online shard migration, shards not owned by the group, and forwarding.
- Lease reads, the expiry heap, watches, gRPC, router failover, CLI, metrics.
- JSON, gob, BadgerDB, xxhash and the file system beyond atomic rename: taken as maps, byte strings and functions.
