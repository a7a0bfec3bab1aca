/** A cluster of Raft nodes as a state machine (pkg/raft/raft.go): every handler is one atomic
    step; messages may be lost, delayed, reordered and, for appends, duplicated; each node
    has two files (hard state and Raft state) written asynchronously in enqueue order; a
    restart falls back to what reached the files. */
module RaftSystem {
  import opened Bytes
  import opened PersistFormat
  import opened RaftHandlers

  /** The (term, vote) pair that both files carry. */
  datatype Ballot = Ballot(term: int, vote: int)

  datatype Saved = Saved(ballot: Ballot, log: seq<LogEntry>)

  /** A vote granted in memory whose reply waits for its hard-state write. */
  datatype Pledge = Pledge(term: int, candidate: int)

  /** A node with its write queues and files. The last three fields are history:
      the vote it last cast in each term, the voters it has counted, and every pair
      that ever reached one of its files. */
  datatype Host = Host(
    node: Node,
    hardQueue: seq<Ballot>, stateQueue: seq<Saved>,
    hard: Ballot, saved: Saved,
    waiting: set<Pledge>,
    cast: map<int, int>, tally: set<int>, persisted: set<Ballot>)

  datatype VoteRequest = VoteRequest(to: int, args: VoteArgs)
  datatype VoteAnswer = VoteAnswer(from: int, to: int, reply: VoteReply)

  /** An append in flight, with the sender's whole log at the time (history). */
  datatype AppendMsg = AppendMsg(args: AppendArgs, source: seq<LogEntry>)

  /** A vote that has become visible to another node (history). */
  datatype Grant = Grant(voter: int, term: int, candidate: int)

  /** A leadership (history): who led, with whose votes, and the log it built up. */
  datatype Lead = Lead(leader: int, voters: set<int>, canon: seq<LogEntry>)

  datatype System = System(
    hosts: seq<Host>,
    requests: set<VoteRequest>, answers: set<VoteAnswer>, appends: set<AppendMsg>,
    grants: set<Grant>, led: map<int, Lead>)

  function Current(n: Node): (b: Ballot) {
    Ballot(n.term, n.vote)
  }

  /** readPersist followed by readHardState: the hard state wins if its term is newer, or
      the same with a vote in it. */
  function Merge(header: Ballot, hard: Ballot): (b: Ballot) {
    if hard.term > header.term || (hard.term == header.term && hard.vote != NO_VOTE) then hard else header
  }

  // ---------------------------------------------------------------- host-level effects

  /** enqueuePersistHardStateLocked / enqueuePersistLocked */
  function Enqueue(h: Host, p: Persist): (r: Host) {
    match p
    case Nothing => h
    case HardState => h.(hardQueue := h.hardQueue + [Current(h.node)])
    case RaftState => h.(stateQueue := h.stateQueue + [Saved(Current(h.node), h.node.log)])
  }

  /** persistHardState with the lock held: returns once this write, and so every earlier
      one, is on disk. */
  function WriteHard(h: Host): (r: Host) {
    var b := Current(h.node);
    h.(hardQueue := [], hard := b, persisted := h.persisted + {b})
  }

  function Reboot(h: Host): (r: Host) {
    var b := Merge(h.saved.ballot, h.hard);
    h.(node := Node(b.term, b.vote, Follower, 0, h.saved.log, 0),
       hardQueue := [], stateQueue := [], waiting := {}, tally := {})
  }

  // ---------------------------------------------------------------- steps

  datatype Step =
    | Timeout(i: int)
    | HandleVote(request: VoteRequest)
    | FlushHard(i: int, k: nat)
    | FlushState(i: int, k: nat)
    | AnswerVote(i: int, pledge: Pledge)
    | ReceiveAnswer(answer: VoteAnswer)
    | Propose(i: int, command: seq<byte>)
    | Advance(i: int, n: int)
    | SendAppend(i: int, next: nat)
    | ReceiveAppend(i: int, msg: AppendMsg)
    | LearnTerm(i: int, term: int)
    | Restart(i: int)

  predicate IsHost(s: System, i: int) {
    0 <= i < |s.hosts|
  }

  predicate Enabled(s: System, step: Step) {
    match step
    case Timeout(i) => IsHost(s, i)
    case HandleVote(r) => r in s.requests && IsHost(s, r.to) && s.hosts[r.to].node.log != []
    case FlushHard(i, k) => IsHost(s, i) && 0 < k <= |s.hosts[i].hardQueue|
    case FlushState(i, k) => IsHost(s, i) && 0 < k <= |s.hosts[i].stateQueue|
    case AnswerVote(i, p) =>
      IsHost(s, i) && p in s.hosts[i].waiting && Under(Ballot(p.term, p.candidate), s.hosts[i].hard)
    case ReceiveAnswer(a) => a in s.answers && IsHost(s, a.to)
    case Propose(i, _) => IsHost(s, i) && s.hosts[i].node.role == Leader
    case Advance(i, n) =>
      IsHost(s, i) && s.hosts[i].node.role == Leader && s.hosts[i].node.commit < n <= LastIndex(s.hosts[i].node.log)
    case SendAppend(i, next) => IsHost(s, i) && 1 <= next <= |s.hosts[i].node.log|
    case ReceiveAppend(i, m) => IsHost(s, i) && m in s.appends && s.hosts[i].node.log != []
    case LearnTerm(i, t) => IsHost(s, i) && t > s.hosts[i].node.term
    case Restart(i) => IsHost(s, i)
  }

  /** a was superseded by b or is b: an earlier term, or the same term with the same vote
      or none yet. */
  predicate Under(a: Ballot, b: Ballot) {
    a.term < b.term || (a.term == b.term && (a.vote == NO_VOTE || a.vote == b.vote))
  }

  function Requests(s: System, i: int, args: VoteArgs): (r: set<VoteRequest>) {
    set to: int | 0 <= to < |s.hosts| && to != i :: VoteRequest(to, args)
  }

  /** If host i has just become leader, its leadership is recorded. */
  function Crowned(s: System, i: int, h: Host): (led: map<int, Lead>)
    requires IsHost(s, i)
  {
    if h.node.role == Leader && s.hosts[i].node.role != Leader
    then s.led[h.node.term := Lead(i, h.tally, h.node.log)]
    else s.led
  }

  function DoTimeout(s: System, i: int): (s': System)
    requires IsHost(s, i)
  {
    var h := s.hosts[i];
    var n := StartElection(h.node, i, |s.hosts|);
    var h' := WriteHard(h.(node := n, cast := h.cast[n.term := i], tally := {i}));
    var args := VoteArgs(n.term, i, LastIndex(n.log), if n.log == [] then 0 else LastTerm(n.log));
    s.(hosts := s.hosts[i := h'],
       grants := s.grants + {Grant(i, n.term, i)},
       requests := s.requests + Requests(s, i, args),
       led := if n.role == Leader then s.led[n.term := Lead(i, {i}, n.log)] else s.led)
  }

  function DoHandleVote(s: System, r: VoteRequest): (s': System)
    requires IsHost(s, r.to) && s.hosts[r.to].node.log != []
  {
    var h := s.hosts[r.to];
    var v := HandleRequestVote(h.node, r.args);
    var h1 := Enqueue(h.(node := v.node), v.persist);
    var h' := if v.reply.granted
      then h1.(cast := h.cast[r.args.term := r.args.candidate],
        waiting := h.waiting + {Pledge(r.args.term, r.args.candidate)})
      else h1;
    s.(hosts := s.hosts[r.to := h'],
       requests := s.requests - {r},
       answers := if v.reply.granted then s.answers else s.answers + {VoteAnswer(r.to, r.args.candidate, v.reply)})
  }

  function DoFlushHard(s: System, i: int, k: nat): (s': System)
    requires IsHost(s, i) && 0 < k <= |s.hosts[i].hardQueue|
  {
    var h := s.hosts[i];
    var b := h.hardQueue[k - 1];
    s.(hosts := s.hosts[i := h.(hard := b, hardQueue := h.hardQueue[k..], persisted := h.persisted + {b})])
  }

  function DoFlushState(s: System, i: int, k: nat): (s': System)
    requires IsHost(s, i) && 0 < k <= |s.hosts[i].stateQueue|
  {
    var h := s.hosts[i];
    var w := h.stateQueue[k - 1];
    s.(hosts := s.hosts[i := h.(saved := w, stateQueue := h.stateQueue[k..], persisted := h.persisted + {w.ballot})])
  }

  function DoAnswerVote(s: System, i: int, p: Pledge): (s': System)
    requires IsHost(s, i)
  {
    s.(hosts := s.hosts[i := s.hosts[i].(waiting := s.hosts[i].waiting - {p})],
       answers := s.answers + {VoteAnswer(i, p.candidate, VoteReply(p.term, true))},
       grants := s.grants + {Grant(i, p.term, p.candidate)})
  }

  function DoReceiveAnswer(s: System, a: VoteAnswer): (s': System)
    requires IsHost(s, a.to)
  {
    var h := s.hosts[a.to];
    var n := HandleVoteReply(h.node, |s.hosts|, a.reply);
    var counted := a.reply.granted && a.reply.term == h.node.term && h.node.role == Candidate;
    var h1 := h.(node := n, tally := if counted then h.tally + {a.from} else h.tally);
    var h' := if a.reply.term > h.node.term then WriteHard(h1) else h1;
    s.(hosts := s.hosts[a.to := h'], answers := s.answers - {a}, led := Crowned(s, a.to, h'))
  }

  /** A leader's new entry; the log it builds up is recorded. */
  function DoPropose(s: System, i: int, command: seq<byte>): (s': System)
    requires IsHost(s, i)
  {
    var h := s.hosts[i];
    var n := ClientAppend(h.node, command);
    s.(hosts := s.hosts[i := Enqueue(h.(node := n), RaftState)],
       led := if n.term in s.led then s.led[n.term := s.led[n.term].(canon := n.log)] else s.led)
  }

  /** A leader commits any further index of its log, whichever acknowledgements it counts. */
  function DoAdvance(s: System, i: int, n: int): (s': System)
    requires IsHost(s, i)
  {
    s.(hosts := s.hosts[i := s.hosts[i].(node := s.hosts[i].node.(commit := n))])
  }

  function DoSendAppend(s: System, i: int, next: nat): (s': System)
    requires IsHost(s, i) && 1 <= next <= |s.hosts[i].node.log|
  {
    var n := s.hosts[i].node;
    s.(appends := s.appends + {AppendMsg(BuildAppend(n, i, next), n.log)})
  }

  function DoReceiveAppend(s: System, i: int, m: AppendMsg): (s': System)
    requires IsHost(s, i) && s.hosts[i].node.log != []
  {
    var h := s.hosts[i];
    var r := HandleAppend(h.node, m.args);
    s.(hosts := s.hosts[i := Enqueue(h.(node := r.node), r.persist)])
  }

  /** Any reply that carries a newer term makes its receiver step down. */
  function DoLearnTerm(s: System, i: int, term: int): (s': System)
    requires IsHost(s, i)
  {
    var h := s.hosts[i];
    s.(hosts := s.hosts[i := WriteHard(h.(node := StepDown(h.node, term)))])
  }

  function DoRestart(s: System, i: int): (s': System)
    requires IsHost(s, i)
  {
    s.(hosts := s.hosts[i := Reboot(s.hosts[i])])
  }

  function Do(s: System, step: Step): (s': System)
    requires Enabled(s, step)
  {
    match step
    case Timeout(i) => DoTimeout(s, i)
    case HandleVote(r) => DoHandleVote(s, r)
    case FlushHard(i, k) => DoFlushHard(s, i, k)
    case FlushState(i, k) => DoFlushState(s, i, k)
    case AnswerVote(i, p) => DoAnswerVote(s, i, p)
    case ReceiveAnswer(a) => DoReceiveAnswer(s, a)
    case Propose(i, c) => DoPropose(s, i, c)
    case Advance(i, n) => DoAdvance(s, i, n)
    case SendAppend(i, next) => DoSendAppend(s, i, next)
    case ReceiveAppend(i, m) => DoReceiveAppend(s, i, m)
    case LearnTerm(i, t) => DoLearnTerm(s, i, t)
    case Restart(i) => DoRestart(s, i)
  }

  const START := Ballot(0, NO_VOTE)

  function FreshHost(): (h: Host) {
    Host(Node(0, NO_VOTE, Follower, 0, [DUMMY], 0), [], [], START, Saved(START, [DUMMY]), {}, map[], {}, {START})
  }

  function InitialSystem(peers: nat): (s: System) {
    System(seq(peers, _ => FreshHost()), {}, {}, {}, {}, map[0 := Lead(-1, {}, [DUMMY])])
  }

  /** A run: every state follows from the one before by some enabled step. */
  ghost predicate IsRun(states: seq<System>, steps: seq<Step>) {
    && |states| == |steps| + 1
    && (exists peers: nat :: states[0] == InitialSystem(peers))
    && (forall k | 0 <= k < |steps| :: Enabled(states[k], steps[k]) && states[k + 1] == Do(states[k], steps[k]))
  }
}
