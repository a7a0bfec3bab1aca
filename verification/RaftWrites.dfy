/** What every run keeps of terms and pending writes: along every log the terms never fall, and
    every change of a node's term, vote or log is on disk or on its way there. */
module RaftWrites {
  import opened PersistFormat
  import opened RaftHandlers
  import opened RaftSystem
  import opened RaftBallots
  import opened RaftElections
  import opened RaftElectionSteps
  import opened RaftSafety
  import opened LogRepair

  /** Terms rise along the log, up to at most this one. */
  ghost predicate Tame(log: seq<LogEntry>, term: int) {
    log != [] && TermsRise(log) && log[|log| - 1].term <= term
  }

  /** The contents of the two files once everything queued is written. */
  function FinalSaved(h: Host): (w: Saved) {
    if h.stateQueue == [] then h.saved else h.stateQueue[|h.stateQueue| - 1]
  }

  function FinalHard(h: Host): (b: Ballot) {
    if h.hardQueue == [] then h.hard else h.hardQueue[|h.hardQueue| - 1]
  }

  ghost predicate HostOk(h: Host) {
    && Tame(h.node.log, h.node.term) && Tame(h.saved.log, h.saved.ballot.term)
    && (forall k | 0 <= k < |h.stateQueue| :: Tame(h.stateQueue[k].log, h.stateQueue[k].ballot.term))
    && FinalSaved(h).log == h.node.log
    && (FinalHard(h) == Current(h.node) || FinalSaved(h).ballot == Current(h.node))
  }

  ghost predicate WritesOk(s: System) {
    && (forall i | 0 <= i < |s.hosts| :: HostOk(s.hosts[i]))
    && (forall m | m in s.appends :: Tame(m.source, m.args.term))
  }

  lemma OneHost(s: System, s': System, i: int)
    requires WritesOk(s) && IsHost(s, i) && |s'.hosts| == |s.hosts| && s'.hosts == s.hosts[i := s'.hosts[i]]
    requires s'.appends == s.appends && HostOk(s'.hosts[i])
    ensures WritesOk(s')
  {
    hide HostOk, Tame;
  }

  /** The node's log stays and its new pair, if any, is queued or written. */
  lemma BallotMoves(h: Host, n: Node, p: Persist)
    requires HostOk(h) && n.log == h.node.log && n.term >= h.node.term
    requires p == HardState || (p == Nothing && Current(n) == Current(h.node))
    ensures HostOk(Enqueue(h.(node := n), p)) && HostOk(WriteHard(h.(node := n)))
  {
    hide TermsRise;
  }

  /** Fields that are neither written nor queued. */
  lemma Aside(h: Host, h': Host)
    requires HostOk(h) && Current(h'.node) == Current(h.node) && h'.node.log == h.node.log
    requires h'.hardQueue == h.hardQueue && h'.stateQueue == h.stateQueue && h'.hard == h.hard && h'.saved == h.saved
    ensures HostOk(h')
  {
    hide TermsRise;
  }

  /** The log changes and the whole state is queued. */
  lemma LogMoves(h: Host, n: Node)
    requires HostOk(h) && Tame(n.log, n.term)
    ensures HostOk(Enqueue(h.(node := n), RaftState))
  {
    hide TermsRise;
  }

  lemma ReceiveAppendWrites(s: System, i: int, m: AppendMsg)
    requires WritesOk(s) && LogsOk(s) && Enabled(s, ReceiveAppend(i, m))
    ensures WritesOk(DoReceiveAppend(s, i, m))
  {
    hide Coherent, HandleAppend, LogsMatch, Enqueue, HostOk, TermsRise;
    var h, s' := s.hosts[i], DoReceiveAppend(s, i, m);
    var r := HandleAppend(h.node, m.args);
    assert HostLogsOk(s.led, h) && MessageOk(s.led, m);
    CoherentKindred(s.led, h.node.log, m.source);
    KindredLogsMatch(h.node.log, m.source);
    AppendedLog(h.node, m);
    AppendAnswers(h.node, m.args);
    assert HostOk(h) && Tame(m.source, m.args.term);
    if r.persist == RaftState {
      LogMoves(h, r.node);
    } else {
      BallotMoves(h, r.node, r.persist);
    }
    OneHost(s, s', i);
  }

  lemma HandleVoteWrites(s: System, r: VoteRequest)
    requires WritesOk(s) && Enabled(s, HandleVote(r))
    ensures WritesOk(DoHandleVote(s, r))
  {
    hide HandleRequestVote, HostOk, TermsRise;
    var h, s' := s.hosts[r.to], DoHandleVote(s, r);
    var v := HandleRequestVote(h.node, r.args);
    GrantedExactly(h.node, r.args);
    BallotMoves(h, v.node, v.persist);
    Aside(Enqueue(h.(node := v.node), v.persist), s'.hosts[r.to]);
    OneHost(s, s', r.to);
  }

  /** Steps that write the hard state before anything else happens, or no pair at all. */
  lemma QuickWrites(s: System, step: Step)
    requires WritesOk(s) && Enabled(s, step)
    requires step.Timeout? || step.LearnTerm? || step.ReceiveAnswer? || step.AnswerVote? || step.Advance?
    ensures WritesOk(Do(s, step))
  {
    hide HostOk, WriteHard;
    var i := if step.ReceiveAnswer? then step.answer.to else step.i;
    var h, s' := s.hosts[i], Do(s, step);
    var h' := s'.hosts[i];
    if step.Timeout? || step.LearnTerm? || (step.ReceiveAnswer? && step.answer.reply.term > h.node.term) {
      BallotMoves(h, h'.node, HardState) by { WrittenNode(h, s, step, i); }
      Aside(WriteHard(h.(node := h'.node)), h') by { WrittenNode(h, s, step, i); }
    } else {
      Aside(h, h');
    }
    OneHost(s, s', i);
  }

  lemma WrittenNode(h: Host, s: System, step: Step, i: int)
    requires Enabled(s, step) && IsHost(s, i) && h == s.hosts[i]
    requires (step.Timeout? && step.i == i) || (step.LearnTerm? && step.i == i)
      || (step.ReceiveAnswer? && step.answer.to == i && step.answer.reply.term > h.node.term)
    ensures var h' := Do(s, step).hosts[i];
      var w := WriteHard(h.(node := h'.node));
      && h'.node.log == h.node.log && h'.node.term >= h.node.term
      && h'.node == w.node && h'.hardQueue == w.hardQueue && h'.stateQueue == w.stateQueue
      && h'.hard == w.hard && h'.saved == w.saved
  {}

  lemma FlushWrites(s: System, step: Step)
    requires WritesOk(s) && Enabled(s, step) && (step.FlushHard? || step.FlushState?)
    ensures WritesOk(Do(s, step))
  {
    hide TermsRise, Tame;
    OneHost(s, Do(s, step), step.i);
  }

  lemma RestartWrites(s: System, i: int)
    requires WritesOk(s) && Enabled(s, Restart(i))
    ensures WritesOk(DoRestart(s, i))
  {
    hide TermsRise;
    assert HostOk(s.hosts[i]);
    OneHost(s, DoRestart(s, i), i);
  }

  lemma ProposeWrites(s: System, step: Step)
    requires WritesOk(s) && Enabled(s, step) && step.Propose?
    ensures WritesOk(Do(s, step))
  {
    hide HostOk;
    var h := s.hosts[step.i];
    assert HostOk(h);
    LogExtended(h, step.command);
    LogMoves(h, ClientAppend(h.node, step.command));
    OneHost(s, Do(s, step), step.i);
  }

  lemma LogExtended(h: Host, command: seq<Bytes.byte>)
    requires HostOk(h)
    ensures Tame(ClientAppend(h.node, command).log, h.node.term)
  {}

  lemma StepWrites(s: System, step: Step)
    requires SystemOk(s) && WritesOk(s) && Enabled(s, step)
    ensures WritesOk(Do(s, step))
  {
    hide ElectionsOk, LogsOk, HostOk, Tame;
    match step
    case ReceiveAppend(i, m) => ReceiveAppendWrites(s, i, m);
    case HandleVote(r) => HandleVoteWrites(s, r);
    case FlushHard(_, _) => FlushWrites(s, step);
    case FlushState(_, _) => FlushWrites(s, step);
    case Restart(i) => RestartWrites(s, i);
    case Propose(_, _) => ProposeWrites(s, step);
    case SendAppend(i, _) => assert Tame(s.hosts[i].node.log, s.hosts[i].node.term) by { TameNode(s, i); }
    case _ => QuickWrites(s, step);
  }

  lemma TameNode(s: System, i: int)
    requires WritesOk(s) && IsHost(s, i)
    ensures Tame(s.hosts[i].node.log, s.hosts[i].node.term)
  {
    hide TermsRise;
    assert HostOk(s.hosts[i]);
  }

  lemma {:induction false} RunWrites(states: seq<System>, steps: seq<Step>, k: nat)
    requires IsRun(states, steps) && k < |states|
    ensures WritesOk(states[k])
  {
    hide Do, Enabled, WritesOk, SystemOk;
    if k == 0 {
      var peers: nat :| states[0] == InitialSystem(peers);
      InitialWrites(peers);
    } else {
      RunWrites(states, steps, k - 1);
      RunKeeps(states, steps, k - 1, k - 1);
      assert states[k - 1 + 1] == Do(states[k - 1], steps[k - 1]);
      StepWrites(states[k - 1], steps[k - 1]);
    }
  }

  lemma InitialWrites(peers: nat)
    ensures WritesOk(InitialSystem(peers))
  {
    assert HostOk(FreshHost());
  }

  // ---------------------------------------------------------------- theorems

  /** Along every log held anywhere in a run the terms never fall. */
  lemma TermsNeverFall(states: seq<System>, steps: seq<Step>, k: nat, log: seq<LogEntry>)
    requires IsRun(states, steps) && k < |states| && RaftSafety.Holds(states[k], log)
    ensures TermsRise(log)
  {
    hide IsRun, TermsRise;
    RunWrites(states, steps, k);
    var s := states[k];
    if i :| IsHost(s, i) && HostHolds(s.hosts[i], log) {
      assert HostOk(s.hosts[i]);
    } else {
      var m :| m in s.appends && m.source == log;
      assert Tame(m.source, m.args.term);
    }
  }

  /** The steps that bring everything queued at a host to its files. */
  function Settled(s: System, i: int): (r: System)
    requires IsHost(s, i)
    ensures IsHost(r, i)
  {
    var s1 := if s.hosts[i].hardQueue == [] then s else Do(s, FlushHard(i, |s.hosts[i].hardQueue|));
    if s1.hosts[i].stateQueue == [] then s1 else Do(s1, FlushState(i, |s1.hosts[i].stateQueue|))
  }

  lemma SettledFiles(s: System, i: int)
    requires IsHost(s, i)
    ensures var h, h' := s.hosts[i], Settled(s, i).hosts[i];
      h'.hard == FinalHard(h) && h'.saved == FinalSaved(h) && h'.node == h.node
  {}

  /** No change is forgotten: a node that restarts once its queued writes have reached the disk
      has exactly the term, vote and log it had in memory. */
  lemma NothingForgotten(states: seq<System>, steps: seq<Step>, k: nat, i: int)
    requires IsRun(states, steps) && k < |states| && IsHost(states[k], i)
    ensures var n, m := states[k].hosts[i].node, Do(Settled(states[k], i), Restart(i)).hosts[i].node;
      m.term == n.term && m.vote == n.vote && m.log == n.log && m.role == Follower
  {
    hide IsRun, ElectionsOk, LogsOk, BallotsOk, Tame, Settled;
    SettledFiles(states[k], i);
    RunWrites(states, steps, k);
    RunKeeps(states, steps, k, k);
    var h := states[k].hosts[i];
    assert HostOk(h);
    BallotsAt(states[k], i);
    FinalBallots(h);
    MergeSupersedes(h.cast, FinalSaved(h).ballot, FinalHard(h));
  }

  lemma FinalBallots(h: Host)
    requires BallotsOk(h)
    ensures ClaimOk(h.cast, FinalSaved(h).ballot) && Under(FinalSaved(h).ballot, Current(h.node))
    ensures ClaimOk(h.cast, FinalHard(h)) && Under(FinalHard(h), Current(h.node))
  {}

  /** A node that learns of a newer term follows in it without a vote, and that is on disk. */
  lemma TermLearned(s: System, i: int, term: int)
    requires Enabled(s, LearnTerm(i, term))
    ensures var h, h' := s.hosts[i], Do(s, LearnTerm(i, term)).hosts[i];
      && h'.node.role == Follower && h'.node.log == h.node.log && h'.hardQueue == []
      && h'.hard == Current(h'.node) == Ballot(term, NO_VOTE)
  {}

  /** In every run a refused exchange between two nodes backs up as fast as the hint allows. */
  lemma BacktrackInRuns(states: seq<System>, steps: seq<Step>, k: nat, i: int, j: int, next: nat)
    requires IsRun(states, steps) && k < |states| && IsHost(states[k], i) && IsHost(states[k], j)
    requires states[k].hosts[j].node.term <= states[k].hosts[i].node.term && 1 <= next <= |states[k].hosts[i].node.log|
    ensures var leader, follower := states[k].hosts[i].node, states[k].hosts[j].node;
      && CanExchange(leader, follower, next)
      && (Exchange(leader, i, follower, next).reply.success || Fast(leader, i, follower, next))
  {
    hide IsRun, Fast, Exchange, TermsRise, CanExchange, CommitLearned, Repaired;
    RepairInRuns(states, steps, k, i, j, next);
    RunWrites(states, steps, k);
    assert HostOk(states[k].hosts[i]) && HostOk(states[k].hosts[j]);
    if !Exchange(states[k].hosts[i].node, i, states[k].hosts[j].node, next).reply.success {
      BacktrackFast(states[k].hosts[i].node, i, states[k].hosts[j].node, next);
    }
  }
}
