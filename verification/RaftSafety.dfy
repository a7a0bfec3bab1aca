/** Safety over whole runs: election safety, Log Matching, and what follows for restarts,
    log repair and commit indexes. */
module RaftSafety {
  import opened Bytes
  import opened PersistFormat
  import opened RaftHandlers
  import opened RaftSystem
  import opened RaftBallots
  import opened RaftElections
  import opened RaftElectionSteps
  import opened LogRepair
  import RaftNode

  // ---------------------------------------------------------------- the canonical log of each term

  /** Every prefix that ends in an entry of term t is a prefix of what t's leader built. */
  ghost predicate Coherent(led: map<int, Lead>, log: seq<LogEntry>) {
    && Grounded(log)
    && forall k | 0 <= k < |log| :: Canonical(led, log, k)
  }

  ghost predicate Canonical(led: map<int, Lead>, log: seq<LogEntry>, k: nat)
    requires k < |log|
  {
    var t := log[k].term;
    t in led && k < |led[t].canon| && log[..k + 1] == led[t].canon[..k + 1]
  }

  ghost predicate HostLogsOk(led: map<int, Lead>, h: Host) {
    && h.node.commit >= 0
    && Coherent(led, h.node.log) && Coherent(led, h.saved.log)
    && (forall k | 0 <= k < |h.stateQueue| :: Coherent(led, h.stateQueue[k].log))
    && (h.node.role == Leader ==> h.node.term in led && h.node.log == led[h.node.term].canon)
  }

  ghost predicate MessageOk(led: map<int, Lead>, m: AppendMsg) {
    && Coherent(led, m.source)
    && m.args.prevIndex < |m.source|
    && m.args.prevTerm == m.source[m.args.prevIndex].term
    && m.args.entries == m.source[m.args.prevIndex + 1..]
  }

  ghost predicate LogsOk(s: System) {
    && 0 in s.led
    && (forall t | t in s.led :: Coherent(s.led, s.led[t].canon))
    && (forall i | 0 <= i < |s.hosts| :: HostLogsOk(s.led, s.hosts[i]))
    && (forall m | m in s.appends :: MessageOk(s.led, m))
  }

  /** Leaderships are only added, and their logs only grow. */
  ghost predicate Extends(led: map<int, Lead>, led': map<int, Lead>) {
    forall t | t in led :: t in led' && led'[t].leader == led[t].leader && led[t].canon <= led'[t].canon
  }

  lemma StillCoherent(led: map<int, Lead>, led': map<int, Lead>, log: seq<LogEntry>)
    requires Coherent(led, log) && Extends(led, led')
    ensures Coherent(led', log)
  {
    forall k | 0 <= k < |log|
      ensures Canonical(led', log, k)
    {
      assert Canonical(led, log, k);
      var t := log[k].term;
      assert led'[t].canon[..k + 1] == led[t].canon[..k + 1];
    }
  }

  /** Coherent logs agree up to any entry terms they share. */
  lemma CoherentKindred(led: map<int, Lead>, a: seq<LogEntry>, b: seq<LogEntry>)
    requires Coherent(led, a) && Coherent(led, b)
    ensures Kindred(a, b)
  {
    forall i, j | 0 <= i < |a| && 0 <= j < |b| && a[i].term == b[j].term
      ensures var m := MinInt(i, j); a[..m + 1] == b[..m + 1]
    {
      assert Canonical(led, a, i) && Canonical(led, b, j);
      var m := MinInt(i, j);
      var canon := led[a[i].term].canon;
      assert a[..m + 1] == a[..i + 1][..m + 1] == canon[..m + 1];
      assert b[..m + 1] == b[..j + 1][..m + 1] == canon[..m + 1];
    }
  }

  // ---------------------------------------------------------------- steps keep the logs coherent

  /** A host whose log is one of known coherent logs, and which becomes no leader. */
  lemma HostKept(led: map<int, Lead>, h: Host, h': Host)
    requires HostLogsOk(led, h)
    requires Coherent(led, h'.node.log) && h'.saved == h.saved
    requires h'.stateQueue == h.stateQueue || h'.stateQueue == h.stateQueue + [Saved(Current(h'.node), h'.node.log)]
      || h'.stateQueue == []
    requires h'.node.role == Leader ==>
      h.node.role == Leader && h'.node.term == h.node.term && h'.node.log == h.node.log
    requires h'.node.commit >= 0
    ensures HostLogsOk(led, h')
  {
    hide Coherent;
  }

  lemma OneHostChanged(s: System, s': System, i: int)
    requires LogsOk(s) && IsHost(s, i) && |s'.hosts| == |s.hosts| && s'.hosts == s.hosts[i := s'.hosts[i]]
    requires s'.led == s.led && s'.appends == s.appends && HostLogsOk(s.led, s'.hosts[i])
    ensures LogsOk(s')
  {
    hide HostLogsOk, Coherent, MessageOk;
  }

  /** What AppendEntries can leave in the log: the old one, or exactly the sender's. */
  lemma AppendedLog(n: Node, m: AppendMsg)
    requires n.log != [] && LogsMatch(n.log, m.source)
    requires m.args.prevIndex < |m.source| && m.args.prevTerm == m.source[m.args.prevIndex].term
    requires m.args.entries == m.source[m.args.prevIndex + 1..]
    ensures var r := HandleAppend(n, m.args).node;
      && (r.log == n.log || r.log == m.source)
      && (r.role == Leader ==> r == n)
      && (n.commit >= 0 ==> r.commit >= 0)
  {
    hide MergeLog, FirstOfTerm, LogsMatch, Matching;
    if m.args.prevIndex < |n.log| && n.log[m.args.prevIndex].term == m.args.prevTerm {
      MergeResult(n.log, m.source, m.args.prevIndex);
    }
  }

  lemma ReceiveAppendLogs(s: System, i: int, m: AppendMsg)
    requires LogsOk(s) && Enabled(s, ReceiveAppend(i, m))
    ensures LogsOk(DoReceiveAppend(s, i, m))
  {
    hide Coherent, HandleAppend, LogsMatch;
    var h, s' := s.hosts[i], DoReceiveAppend(s, i, m);
    assert HostLogsOk(s.led, h) && MessageOk(s.led, m);
    CoherentKindred(s.led, h.node.log, m.source);
    KindredLogsMatch(h.node.log, m.source);
    AppendedLog(h.node, m);
    HostKept(s.led, h, s'.hosts[i]);
    OneHostChanged(s, s', i);
  }

  lemma ProposeLogs(s: System, i: int, command: seq<byte>)
    requires LogsOk(s) && LedOk(s) && Enabled(s, Propose(i, command))
    ensures LogsOk(DoPropose(s, i, command)) && Extends(s.led, DoPropose(s, i, command).led)
  {
    hide Coherent;
    var h, s' := s.hosts[i], DoPropose(s, i, command);
    var n := ClientAppend(h.node, command);
    assert HostLogsOk(s.led, h);
    assert n.log[..|h.node.log|] == h.node.log;
    assert Extends(s.led, s'.led);
    Grown(s.led, s'.led, h.node.log, n.log);
    AllStillCoherent(s, s', i);
  }

  /** A leader's log with one more entry of its own term. */
  lemma Grown(led: map<int, Lead>, led': map<int, Lead>, log: seq<LogEntry>, log': seq<LogEntry>)
    requires Coherent(led, log) && Extends(led, led') && |log'| == |log| + 1 && log'[..|log|] == log
    requires var t := log'[|log|].term; t in led' && led'[t].canon == log'
    ensures Coherent(led', log')
  {
    StillCoherent(led, led', log);
    forall k | 0 <= k < |log'|
      ensures Canonical(led', log', k)
    {
      if k < |log| {
        assert Canonical(led', log, k);
        assert log'[..k + 1] == log[..k + 1];
      }
    }
  }

  /** After the leaderships have moved on: hosts other than i and all messages are fine. */
  lemma AllStillCoherent(s: System, s': System, i: int)
    requires LogsOk(s) && LedOk(s) && IsHost(s, i) && s'.appends == s.appends
    requires |s'.hosts| == |s.hosts| && s'.hosts == s.hosts[i := s'.hosts[i]]
    requires Extends(s.led, s'.led)
    requires s'.hosts[i].saved == s.hosts[i].saved && s'.hosts[i].node.role == Leader && s'.hosts[i].node.commit >= 0
    requires var n := s'.hosts[i].node;
      n.term in s'.led && s'.led[n.term].canon == n.log && s'.led[n.term].leader == i && Coherent(s'.led, n.log)
    requires var n := s'.hosts[i].node;
      s'.hosts[i].stateQueue == s.hosts[i].stateQueue
        || s'.hosts[i].stateQueue == s.hosts[i].stateQueue + [Saved(Current(n), n.log)]
    requires var n := s'.hosts[i].node; forall t | t in s'.led && t != n.term :: t in s.led && s'.led[t] == s.led[t]
    ensures LogsOk(s')
  {
    hide Coherent;
    forall log | Coherent(s.led, log)
      ensures Coherent(s'.led, log)
    {
      StillCoherent(s.led, s'.led, log);
    }
    forall j | 0 <= j < |s'.hosts|
      ensures HostLogsOk(s'.led, s'.hosts[j])
    {
      assert HostLogsOk(s.led, s.hosts[j]);
    }
    forall m | m in s'.appends
      ensures MessageOk(s'.led, m)
    {
      assert MessageOk(s.led, m);
    }
  }

  /** Winning an election adds a leadership whose canonical log is the winner's. */
  lemma CrownedLogs(s: System, s': System, i: int)
    requires LogsOk(s) && LedOk(s) && IsHost(s, i) && s'.appends == s.appends
    requires |s'.hosts| == |s.hosts| && s'.hosts == s.hosts[i := s'.hosts[i]]
    requires s'.hosts[i].saved == s.hosts[i].saved && s'.hosts[i].stateQueue == s.hosts[i].stateQueue
    requires s'.hosts[i].node.role == Leader && s'.hosts[i].node.log == s.hosts[i].node.log
      && s'.hosts[i].node.commit >= 0
    requires s'.hosts[i].node.term !in s.led
    requires exists voters :: s'.led == s.led[s'.hosts[i].node.term := Lead(i, voters, s.hosts[i].node.log)]
    ensures LogsOk(s') && Extends(s.led, s'.led)
  {
    hide Coherent;
    assert HostLogsOk(s.led, s.hosts[i]);
    assert Extends(s.led, s'.led);
    StillCoherent(s.led, s'.led, s.hosts[i].node.log);
    AllStillCoherent(s, s', i);
  }

  lemma TimeoutLogs(s: System, i: int)
    requires LogsOk(s) && ElectionsOk(s) && Enabled(s, Timeout(i))
    ensures LogsOk(DoTimeout(s, i)) && Extends(s.led, DoTimeout(s, i).led)
  {
    hide Coherent, ElectionsOk;
    var h, s' := s.hosts[i], DoTimeout(s, i);
    var h' := s'.hosts[i];
    assert LedOk(s) by { LedPart(s); }
    if h'.node.role == Leader {
      assert |s.hosts| == 1;
      if h'.node.term in s.led {
        assert LeadOk(s, h'.node.term);
        BallotsAt(s, i);
        NonNegative(h);
        NoLaterCandidacy(s, i, h'.node.term);
        assert false;
      }
      assert s'.led == s.led[h'.node.term := Lead(i, {i}, h.node.log)];
      CrownedLogs(s, s', i);
    } else {
      assert HostLogsOk(s.led, h);
      HostKept(s.led, h, h');
      OneHostChanged(s, s', i);
    }
  }

  lemma LedPart(s: System)
    requires ElectionsOk(s)
    ensures LedOk(s)
  {}

  lemma ReceiveAnswerLogs(s: System, a: VoteAnswer)
    requires LogsOk(s) && ElectionsOk(s) && Enabled(s, ReceiveAnswer(a))
    ensures LogsOk(DoReceiveAnswer(s, a)) && Extends(s.led, DoReceiveAnswer(s, a).led)
  {
    hide Coherent, ElectionsOk;
    var i := a.to;
    var h, s' := s.hosts[i], DoReceiveAnswer(s, a);
    var h' := s'.hosts[i];
    assert LedOk(s) by { LedPart(s); }
    if h'.node.role == Leader && h.node.role != Leader {
      assert h.node.role == Candidate && a.reply.granted && a.reply.term == h.node.term;
      Winner(s, a);
      assert s'.led == s.led[h'.node.term := Lead(i, h'.tally, h.node.log)];
      CrownedLogs(s, s', i);
    } else {
      assert HostLogsOk(s.led, h);
      HostKept(s.led, h, h');
      OneHostChanged(s, s', i);
    }
  }

  lemma Winner(s: System, a: VoteAnswer)
    requires ElectionsOk(s) && a in s.answers && IsHost(s, a.to)
    requires a.reply.granted && a.reply.term == s.hosts[a.to].node.term && s.hosts[a.to].node.role == Candidate
    requires DoReceiveAnswer(s, a).hosts[a.to].node.role == Leader
    ensures s.hosts[a.to].node.term !in s.led
  {
    hide BallotsOk, GrantsOk, RequestsOk, PledgesOk, LedOk;
    assert AnswerOk(s, a) && TallyOk(s, a.to);
    var h := s.hosts[a.to];
    assert a.from !in h.tally;
    WinnerIsFirst(s, a.to, h.tally + {a.from});
  }

  lemma SendAppendLogs(s: System, i: int, next: nat)
    requires LogsOk(s) && Enabled(s, SendAppend(i, next))
    ensures LogsOk(DoSendAppend(s, i, next))
  {
    hide Coherent;
    var s' := DoSendAppend(s, i, next);
    assert HostLogsOk(s.led, s.hosts[i]);
    forall m | m in s'.appends
      ensures MessageOk(s'.led, m)
    {
      assert m in s.appends ==> MessageOk(s.led, m);
    }
  }

  lemma FlushStateLogs(s: System, i: int, k: nat)
    requires LogsOk(s) && Enabled(s, FlushState(i, k))
    ensures LogsOk(DoFlushState(s, i, k))
  {
    hide Coherent;
    assert HostLogsOk(s.led, s.hosts[i]);
    OneHostChanged(s, DoFlushState(s, i, k), i);
  }

  /** Steps that leave the log alone, or fall back to the saved one. */
  lemma OtherLogs(s: System, step: Step)
    requires LogsOk(s) && Enabled(s, step)
    requires step.HandleVote? || step.FlushHard? || step.Advance? || step.AnswerVote? || step.LearnTerm?
      || step.Restart?
    ensures LogsOk(Do(s, step)) && Do(s, step).led == s.led
  {
    hide Coherent, Merge;
    var i := if step.HandleVote? then step.request.to else step.i;
    var h, s' := s.hosts[i], Do(s, step);
    assert HostLogsOk(s.led, h);
    HostKept(s.led, h, s'.hosts[i]);
    OneHostChanged(s, s', i);
  }

  // ---------------------------------------------------------------- runs

  ghost predicate SystemOk(s: System) {
    ElectionsOk(s) && LogsOk(s)
  }

  lemma StepKeeps(s: System, step: Step)
    requires SystemOk(s) && Enabled(s, step)
    ensures SystemOk(Do(s, step)) && Extends(s.led, Do(s, step).led)
    ensures |Do(s, step).hosts| == |s.hosts|
  {
    hide ElectionsOk, LogsOk;
    ElectionsStep(s, step);
    LedPart(s);
    match step
    case Timeout(i) => TimeoutLogs(s, i);
    case ReceiveAnswer(a) => ReceiveAnswerLogs(s, a);
    case Propose(i, c) => ProposeLogs(s, i, c);
    case SendAppend(i, next) => SendAppendLogs(s, i, next);
    case ReceiveAppend(i, m) => ReceiveAppendLogs(s, i, m);
    case FlushState(i, k) => FlushStateLogs(s, i, k);
    case _ => OtherLogs(s, step);
  }

  lemma InitialOk(peers: nat)
    ensures SystemOk(InitialSystem(peers))
  {
    hide ElectionsOk;
    ElectionsInit(peers);
    var s := InitialSystem(peers);
    var ground := s.led[0].canon;
    assert Canonical(s.led, ground, 0);
    assert Coherent(s.led, ground);
    assert HostLogsOk(s.led, FreshHost());
  }

  /** Every state of every run satisfies the invariant, and leaderships are never revised. */
  lemma {:induction false} RunKeeps(states: seq<System>, steps: seq<Step>, a: nat, b: nat)
    requires IsRun(states, steps) && a <= b < |states|
    ensures SystemOk(states[a]) && SystemOk(states[b]) && Extends(states[a].led, states[b].led)
    decreases b
  {
    hide SystemOk, Do, Enabled;
    if b == 0 {
      var peers: nat :| states[0] == InitialSystem(peers);
      InitialOk(peers);
    } else {
      RunKeeps(states, steps, if a == b then b - 1 else a, b - 1);
      assert states[b - 1 + 1] == Do(states[b - 1], steps[b - 1]);
      StepKeeps(states[b - 1], steps[b - 1]);
      if a < b {
        ExtendsTransitive(states[a].led, states[b - 1].led, states[b].led);
      }
    }
  }

  lemma ExtendsTransitive(x: map<int, Lead>, y: map<int, Lead>, z: map<int, Lead>)
    requires Extends(x, y) && Extends(y, z)
    ensures Extends(x, z)
  {}

  ghost predicate Leads(s: System, i: int, t: int) {
    IsHost(s, i) && s.hosts[i].node.role == Leader && s.hosts[i].node.term == t
  }

  /** Election safety across a whole run, restarts included: two nodes that lead the same
      term, at whatever moments, are the same node. */
  lemma ElectionSafety(states: seq<System>, steps: seq<Step>, a: nat, b: nat, i: int, j: int, t: int)
    requires IsRun(states, steps) && a <= b < |states|
    requires Leads(states[a], i, t) && Leads(states[b], j, t)
    ensures i == j
  {
    hide IsRun, BallotsOk, GrantsOk, RequestsOk, PledgesOk, AnswersOk, TalliesOk, LogsOk;
    RunKeeps(states, steps, a, b);
    LedPart(states[a]);
    LedPart(states[b]);
  }

  /** The logs a state knows of: in memory, saved, waiting to be saved, or in flight. */
  ghost predicate Holds(s: System, log: seq<LogEntry>) {
    || (exists i :: IsHost(s, i) && HostHolds(s.hosts[i], log))
    || (exists m :: m in s.appends && m.source == log)
  }

  ghost predicate HostHolds(h: Host, log: seq<LogEntry>) {
    || h.node.log == log || h.saved.log == log
    || (exists k :: 0 <= k < |h.stateQueue| && h.stateQueue[k].log == log)
  }

  lemma HeldIsCoherent(s: System, log: seq<LogEntry>)
    requires LogsOk(s) && Holds(s, log)
    ensures Coherent(s.led, log)
  {
    hide Coherent;
    if i :| IsHost(s, i) && HostHolds(s.hosts[i], log) {
      assert HostLogsOk(s.led, s.hosts[i]);
    } else {
      var m :| m in s.appends && m.source == log;
      assert MessageOk(s.led, m);
    }
  }

  /** Log Matching over a whole run: any two logs held anywhere, at whatever moments, that
      have the same term at some index are equal up to that index. */
  lemma LogMatching(states: seq<System>, steps: seq<Step>, a: nat, b: nat, x: seq<LogEntry>, y: seq<LogEntry>)
    requires IsRun(states, steps) && a <= b < |states|
    requires Holds(states[a], x) && Holds(states[b], y)
    ensures LogsMatch(x, y) && LogsMatch(y, x) && Kindred(x, y)
  {
    hide IsRun, Coherent, Holds, ElectionsOk, LogsOk, Kindred, LogsMatch, Extends;
    RunKeeps(states, steps, a, b);
    HeldIsCoherent(states[a], x);
    HeldIsCoherent(states[b], y);
    StillCoherent(states[a].led, states[b].led, x);
    CoherentKindred(states[b].led, x, y);
    KindredLogsMatch(x, y);
  }

  /** In every run a restart resumes from exactly the newest (term, vote) that ever reached
      either of the node's files. */
  lemma RestartIsExact(states: seq<System>, steps: seq<Step>, k: nat, i: int)
    requires IsRun(states, steps) && k < |states| && IsHost(states[k], i)
    ensures var h := states[k].hosts[i];
      var b := Current(Reboot(h).node);
      b in h.persisted && (forall q | q in h.persisted :: Under(q, b))
  {
    hide IsRun, ElectionsOk, LogsOk, BallotsOk, Reboot;
    RunKeeps(states, steps, k, k);
    BallotsAt(states[k], i);
    Rebooted(states[k].hosts[i]);
  }

  /** In every run, whatever append a node receives: an index it newly commits holds the
      sender's entry as far as the sender's log goes, and it goes that far exactly when the
      sender's commit index lay inside its log or the receiver took over that very log. And an
      accepted append, with entries or without, brings the commit index up to the sender's. */
  lemma CommitBoundInRuns(states: seq<System>, steps: seq<Step>, k: nat, i: int, m: AppendMsg)
    requires IsRun(states, steps) && k < |states| && IsHost(states[k], i) && m in states[k].appends
    ensures var n := states[k].hosts[i].node;
      && n.log != [] && n.commit >= 0
      && CommitsAsSent(n, HandleAppend(n, m.args).node, m.args.leaderCommit, m.source)
      && (HandleAppend(n, m.args).reply.success ==>
            CommitLearned(n.commit, HandleAppend(n, m.args).node, m.args.leaderCommit, m.source))
  {
    hide IsRun, ElectionsOk, Coherent, HandleAppend, Kindred, LogsMatch, Extends, CommitsAsSent, CommitLearned;
    RunKeeps(states, steps, k, k);
    var s := states[k];
    assert HostLogsOk(s.led, s.hosts[i]) && MessageOk(s.led, m);
    GroundedLog(s.led, s.hosts[i].node.log);
    CoherentKindred(s.led, s.hosts[i].node.log, m.source);
    KindredLogsMatch(s.hosts[i].node.log, m.source);
    CommitBound(s.hosts[i].node, m.args, m.source);
    if HandleAppend(s.hosts[i].node, m.args).reply.success {
      CommitRule(s.hosts[i].node, m.args, m.source);
    }
  }

  /** The index a leader's count of acknowledgements picks is one it may commit in a run. */
  lemma CountedIsStep(s: System, i: int, matches: seq<int>, persisted: int, n: int)
    requires IsHost(s, i) && s.hosts[i].node.role == Leader && n > s.hosts[i].node.commit
    requires RaftNode.Committable(s.hosts[i].node.log, s.hosts[i].node.term, matches, i, persisted, n)
    ensures Enabled(s, Advance(i, n))
  {}

  lemma GroundedLog(led: map<int, Lead>, log: seq<LogEntry>)
    requires Coherent(led, log)
    ensures Grounded(log)
  {}

  /** In every run, repeated exchanges between two nodes bring the one's log in line with
      the other's, from any nextIndex inside the log. */
  lemma RepairInRuns(states: seq<System>, steps: seq<Step>, k: nat, i: int, j: int, next: nat)
    requires IsRun(states, steps) && k < |states| && IsHost(states[k], i) && IsHost(states[k], j)
    requires states[k].hosts[j].node.term <= states[k].hosts[i].node.term && 1 <= next <= |states[k].hosts[i].node.log|
    ensures var leader, follower := states[k].hosts[i].node, states[k].hosts[j].node;
      && CanExchange(leader, follower, next)
      && leader.log <= Repaired(leader, i, follower, next).log
      && CommitLearned(follower.commit, Repaired(leader, i, follower, next), leader.commit, leader.log)
  {
    hide IsRun, ElectionsOk, Coherent, Kindred, Extends;
    RunKeeps(states, steps, k, k);
    var s := states[k];
    assert HostLogsOk(s.led, s.hosts[i]) && HostLogsOk(s.led, s.hosts[j]);
    GroundedLog(s.led, s.hosts[i].node.log);
    GroundedLog(s.led, s.hosts[j].node.log);
    CoherentKindred(s.led, s.hosts[i].node.log, s.hosts[j].node.log);
    RepairConverges(s.hosts[i].node, i, s.hosts[j].node, next);
  }
}
