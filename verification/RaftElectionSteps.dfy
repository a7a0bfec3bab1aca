/** Every step keeps the election invariant. */
module RaftElectionSteps {
  import opened Bytes
  import opened RaftHandlers
  import opened RaftSystem
  import opened RaftBallots
  import opened RaftElections

  /** Votes below the hard state survive a move to a newer pair and a newer hard state. */
  lemma ClaimsSurvive(h: Host, h': Host)
    requires BallotsOk(h) && Under(h.hard, h'.hard)
    requires h'.cast == h.cast
      || (h'.cast == h.cast[h'.node.term := h'.node.vote] && Under(Current(h.node), Current(h'.node)))
    ensures forall q: Ballot ::
      q.vote != NO_VOTE && ClaimOk(h.cast, q) && Under(q, h.hard) ==> ClaimOk(h'.cast, q) && Under(q, h'.hard)
  {
    forall q: Ballot | q.vote != NO_VOTE && ClaimOk(h.cast, q) && Under(q, h.hard)
      ensures ClaimOk(h'.cast, q) && Under(q, h'.hard)
    {
      UnderTransitive(q, h.hard, h'.hard);
      UnderTransitive(q, h.hard, Current(h.node));
    }
  }

  lemma FlushHardKeeps(s: System, i: int, k: nat)
    requires ElectionsOk(s) && Enabled(s, FlushHard(i, k))
    ensures ElectionsOk(DoFlushHard(s, i, k))
  {
    hide ElectionsOk, BallotsOk;
    BallotsAt(s, i);
    var h, s' := s.hosts[i], DoFlushHard(s, i, k);
    FlushedHard(h, k);
    assert Under(h.hard, h.hardQueue[k - 1]) by { QueueAbove(h, k - 1); }
    ClaimsSurvive(h, s'.hosts[i]);
    QuietKeeps(s, s', i);
  }

  lemma QueueAbove(h: Host, k: nat)
    requires BallotsOk(h) && k < |h.hardQueue|
    ensures Under(h.hard, h.hardQueue[k])
  {}

  lemma BallotsAt(s: System, i: int)
    requires ElectionsOk(s) && IsHost(s, i)
    ensures BallotsOk(s.hosts[i])
  {
    hide BallotsOk;
  }

  lemma FlushStateKeeps(s: System, i: int, k: nat)
    requires ElectionsOk(s) && Enabled(s, FlushState(i, k))
    ensures ElectionsOk(DoFlushState(s, i, k))
  {
    hide ElectionsOk, BallotsOk;
    BallotsAt(s, i);
    var h, s' := s.hosts[i], DoFlushState(s, i, k);
    FlushedState(h, k);
    UnderReflexive(h.hard);
    ClaimsSurvive(h, s'.hosts[i]);
    QuietKeeps(s, s', i);
  }

  lemma ProposeKeeps(s: System, i: int, command: seq<byte>)
    requires ElectionsOk(s) && Enabled(s, Propose(i, command))
    ensures ElectionsOk(DoPropose(s, i, command))
  {
    hide ElectionsOk, BallotsOk;
    BallotsAt(s, i);
    var h, s' := s.hosts[i], DoPropose(s, i, command);
    var h1 := h.(node := ClientAppend(h.node, command));
    Unaffected(h, h1);
    Enqueued(h1, RaftState);
    UnderReflexive(h.hard);
    ClaimsSurvive(h, s'.hosts[i]);
    QuietKeeps(s, s', i);
  }

  lemma AdvanceKeeps(s: System, i: int, n: int)
    requires ElectionsOk(s) && Enabled(s, Advance(i, n))
    ensures ElectionsOk(DoAdvance(s, i, n))
  {
    hide ElectionsOk, BallotsOk;
    BallotsAt(s, i);
    var h, s' := s.hosts[i], DoAdvance(s, i, n);
    Unaffected(h, s'.hosts[i]);
    UnderReflexive(h.hard);
    ClaimsSurvive(h, s'.hosts[i]);
    QuietKeeps(s, s', i);
  }

  lemma SendAppendKeeps(s: System, i: int, next: nat)
    requires ElectionsOk(s) && Enabled(s, SendAppend(i, next))
    ensures ElectionsOk(DoSendAppend(s, i, next))
  {
    hide ElectionsOk, BallotsOk;
    BallotsAt(s, i);
    var h, s' := s.hosts[i], DoSendAppend(s, i, next);
    UnderReflexive(h.hard);
    ClaimsSurvive(h, h);
    assert s'.hosts == s.hosts[i := h];
    QuietKeeps(s, s', i);
  }

  /** AppendEntries at most adopts a newer term, without a vote, and becomes a follower. */
  lemma AppendBallot(n: Node, args: AppendArgs)
    requires n.log != []
    ensures var m := HandleAppend(n, args).node;
      && (Current(m) == Current(n) || (m.term == args.term > n.term && m.vote == NO_VOTE))
      && (args.term >= n.term ==> m.role == Follower)
      && (args.term < n.term ==> m == n)
  {
    hide MergeLog, FirstOfTerm, Matching;
  }

  lemma ReceiveAppendKeeps(s: System, i: int, m: AppendMsg)
    requires ElectionsOk(s) && Enabled(s, ReceiveAppend(i, m))
    ensures ElectionsOk(DoReceiveAppend(s, i, m))
  {
    hide ElectionsOk, BallotsOk, HandleAppend;
    BallotsAt(s, i);
    var h, s' := s.hosts[i], DoReceiveAppend(s, i, m);
    var r := HandleAppend(h.node, m.args);
    AppendBallot(h.node, m.args);
    NonNegative(h);
    Raised(h, r.node, h.cast);
    var h1 := h.(node := r.node, cast := h.cast);
    assert h1 == h.(node := r.node);
    Enqueued(h1, r.persist);
    UnderReflexive(h.hard);
    ClaimsSurvive(h, s'.hosts[i]);
    QuietKeeps(s, s', i);
  }

  lemma NonNegative(h: Host)
    requires BallotsOk(h)
    ensures h.node.term >= 0
  {}

  lemma HardBelow(h: Host)
    requires BallotsOk(h)
    ensures Under(h.hard, Current(h.node))
  {}

  lemma SteppedDown(h: Host, term: int)
    requires BallotsOk(h) && term > h.node.term
    ensures Quiet(h, WriteHard(h.(node := StepDown(h.node, term))))
  {
    hide BallotsOk;
    var n := StepDown(h.node, term);
    NonNegative(h);
    Raised(h, n, h.cast);
    var h1 := h.(node := n, cast := h.cast);
    assert h1 == h.(node := n);
    WroteHard(h1);
    HardBelow(h);
    UnderTransitive(h.hard, Current(h.node), Current(n));
    ClaimsSurvive(h, WriteHard(h1));
  }

  lemma LearnTermKeeps(s: System, i: int, term: int)
    requires ElectionsOk(s) && Enabled(s, LearnTerm(i, term))
    ensures ElectionsOk(DoLearnTerm(s, i, term))
  {
    hide ElectionsOk, BallotsOk, Quiet;
    BallotsAt(s, i);
    SteppedDown(s.hosts[i], term);
    QuietKeeps(s, DoLearnTerm(s, i, term), i);
  }

  lemma RestartKeeps(s: System, i: int)
    requires ElectionsOk(s) && Enabled(s, Restart(i))
    ensures ElectionsOk(DoRestart(s, i))
  {
    hide ElectionsOk, BallotsOk;
    BallotsAt(s, i);
    var h, s' := s.hosts[i], DoRestart(s, i);
    Rebooted(h);
    UnderReflexive(h.hard);
    ClaimsSurvive(h, s'.hosts[i]);
    QuietKeeps(s, s', i);
  }

  // ---------------------------------------------------------------- a vote moves to its next stage

  lemma HandleVoteKeeps(s: System, r: VoteRequest)
    requires ElectionsOk(s) && Enabled(s, HandleVote(r))
    ensures ElectionsOk(DoHandleVote(s, r))
  {
    hide ElectionsOk, BallotsOk, HandleRequestVote;
    BallotsAt(s, r.to);
    var h := s.hosts[r.to];
    var v := HandleRequestVote(h.node, r.args);
    GrantedExactly(h.node, r.args);
    VoteRole(h.node, r.args);
    NonNegative(h);
    if v.reply.granted {
      RequestAt(s, r);
      PledgeMade(s, r);
    } else {
      Raised(h, v.node, h.cast);
      var h1 := h.(node := v.node, cast := h.cast);
      assert h1 == h.(node := v.node);
      Enqueued(h1, v.persist);
      UnderReflexive(h.hard);
      ClaimsSurvive(h, Enqueue(h1, v.persist));
      QuietKeeps(s, DoHandleVote(s, r), r.to);
    }
  }

  lemma VoteRole(n: Node, args: VoteArgs)
    requires n.log != []
    ensures var m := HandleRequestVote(n, args).node;
      && ((m.role == n.role && m.term == n.term && m.votes == n.votes) || m.role == Follower)
      && (!HandleRequestVote(n, args).reply.granted ==>
            Current(m) == Current(n) || (m.term > n.term && m.vote == NO_VOTE))
  {}

  lemma RequestAt(s: System, r: VoteRequest)
    requires ElectionsOk(s) && r in s.requests
    ensures RequestOk(s, r) && r.args.candidate != NO_VOTE && IsHost(s, r.to) && BallotsOk(s.hosts[r.to])
  {
    hide BallotsOk;
  }

  /** The voter after granting a vote: the new pair queued, the reply held back. */
  lemma PledgedHost(h: Host, args: VoteArgs)
    requires BallotsOk(h) && h.node.log != [] && args.candidate != NO_VOTE
    requires HandleRequestVote(h.node, args).reply.granted
    ensures var v := HandleRequestVote(h.node, args);
      var h' := Enqueue(h.(node := v.node), HardState).(
        cast := h.cast[args.term := args.candidate], waiting := h.waiting + {Pledge(args.term, args.candidate)});
      && BallotsOk(h')
      && forall q: Ballot ::
           q.vote != NO_VOTE && ClaimOk(h.cast, q) && Under(q, h.hard) ==> ClaimOk(h'.cast, q) && Under(q, h'.hard)
  {
    hide BallotsOk, HandleRequestVote;
    var v := HandleRequestVote(h.node, args);
    GrantedExactly(h.node, args);
    NonNegative(h);
    var cast := h.cast[args.term := args.candidate];
    var h1 := h.(node := v.node, cast := cast);
    Raised(h, v.node, cast);
    Enqueued(h1, HardState);
    var h2 := Enqueue(h1, HardState);
    Pledged(h2, Pledge(args.term, args.candidate));
    var h' := Enqueue(h.(node := v.node), HardState).(cast := cast,
      waiting := h.waiting + {Pledge(args.term, args.candidate)});
    assert h' == h2.(waiting := h2.waiting + {Pledge(args.term, args.candidate)});
    UnderReflexive(h.hard);
    ClaimsSurvive(h, h');
  }

  lemma PledgeMade(s: System, r: VoteRequest)
    requires ElectionsOk(s) && r in s.requests && RequestOk(s, r) && s.hosts[r.to].node.log != []
      && r.args.candidate != NO_VOTE
    requires HandleRequestVote(s.hosts[r.to].node, r.args).reply.granted
    ensures ElectionsOk(DoHandleVote(s, r))
  {
    hide BallotsOk, HandleRequestVote, ClaimOk, Under;
    var h := s.hosts[r.to];
    var s' := DoHandleVote(s, r);
    var h' := s'.hosts[r.to];
    GrantedExactly(h.node, r.args);
    VoteRole(h.node, r.args);
    PledgedHost(h, r.args);
    assert HostsOk(s'.hosts);
    assert forall v, j, t :: Counted(s'.hosts, v, j, t) ==> Counted(s.hosts, v, j, t);
    PledgeMessages(s, s', r);
    forall g | g in s'.grants
      ensures GrantOk(s'.hosts, g)
    {
      assert GrantOk(s.hosts, g);
    }
    PledgeLeads(s, s', r.to);
  }

  lemma PledgeMessages(s: System, s': System, r: VoteRequest)
    requires RequestsOk(s) && PledgesOk(s) && AnswersOk(s) && r in s.requests && RequestOk(s, r)
    requires |s'.hosts| == |s.hosts| && s'.hosts == s.hosts[r.to := s'.hosts[r.to]]
    requires s'.hosts[r.to].waiting == s.hosts[r.to].waiting + {Pledge(r.args.term, r.args.candidate)}
    requires s'.requests == s.requests - {r} && s'.answers == s.answers && s'.grants == s.grants
    requires forall v, j, t :: Counted(s'.hosts, v, j, t) ==> Counted(s.hosts, v, j, t)
    ensures RequestsOk(s') && PledgesOk(s') && AnswersOk(s')
  {
    hide Counted;
    forall q | q in s'.requests
      ensures RequestOk(s', q)
    {
      assert RequestOk(s, q);
    }
    forall v, p | 0 <= v < |s'.hosts| && p in s'.hosts[v].waiting
      ensures PledgeMsgOk(s', v, p)
    {
      if p in s.hosts[v].waiting {
        assert PledgeMsgOk(s, v, p);
      }
    }
    forall a | a in s'.answers
      ensures AnswerOk(s', a)
    {
      assert AnswerOk(s, a);
    }
  }

  /** Tallies and leaderships depend on roles, terms and grants only. */
  lemma PledgeLeads(s: System, s': System, i: int)
    requires TalliesOk(s) && LedOk(s) && IsHost(s, i)
    requires |s'.hosts| == |s.hosts| && s'.hosts == s.hosts[i := s'.hosts[i]]
    requires s.grants <= s'.grants && s'.led == s.led
    requires var n, m := s.hosts[i].node, s'.hosts[i].node;
      (m.role == n.role && m.term == n.term && m.votes == n.votes && s'.hosts[i].tally == s.hosts[i].tally)
        || m.role == Follower
    ensures TalliesOk(s') && LedOk(s')
  {
    forall j | 0 <= j < |s'.hosts|
      ensures TallyOk(s', j)
    {
      assert TallyOk(s, j);
    }
    forall t | t in s'.led
      ensures t >= 0 && LeadOk(s', t)
    {
      assert LeadOk(s, t);
    }
  }

  lemma AnswerVoteKeeps(s: System, i: int, p: Pledge)
    requires ElectionsOk(s) && Enabled(s, AnswerVote(i, p))
    ensures ElectionsOk(DoAnswerVote(s, i, p))
  {
    hide BallotsOk, ClaimOk, Under;
    var s' := DoAnswerVote(s, i, p);
    var h := s.hosts[i];
    assert PledgeMsgOk(s, i, p);
    assert ClaimOk(h.cast, Ballot(p.term, p.candidate)) by { PledgeAt(h, p); }
    Unaffected(h, s'.hosts[i]);
    assert HostsOk(s'.hosts);
    forall g | g in s'.grants
      ensures GrantOk(s'.hosts, g)
    {
      assert GrantOk(s.hosts, if g in s.grants then g else Grant(p.candidate, p.term, p.candidate));
    }
    AnswerMessages(s, s', i, p);
    PledgeLeads(s, s', i);
  }

  lemma PledgeAt(h: Host, p: Pledge)
    requires BallotsOk(h) && p in h.waiting
    ensures PledgeOk(h, p)
  {}

  lemma AnswerMessages(s: System, s': System, i: int, p: Pledge)
    requires RequestsOk(s) && PledgesOk(s) && AnswersOk(s) && IsHost(s, i) && p in s.hosts[i].waiting
    requires s' == DoAnswerVote(s, i, p)
    ensures RequestsOk(s') && PledgesOk(s') && AnswersOk(s')
  {
    assert PledgeMsgOk(s, i, p);
    assert forall v, j, t :: Counted(s'.hosts, v, j, t) ==> Counted(s.hosts, v, j, t);
    hide Counted;
    forall q | q in s'.requests
      ensures RequestOk(s', q)
    {
      assert RequestOk(s, q);
    }
    forall v, q | 0 <= v < |s'.hosts| && q in s'.hosts[v].waiting
      ensures PledgeMsgOk(s', v, q)
    {
      assert PledgeMsgOk(s, v, q);
    }
    forall a | a in s'.answers
      ensures AnswerOk(s', a)
    {
      assert a in s.answers ==> AnswerOk(s, a);
    }
  }

  lemma ReceiveAnswerKeeps(s: System, a: VoteAnswer)
    requires ElectionsOk(s) && Enabled(s, ReceiveAnswer(a))
    ensures ElectionsOk(DoReceiveAnswer(s, a))
  {
    hide ElectionsOk, BallotsOk, Quiet;
    BallotsAt(s, a.to);
    var h, s' := s.hosts[a.to], DoReceiveAnswer(s, a);
    if a.reply.term > h.node.term {
      SteppedDown(h, a.reply.term);
      assert s'.hosts[a.to] == WriteHard(h.(node := StepDown(h.node, a.reply.term)));
      QuietKeeps(s, s', a.to);
    } else if a.reply.granted && a.reply.term == h.node.term && h.node.role == Candidate {
      VoteCounted(s, a);
    } else {
      assert Quiet(h, h) by { StillQuiet(h); }
      QuietKeeps(s, s', a.to);
    }
  }

  lemma StillQuiet(h: Host)
    requires BallotsOk(h)
    ensures Quiet(h, h)
  {}

  lemma VoteCounted(s: System, a: VoteAnswer)
    requires ElectionsOk(s) && a in s.answers && IsHost(s, a.to)
    requires a.reply.granted && a.reply.term == s.hosts[a.to].node.term && s.hosts[a.to].node.role == Candidate
    ensures ElectionsOk(DoReceiveAnswer(s, a))
  {
    hide BallotsOk, ClaimOk, Under;
    var s' := DoReceiveAnswer(s, a);
    var h, h' := s.hosts[a.to], s'.hosts[a.to];
    var t := h.node.term;
    assert AnswerOk(s, a) && TallyOk(s, a.to);
    assert a.from !in h.tally;
    Unaffected(h, h');
    assert HostsOk(s'.hosts);
    forall g | g in s'.grants
      ensures GrantOk(s'.hosts, g)
    {
      assert GrantOk(s.hosts, g);
    }
    CountMessages(s, s', a);
    forall j | 0 <= j < |s'.hosts|
      ensures TallyOk(s', j)
    {
      assert TallyOk(s, j);
    }
    if h'.node.role == Leader {
      WinnerIsFirst(s, a.to, h'.tally);
    }
    CountLeads(s, s', a);
  }

  lemma CountMessages(s: System, s': System, a: VoteAnswer)
    requires RequestsOk(s) && PledgesOk(s) && AnswersOk(s) && a in s.answers && IsHost(s, a.to)
    requires a.reply.granted && a.reply.term == s.hosts[a.to].node.term && s.hosts[a.to].node.role == Candidate
    requires s' == DoReceiveAnswer(s, a)
    ensures RequestsOk(s') && PledgesOk(s') && AnswersOk(s')
  {
    assert a == YesFrom(a.from, a.to, a.reply.term);
    assert forall v, j, t :: Counted(s'.hosts, v, j, t) ==> Counted(s.hosts, v, j, t) || YesFrom(v, j, t) == a;
    hide Counted;
    forall q | q in s'.requests
      ensures RequestOk(s', q)
    {
      assert RequestOk(s, q);
    }
    forall v, q | 0 <= v < |s'.hosts| && q in s'.hosts[v].waiting
      ensures PledgeMsgOk(s', v, q)
    {
      assert PledgeMsgOk(s, v, q);
    }
    forall b | b in s'.answers
      ensures AnswerOk(s', b)
    {
      assert AnswerOk(s, b);
      assert b.reply.granted ==> b == YesFrom(b.from, b.to, b.reply.term);
    }
  }

  lemma CountLeads(s: System, s': System, a: VoteAnswer)
    requires LedOk(s) && TalliesOk(s) && TalliesOk(s') && IsHost(s, a.to)
    requires a.reply.granted && a.reply.term == s.hosts[a.to].node.term && s.hosts[a.to].node.role == Candidate
    requires Grant(a.from, a.reply.term, a.to) in s.grants
    requires s' == DoReceiveAnswer(s, a)
    requires a.from !in s.hosts[a.to].tally
    requires s'.hosts[a.to].node.role == Leader ==> s.hosts[a.to].node.term !in s.led && s.hosts[a.to].node.term > 0
    ensures LedOk(s')
  {
    assert TallyOk(s, a.to);
    forall t | t in s'.led
      ensures t >= 0 && LeadOk(s', t)
    {
      if t in s.led {
        assert LeadOk(s, t);
      }
    }
  }

  // ---------------------------------------------------------------- an election starts

  /** A node's own candidacies are on disk, so no message mentions a later one. */
  lemma NoLaterCandidacy(s: System, i: int, t: int)
    requires ElectionsOk(s) && IsHost(s, i) && t > s.hosts[i].node.term
    ensures Grant(i, t, i) !in s.grants
  {
    if Grant(i, t, i) in s.grants {
      assert GrantOk(s.hosts, Grant(i, t, i));
      UnderTransitive(Ballot(t, i), s.hosts[i].hard, Current(s.hosts[i].node));
      assert false;
    }
  }

  lemma ElectedHost(h: Host, i: int, peers: nat)
    requires BallotsOk(h) && 0 <= i
    ensures var n := StartElection(h.node, i, peers);
      var h' := WriteHard(h.(node := n, cast := h.cast[n.term := i], tally := {i}));
      && BallotsOk(h') && n.term >= 1
      && (forall q: Ballot ::
            q.vote != NO_VOTE && ClaimOk(h.cast, q) && Under(q, h.hard) ==> ClaimOk(h'.cast, q) && Under(q, h'.hard))
      && ClaimOk(h'.cast, Ballot(n.term, i)) && Under(Ballot(n.term, i), h'.hard)
  {
    hide BallotsOk;
    var n := StartElection(h.node, i, peers);
    NonNegative(h);
    HardBelow(h);
    var cast := h.cast[n.term := i];
    Raised(h, n, cast);
    var h1 := h.(node := n, cast := cast);
    var h2 := h1.(tally := {i});
    Unaffected(h1, h2);
    WroteHard(h2);
    assert h2 == h.(node := n, cast := cast, tally := {i});
    UnderTransitive(h.hard, Current(h.node), Current(n));
    ClaimsSurvive(h, WriteHard(h2));
  }

  lemma TimeoutKeeps(s: System, i: int)
    requires ElectionsOk(s) && Enabled(s, Timeout(i))
    ensures ElectionsOk(DoTimeout(s, i))
  {
    hide BallotsOk, ClaimOk, Under;
    var s' := DoTimeout(s, i);
    var h := s.hosts[i];
    ElectedHost(h, i, |s.hosts|);
    NoLaterCandidacy(s, i, h.node.term + 1);
    assert HostsOk(s'.hosts);
    TimeoutGrants(s, s', i);
    TimeoutMessages(s, s', i);
    TimeoutLeads(s, s', i);
  }

  lemma TimeoutGrants(s: System, s': System, i: int)
    requires GrantsOk(s.hosts, s.grants) && IsHost(s, i) && s' == DoTimeout(s, i) && BallotsOk(s.hosts[i])
    ensures GrantsOk(s'.hosts, s'.grants)
  {
    hide BallotsOk, ClaimOk, Under;
    ElectedHost(s.hosts[i], i, |s.hosts|);
    forall g | g in s'.grants
      ensures GrantOk(s'.hosts, g)
    {
      assert g in s.grants ==> GrantOk(s.hosts, g);
    }
  }

  lemma TimeoutMessages(s: System, s': System, i: int)
    requires RequestsOk(s) && PledgesOk(s) && AnswersOk(s) && IsHost(s, i) && s' == DoTimeout(s, i)
    requires Grant(i, s.hosts[i].node.term + 1, i) !in s.grants
    ensures RequestsOk(s') && PledgesOk(s') && AnswersOk(s')
  {
    var t' := s.hosts[i].node.term + 1;
    assert forall v, j, t :: Counted(s'.hosts, v, j, t) ==> Counted(s.hosts, v, j, t) || (j == i && t == t' && v == i);
    hide Counted;
    forall q | q in s'.requests
      ensures RequestOk(s', q)
    {
      if q in s.requests {
        assert RequestOk(s, q);
      } else {
        assert q.args.candidate == i && q.args.term == t';
        assert Pledge(t', i) in s.hosts[q.to].waiting ==> PledgeMsgOk(s, q.to, Pledge(t', i));
        assert YesFrom(q.to, i, t') in s.answers ==> AnswerOk(s, YesFrom(q.to, i, t'));
        assert !Counted(s.hosts, q.to, i, t') by { NotCountedLater(s, q.to, i, t'); }
      }
    }
    forall r, q | r in s'.requests && q in s'.requests && r.to == q.to && r.args.candidate == q.args.candidate
      && r.args.term == q.args.term
      ensures r == q
    {
      assert r in s.requests ==> RequestOk(s, r);
      assert q in s.requests ==> RequestOk(s, q);
    }
    forall v, q | 0 <= v < |s'.hosts| && q in s'.hosts[v].waiting
      ensures PledgeMsgOk(s', v, q)
    {
      assert PledgeMsgOk(s, v, q);
    }
    forall a | a in s'.answers
      ensures AnswerOk(s', a)
    {
      assert AnswerOk(s, a);
    }
  }

  lemma NotCountedLater(s: System, v: int, i: int, t: int)
    requires IsHost(s, i) && t > s.hosts[i].node.term
    ensures !Counted(s.hosts, v, i, t)
  {}

  lemma TimeoutLeads(s: System, s': System, i: int)
    requires TalliesOk(s) && LedOk(s) && IsHost(s, i) && s' == DoTimeout(s, i) && s.hosts[i].node.term >= 0
    requires Grant(i, s.hosts[i].node.term + 1, i) !in s.grants
    ensures TalliesOk(s') && LedOk(s')
  {
    var t' := s.hosts[i].node.term + 1;
    forall j | 0 <= j < |s'.hosts|
      ensures TallyOk(s', j)
    {
      assert TallyOk(s, j);
    }
    forall t | t in s'.led
      ensures t >= 0 && LeadOk(s', t)
    {
      if t in s.led && s'.led[t] == s.led[t] {
        assert LeadOk(s, t);
      }
    }
  }

  // ---------------------------------------------------------------- all steps

  lemma ElectionsStep(s: System, step: Step)
    requires ElectionsOk(s) && Enabled(s, step)
    ensures ElectionsOk(Do(s, step))
  {
    hide ElectionsOk;
    match step
    case Timeout(i) => TimeoutKeeps(s, i);
    case HandleVote(r) => HandleVoteKeeps(s, r);
    case FlushHard(i, k) => FlushHardKeeps(s, i, k);
    case FlushState(i, k) => FlushStateKeeps(s, i, k);
    case AnswerVote(i, p) => AnswerVoteKeeps(s, i, p);
    case ReceiveAnswer(a) => ReceiveAnswerKeeps(s, a);
    case Propose(i, c) => ProposeKeeps(s, i, c);
    case Advance(i, n) => AdvanceKeeps(s, i, n);
    case SendAppend(i, next) => SendAppendKeeps(s, i, next);
    case ReceiveAppend(i, m) => ReceiveAppendKeeps(s, i, m);
    case LearnTerm(i, t) => LearnTermKeeps(s, i, t);
    case Restart(i) => RestartKeeps(s, i);
  }

  lemma ElectionsInit(peers: nat)
    ensures ElectionsOk(InitialSystem(peers))
  {
    var s := InitialSystem(peers);
    assert BallotsOk(FreshHost());
    assert HostsOk(s.hosts) && LedOk(s);
  }
}
