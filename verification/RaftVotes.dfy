/** The election restriction over whole runs: who gets votes, and when votes make a leader. */
module RaftVotes {
  import opened RaftHandlers
  import opened RaftSystem
  import opened RaftElections
  import opened RaftSafety
  import opened LogRepair

  /** Step a started the candidacy these arguments belong to, and they describe its log. */
  ghost predicate Asked(states: seq<System>, steps: seq<Step>, a: nat, args: VoteArgs) {
    && a < |steps| && a < |states| && steps[a] == Timeout(args.candidate) && IsHost(states[a], args.candidate)
    && var n := states[a].hosts[args.candidate].node;
      args.term == n.term + 1 && Describes(args, n.log)
  }

  /** At step b voter v granted candidate i its vote in term t. */
  ghost predicate GrantedAt(states: seq<System>, steps: seq<Step>, b: nat, v: int, t: int, i: int) {
    && b < |steps| && b < |states| && steps[b].HandleVote? && steps[b].request.to == v && IsHost(states[b], v)
    && steps[b].request.args.term == t && steps[b].request.args.candidate == i
    && states[b].hosts[v].node.log != []
    && HandleRequestVote(states[b].hosts[v].node, steps[b].request.args).reply.granted
  }

  /** Candidate i asked at step a, voter v granted at step b, and the log i had when it asked
      was not behind the log v had when it granted. */
  ghost predicate FairAt(states: seq<System>, steps: seq<Step>, a: nat, b: nat, v: int, t: int, i: int) {
    && a < b && GrantedAt(states, steps, b, v, t, i) && Asked(states, steps, a, steps[b].request.args)
    && NotBehind(states[a].hosts[i].node.log, states[b].hosts[v].node.log)
  }

  /** Such steps lie before k. */
  ghost predicate Fair(states: seq<System>, steps: seq<Step>, k: nat, v: int, t: int, i: int) {
    exists a: nat, b: nat :: b < k && FairAt(states, steps, a, b, v, t, i)
  }

  ghost predicate Requested(states: seq<System>, steps: seq<Step>, k: nat, args: VoteArgs) {
    exists a: nat :: a < k && Asked(states, steps, a, args)
  }

  ghost predicate VotesOk(states: seq<System>, steps: seq<Step>, k: nat)
    requires k < |states|
  {
    var s := states[k];
    && (forall r | r in s.requests :: Requested(states, steps, k, r.args))
    && (forall v, p | IsHost(s, v) && p in s.hosts[v].waiting :: Fair(states, steps, k, v, p.term, p.candidate))
    && (forall g | g in s.grants :: g.voter == g.candidate || Fair(states, steps, k, g.voter, g.term, g.candidate))
  }

  lemma Later(states: seq<System>, steps: seq<Step>, k: nat)
    ensures forall args | Requested(states, steps, k, args) :: Requested(states, steps, k + 1, args)
    ensures forall v, t, i | Fair(states, steps, k, v, t, i) :: Fair(states, steps, k + 1, v, t, i)
  {
    hide Asked, FairAt;
    forall args | Requested(states, steps, k, args)
      ensures Requested(states, steps, k + 1, args)
    {
      var a: nat :| a < k && Asked(states, steps, a, args);
      assert a < k + 1;
    }
    forall v, t, i | Fair(states, steps, k, v, t, i)
      ensures Fair(states, steps, k + 1, v, t, i)
    {
      var a: nat, b: nat :| b < k && FairAt(states, steps, a, b, v, t, i);
      assert b < k + 1;
    }
  }

  /** A host's log in a run. */
  lemma NodeLog(states: seq<System>, steps: seq<Step>, k: nat, i: int)
    requires IsRun(states, steps) && k < |states| && IsHost(states[k], i)
    ensures states[k].hosts[i].node.log != [] && RaftSafety.Holds(states[k], states[k].hosts[i].node.log)
  {
    hide IsRun, ElectionsOk, Coherent, Extends;
    RunKeeps(states, steps, k, k);
    assert HostLogsOk(states[k].led, states[k].hosts[i]);
    GroundedLog(states[k].led, states[k].hosts[i].node.log);
    assert HostHolds(states[k].hosts[i], states[k].hosts[i].node.log);
  }

  lemma TimeoutAsks(states: seq<System>, steps: seq<Step>, k: nat, r: VoteRequest)
    requires IsRun(states, steps) && k < |steps| && steps[k].Timeout?
    requires r in states[k + 1].requests && r !in states[k].requests
    ensures Requested(states, steps, k + 1, r.args)
  {
    hide StartElection;
    assert Enabled(states[k], steps[k]) && states[k + 1] == Do(states[k], steps[k]);
    var i := steps[k].i;
    NodeLog(states, steps, k, i);
    ElectionStarts(states[k].hosts[i].node, i, |states[k].hosts|);
    assert Asked(states, steps, k, r.args);
  }

  /** A vote granted in a run is fair. */
  lemma GrantIsFair(states: seq<System>, steps: seq<Step>, k: nat)
    requires IsRun(states, steps) && k < |steps| && steps[k].HandleVote? && VotesOk(states, steps, k)
    requires var r := steps[k].request; GrantedAt(states, steps, k, r.to, r.args.term, r.args.candidate)
    ensures var r := steps[k].request; Fair(states, steps, k + 1, r.to, r.args.term, r.args.candidate)
  {
    hide Kindred, HandleRequestVote, NotBehind, Fair, LogsMatch, RaftSafety.Holds;
    assert Enabled(states[k], steps[k]);
    var r := steps[k].request;
    var a: nat :| a < k && Asked(states, steps, a, r.args);
    var c, n := states[a].hosts[r.args.candidate].node.log, states[k].hosts[r.to].node;
    NodeLog(states, steps, a, r.args.candidate);
    NodeLog(states, steps, k, r.to);
    LogMatching(states, steps, a, k, c, n.log);
    GrantedByLog(n, r.args, c);
    assert FairAt(states, steps, a, k, r.to, r.args.term, r.args.candidate);
    assert Fair(states, steps, k + 1, r.to, r.args.term, r.args.candidate) by {
      Found(states, steps, a, k, r.to, r.args.term, r.args.candidate);
    }
  }

  lemma Found(states: seq<System>, steps: seq<Step>, a: nat, b: nat, v: int, t: int, i: int)
    requires FairAt(states, steps, a, b, v, t, i)
    ensures Fair(states, steps, b + 1, v, t, i)
  {
    hide FairAt;
  }

  lemma VotesStep(states: seq<System>, steps: seq<Step>, k: nat)
    requires IsRun(states, steps) && k < |steps| && VotesOk(states, steps, k)
    ensures VotesOk(states, steps, k + 1)
  {
    hide Requested, Fair, HandleRequestVote, HandleAppend, HandleVoteReply, StartElection;
    var s, step := states[k], steps[k];
    assert Enabled(s, step) && states[k + 1] == Do(s, step);
    Later(states, steps, k);
    match step {
      case Timeout(i) =>
        forall r | r in states[k + 1].requests
          ensures Requested(states, steps, k + 1, r.args)
        {
          if r !in s.requests { TimeoutAsks(states, steps, k, r); }
        }
      case HandleVote(r) =>
        if HandleRequestVote(s.hosts[r.to].node, r.args).reply.granted {
          GrantIsFair(states, steps, k);
        }
      case AnswerVote(i, p) =>
      case _ =>
    }
  }

  lemma {:induction false} RunVotes(states: seq<System>, steps: seq<Step>, k: nat)
    requires IsRun(states, steps) && k < |states|
    ensures VotesOk(states, steps, k)
  {
    hide VotesOk, Do, Enabled;
    if k == 0 {
      assert VotesOk(states, steps, 0) by { NoVotes(states, steps); }
    } else {
      RunVotes(states, steps, k - 1);
      VotesStep(states, steps, k - 1);
    }
  }

  lemma NoVotes(states: seq<System>, steps: seq<Step>)
    requires IsRun(states, steps)
    ensures VotesOk(states, steps, 0)
  {}

  // ---------------------------------------------------------------- theorems

  /** Every request gets its answer: a refusal at once, with the voter's term; a vote is queued
      for the disk with its reply waiting, and the reply is sent once the write is there. */
  lemma RequestsAreAnswered(s: System, r: VoteRequest)
    requires Enabled(s, HandleVote(r))
    ensures var s' := Do(s, HandleVote(r));
      var h, t, i := s'.hosts[r.to], r.args.term, r.args.candidate;
      if HandleRequestVote(s.hosts[r.to].node, r.args).reply.granted then
        && Pledge(t, i) in h.waiting
        && h.hardQueue != [] && h.hardQueue[|h.hardQueue| - 1] == Ballot(t, i) == Current(h.node)
      else VoteAnswer(r.to, i, VoteReply(h.node.term, false)) in s'.answers
  {
    GrantedExactly(s.hosts[r.to].node, r.args);
  }

  lemma RepliesAreSent(s: System, i: int, p: Pledge)
    requires Enabled(s, AnswerVote(i, p))
    ensures var s' := Do(s, AnswerVote(i, p));
      VoteAnswer(i, p.candidate, VoteReply(p.term, true)) in s'.answers && p !in s'.hosts[i].waiting
  {}

  /** Every vote visible to another node went to a candidate whose log, when it asked, was not
      behind the voter's when it granted. */
  lemma VisibleVotesAreFair(states: seq<System>, steps: seq<Step>, k: nat, g: Grant)
    requires IsRun(states, steps) && k < |states| && g in states[k].grants && g.voter != g.candidate
    ensures Fair(states, steps, k, g.voter, g.term, g.candidate)
  {
    hide IsRun, Fair;
    RunVotes(states, steps, k);
  }

  /** So a leader was elected by more than half of the nodes, each of them itself or a voter
      whose log its own was not behind; and a candidate has not got that many votes. */
  lemma LeadersAreElected(states: seq<System>, steps: seq<Step>, k: nat, i: int)
    requires IsRun(states, steps) && k < |states| && IsHost(states[k], i)
    ensures var s, n := states[k], states[k].hosts[i].node;
      && (n.role == Leader ==>
            exists voters: set<int> ::
              && 2 * |voters| > |s.hosts|
              && forall v | v in voters :: IsHost(s, v) && (v == i || Fair(states, steps, k, v, n.term, i)))
      && (n.role == Candidate ==>
            && n.votes == |s.hosts[i].tally| && 2 * |s.hosts[i].tally| <= |s.hosts|
            && forall v | v in s.hosts[i].tally :: v == i || Fair(states, steps, k, v, n.term, i))
  {
    hide IsRun, Fair, LogsOk;
    RunKeeps(states, steps, k, k);
    RunVotes(states, steps, k);
    var s, n := states[k], states[k].hosts[i].node;
    if n.role == Leader {
      Voters(s, i);
      var voters := s.led[n.term].voters;
      forall v | v in voters
        ensures IsHost(s, v) && (v == i || Fair(states, steps, k, v, n.term, i))
      {
        assert Grant(v, n.term, i) in s.grants;
      }
    } else if n.role == Candidate {
      assert TallyOk(s, i);
      forall v | v in s.hosts[i].tally
        ensures v == i || Fair(states, steps, k, v, n.term, i)
      {
        assert Grant(v, n.term, i) in s.grants;
      }
    }
  }

  lemma Voters(s: System, i: int)
    requires ElectionsOk(s) && IsHost(s, i) && s.hosts[i].node.role == Leader
    ensures var t := s.hosts[i].node.term;
      && t in s.led && 2 * |s.led[t].voters| > |s.hosts|
      && forall v | v in s.led[t].voters :: IsHost(s, v) && Grant(v, t, i) in s.grants
  {
    hide RequestsOk, PledgesOk, AnswersOk, TalliesOk;
    var t := s.hosts[i].node.term;
    assert LeadOk(s, t);
    forall v | v in s.led[t].voters
      ensures IsHost(s, v)
    {
      assert GrantOk(s.hosts, Grant(v, t, i));
    }
  }
}
