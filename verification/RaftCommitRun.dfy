/** A run in which a follower's commit index rises: an election, one entry, its commit by the
    leader, and the append that tells the follower. */
module RaftCommitRun {
  import opened PersistFormat
  import opened RaftHandlers
  import opened RaftSystem

  const ENTRY := LogEntry(1, [])
  const REQUEST := VoteRequest(1, VoteArgs(1, 0, 0, 0))
  const PLEDGE := Pledge(1, 0)
  const ANSWER := VoteAnswer(1, 0, VoteReply(1, true))
  const APPEND := AppendMsg(AppendArgs(1, 0, 0, 0, [ENTRY], 1), [DUMMY, ENTRY])

  function SampleSteps(): (r: seq<Step>)
    ensures |r| == 9
  {
    [Timeout(0), HandleVote(REQUEST), FlushHard(1, 1), AnswerVote(1, PLEDGE), ReceiveAnswer(ANSWER),
     Propose(0, []), Advance(0, 1), SendAppend(0, 1), ReceiveAppend(1, APPEND)]
  }

  /** The two nodes and the messages, as far as the next step needs them. */
  ghost predicate Stage(s: System, i: nat) {
    && |s.hosts| == 2
    && var a, b := s.hosts[0], s.hosts[1];
      match i
      case 0 => a == FreshHost() && b == FreshHost()
      case 1 => a.node == Node(1, 0, Candidate, 1, [DUMMY], 0) && a.tally == {0} && b == FreshHost()
        && REQUEST in s.requests
      case 2 => a.node == Node(1, 0, Candidate, 1, [DUMMY], 0) && b.node == Node(1, 0, Follower, 0, [DUMMY], 0)
        && b.hardQueue == [Ballot(1, 0)] && PLEDGE in b.waiting
      case 3 => a.node == Node(1, 0, Candidate, 1, [DUMMY], 0) && b.node == Node(1, 0, Follower, 0, [DUMMY], 0)
        && b.hard == Ballot(1, 0) && PLEDGE in b.waiting
      case 4 => a.node == Node(1, 0, Candidate, 1, [DUMMY], 0) && b.node == Node(1, 0, Follower, 0, [DUMMY], 0)
        && ANSWER in s.answers
      case 5 => a.node == Node(1, 0, Leader, 2, [DUMMY], 0) && b.node == Node(1, 0, Follower, 0, [DUMMY], 0)
      case 6 => a.node == Node(1, 0, Leader, 2, [DUMMY, ENTRY], 0) && b.node == Node(1, 0, Follower, 0, [DUMMY], 0)
      case 7 => a.node == Node(1, 0, Leader, 2, [DUMMY, ENTRY], 1) && b.node == Node(1, 0, Follower, 0, [DUMMY], 0)
      case 8 => APPEND in s.appends && b.node == Node(1, 0, Follower, 0, [DUMMY], 0)
      case _ => b.node == Node(1, 0, Follower, 0, [DUMMY, ENTRY], 1)
  }

  lemma Election(s: System, i: nat)
    requires i < 5 && Stage(s, i)
    ensures Enabled(s, SampleSteps()[i]) && Stage(Do(s, SampleSteps()[i]), i + 1)
  {
    if i == 0 {
      assert LastTerm([DUMMY]) == 0;
      assert REQUEST in Requests(s, 0, REQUEST.args);
    }
  }

  lemma Replication(s: System, i: nat)
    requires 5 <= i < 8 && Stage(s, i)
    ensures Enabled(s, SampleSteps()[i]) && Stage(Do(s, SampleSteps()[i]), i + 1)
  {
    assert [DUMMY] + [ENTRY] == [DUMMY, ENTRY];
    var log := [DUMMY, ENTRY];
    assert log[1..] == [ENTRY] && log[0].term == 0;
  }

  lemma Delivery(s: System)
    requires Stage(s, 8)
    ensures Enabled(s, SampleSteps()[8]) && Stage(Do(s, SampleSteps()[8]), 9)
  {
    var n := s.hosts[1].node;
    assert Matching(n.log, 1, [ENTRY]) == 0;
    assert n.log[..1] + [ENTRY][0..] == [DUMMY, ENTRY];
    assert MergeLog(n.log, 0, [ENTRY]) == [DUMMY, ENTRY];
  }

  lemma Follows(s: System, i: nat)
    requires i < 9 && Stage(s, i)
    ensures Enabled(s, SampleSteps()[i]) && Stage(Do(s, SampleSteps()[i]), i + 1)
  {
    hide Stage, Enabled, Do, SampleSteps;
    if i < 5 {
      Election(s, i);
    } else if i < 8 {
      Replication(s, i);
    } else {
      Delivery(s);
    }
  }

  lemma {:induction false} Prefix(i: nat) returns (states: seq<System>)
    requires i <= 9
    ensures |states| == i + 1 && states[0] == InitialSystem(2)
    ensures forall k | 0 <= k <= i :: Stage(states[k], k)
    ensures forall k | 0 <= k < i ::
      Enabled(states[k], SampleSteps()[k]) && states[k + 1] == Do(states[k], SampleSteps()[k])
    decreases i
  {
    hide Stage, Enabled, Do, SampleSteps;
    if i == 0 {
      states := [InitialSystem(2)];
      assert Stage(states[0], 0) by { Initially(); }
    } else {
      var before := Prefix(i - 1);
      Follows(before[i - 1], i - 1);
      states := before + [Do(before[i - 1], SampleSteps()[i - 1])];
    }
  }

  lemma Initially()
    ensures Stage(InitialSystem(2), 0)
  {}

  /** There is a run that delivers an append by which a follower commits an index. */
  lemma CommitRises() returns (states: seq<System>)
    ensures IsRun(states, SampleSteps()) && |states| == 10
    ensures APPEND in states[8].appends && |states[8].hosts| == |states[9].hosts| == 2
    ensures SampleSteps()[8] == ReceiveAppend(1, APPEND)
    ensures states[8].hosts[1].node.commit == 0 && states[9].hosts[1].node.commit == 1
  {
    hide Do, Enabled;
    states := Prefix(9);
    assert Stage(states[8], 8) && Stage(states[9], 9);
  }
}
