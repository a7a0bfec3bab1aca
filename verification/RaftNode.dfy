/** The Raft node as the object it is in pkg/raft/raft.go: handlers that update its fields
    step by step, proved against the functions of RaftHandlers. */
module RaftNode {
  import opened Bytes
  import opened PersistFormat
  import opened RaftHandlers
  import opened Sets

  /** The peers other than me whose matchIndex has reached n. */
  function Ackers(matches: seq<int>, me: int, n: int): (s: set<int>) {
    set i | 0 <= i < |matches| && i != me && matches[i] >= n
  }

  /** An index of the current term stored by a majority, the node itself counting only if
      the entry is on its own disk. */
  ghost predicate Committable(log: seq<LogEntry>, term: int, matches: seq<int>, me: int, persisted: int, n: int) {
    && 1 <= n < |log| && log[n].term == term
    && 2 * ((if n <= persisted then 1 else 0) + |Ackers(matches, me, n)|) > |matches|
  }

  /** The node is known to have the entry on its disk. */
  predicate Stores(matches: seq<int>, me: int, persisted: int, n: int, i: int) {
    0 <= i < |matches| && if i == me then n <= persisted else matches[i] >= n
  }

  /** What the count means: some majority of the nodes is known to store the entry, which is
      one of the leader's own term. */
  lemma CommittableExact(log: seq<LogEntry>, term: int, matches: seq<int>, me: int, persisted: int, n: int)
    requires 0 <= me < |matches|
    ensures Committable(log, term, matches, me, persisted, n) <==>
      && 1 <= n < |log| && log[n].term == term
      && exists s: set<int> :: 2 * |s| > |matches| && forall i | i in s :: Stores(matches, me, persisted, n, i)
  {
    var all := Ackers(matches, me, n) + if n <= persisted then {me} else {};
    assert |all| == (if n <= persisted then 1 else 0) + |Ackers(matches, me, n)|;
    assert forall i | i in all :: Stores(matches, me, persisted, n, i);
    forall s: set<int> | forall i | i in s :: Stores(matches, me, persisted, n, i)
      ensures |s| <= |all|
    {
      assert forall i | i in s :: i in all;
      Smaller(s, all);
    }
  }

  class Raft {
    const me: int
    const nextIndex: array<int>
    const matchIndex: array<int>
    var currentTerm: int
    var votedFor: int
    var role: Role
    var votes: int
    var log: seq<LogEntry>
    var commitIndex: int
    var persistedIndex: int

    ghost predicate Valid()
      reads this
    {
      && nextIndex != matchIndex && nextIndex.Length == matchIndex.Length
      && 0 <= me < nextIndex.Length
      && log != [] && commitIndex >= 0
    }

    ghost function View(): (n: Node)
      reads this
    {
      Node(currentTerm, votedFor, role, votes, log, commitIndex)
    }

    constructor (me: int, peers: nat)
      requires 0 <= me < peers
      ensures Valid() && View() == Node(0, NO_VOTE, Follower, 0, [DUMMY], 0)
      ensures fresh(nextIndex) && fresh(matchIndex) && nextIndex.Length == peers && persistedIndex == 0
    {
      this.me := me;
      nextIndex, matchIndex := new int[peers], new int[peers];
      currentTerm, votedFor, role, votes, log, commitIndex, persistedIndex := 0, NO_VOTE, Follower, 0, [DUMMY], 0, 0;
    }

    method RequestVote(args: VoteArgs) returns (reply: VoteReply, persist: Persist)
      requires Valid()
      modifies this`currentTerm, this`votedFor, this`role
      ensures Valid()
      ensures Voted(View(), reply, persist) == HandleRequestVote(old(View()), args)
    {
      persist := Nothing;
      if args.term < currentTerm {
        return VoteReply(currentTerm, false), Nothing;
      }
      if args.term > currentTerm {
        currentTerm := args.term;
        role := Follower;
        votedFor := NO_VOTE;
        persist := HardState;
      }
      if args.lastTerm < LastTerm(log) || (args.lastTerm == LastTerm(log) && args.lastIndex < LastIndex(log)) {
        return VoteReply(currentTerm, false), persist;
      }
      var granted := false;
      if votedFor == NO_VOTE || votedFor == args.candidate {
        granted := true;
        votedFor := args.candidate;
        persist := HardState;
      }
      reply := VoteReply(currentTerm, granted);
    }

    /** The search for the first entry of the conflicting term. */
    method FirstIndexOf(from: nat, term: int) returns (index: nat)
      requires Valid() && from < |log|
      ensures index == FirstOfTerm(log, from, term)
    {
      index := from;
      while index > 0 && log[index - 1].term == term
        invariant index <= from && FirstOfTerm(log, index, term) == FirstOfTerm(log, from, term)
        decreases index
      {
        index := index - 1;
      }
    }

    /** Cutting at the first conflict and appending the missing entries. */
    method MergeEntries(prev: nat, entries: seq<LogEntry>) returns (changed: bool)
      requires Valid() && prev < |log|
      modifies this`log
      ensures Valid() && log == MergeLog(old(log), prev, entries)
      ensures changed <==> Matching(old(log), prev + 1, entries) < |entries|
    {
      var i := 0;
      ghost var before := log;
      assert entries[0..] == entries;
      while i < |entries| && prev + 1 + i < |log| && log[prev + 1 + i].term == entries[i].term
        invariant 0 <= i <= |entries| && prev + 1 + i <= |log| && log == before
        invariant Matching(before, prev + 1, entries) == i + Matching(before, prev + 1 + i, entries[i..])
        decreases |entries| - i
      {
        assert entries[i..][1..] == entries[i + 1..];
        i := i + 1;
      }
      if i < |entries| && prev + 1 + i < |log| {
        log := log[..prev + 1 + i];
      }
      changed := i < |entries|;
      if changed {
        assert log == before[..prev + 1 + i];
        log := log + entries[i..];
      }
    }

    method AppendEntries(args: AppendArgs) returns (reply: AppendReply, persist: Persist)
      requires Valid()
      modifies this`currentTerm, this`votedFor, this`role, this`log, this`commitIndex
      ensures Valid()
      ensures Appended(View(), reply, persist) == HandleAppend(old(View()), args)
    {
      hide FirstOfTerm, MergeLog, Matching;
      persist := Nothing;
      if args.term < currentTerm {
        return AppendReply(currentTerm, false, 0, 0), Nothing;
      }
      if args.term > currentTerm {
        currentTerm := args.term;
        votedFor := NO_VOTE;
        persist := HardState;
      }
      role := Follower;
      if args.prevIndex > LastIndex(log) {
        return AppendReply(currentTerm, false, -1, LastIndex(log) + 1), persist;
      }
      if log[args.prevIndex].term != args.prevTerm {
        var conflictTerm := log[args.prevIndex].term;
        var index := FirstIndexOf(args.prevIndex, conflictTerm);
        return AppendReply(currentTerm, false, conflictTerm, index), persist;
      }
      MergeNonempty(log, args.prevIndex, args.entries);
      var changed := MergeEntries(args.prevIndex, args.entries);
      if changed {
        persist := RaftState;
      }
      if args.leaderCommit > commitIndex {
        commitIndex := MinInt(args.leaderCommit, LastIndex(log));
      }
      reply := AppendReply(currentTerm, true, 0, 0);
    }

    /** becomeLeader */
    method BecomeLeader()
      requires Valid()
      modifies this`role, nextIndex, matchIndex
      ensures Valid() && View() == old(View()).(role := Leader)
      ensures forall i | 0 <= i < nextIndex.Length :: nextIndex[i] == |log|
      ensures forall i | 0 <= i < matchIndex.Length :: matchIndex[i] == if i == me then LastIndex(log) else 0
    {
      role := Leader;
      for i := 0 to nextIndex.Length
        invariant forall j | 0 <= j < i :: nextIndex[j] == |log| && matchIndex[j] == 0
        modifies nextIndex, matchIndex
      {
        nextIndex[i] := LastIndex(log) + 1;
        matchIndex[i] := 0;
      }
      matchIndex[me] := LastIndex(log);
    }

    method BeginElection() returns (args: VoteArgs)
      requires Valid()
      modifies this`currentTerm, this`votedFor, this`role, this`votes, nextIndex, matchIndex
      ensures Valid() && View() == StartElection(old(View()), me, nextIndex.Length)
      ensures args == VoteArgs(currentTerm, me, LastIndex(log), LastTerm(log))
    {
      role := Candidate;
      currentTerm := currentTerm + 1;
      votedFor := me;
      votes := 1;
      if votes > nextIndex.Length / 2 {
        BecomeLeader();
      }
      args := VoteArgs(currentTerm, me, LastIndex(log), LastTerm(log));
    }

    method HandleVoteResponse(reply: VoteReply)
      requires Valid()
      modifies this`currentTerm, this`votedFor, this`role, this`votes, nextIndex, matchIndex
      ensures Valid() && View() == HandleVoteReply(old(View()), nextIndex.Length, reply)
    {
      if reply.term > currentTerm {
        currentTerm := reply.term;
        role := Follower;
        votedFor := NO_VOTE;
        return;
      }
      if reply.term < currentTerm || role != Candidate {
        return;
      }
      if reply.granted {
        votes := votes + 1;
        if votes > nextIndex.Length / 2 {
          BecomeLeader();
        }
      }
    }

    method Start(command: seq<byte>) returns (index: int, term: int, isLeader: bool)
      requires Valid()
      modifies this`log
      ensures Valid() && isLeader == (old(role) == Leader) && term == currentTerm
      ensures isLeader ==>
        View() == ClientAppend(old(View()), command) && index == |old(log)| && log[index] == LogEntry(term, command)
      ensures !isLeader ==> View() == old(View()) && index == -1
    {
      if role != Leader {
        return -1, currentTerm, false;
      }
      index, term, isLeader := LastIndex(log) + 1, currentTerm, true;
      log := log + [LogEntry(term, command)];
    }

    /** The backward search for the follower's conflicting term. */
    method LastIndexOf(term: int) returns (last: int)
      requires Valid()
      ensures last == LastOfTerm(log, |log| - 1, term)
    {
      var i := |log| - 1;
      while i >= 0
        invariant -1 <= i < |log| && LastOfTerm(log, i, term) == LastOfTerm(log, |log| - 1, term)
        decreases i + 1
      {
        if log[i].term == term {
          return i;
        }
        i := i - 1;
      }
      last := -1;
    }

    /** nextIndex and matchIndex after a reply that counts. */
    method UpdatePeer(server: nat, prevIndex: int, sent: nat, reply: AppendReply)
      requires Valid() && server < nextIndex.Length
      modifies nextIndex, matchIndex
      ensures Valid()
      ensures nextIndex[..] ==
        old(nextIndex[..])[server := if reply.success then prevIndex + sent + 1 else Backtrack(log, reply)]
      ensures matchIndex[..] ==
        if reply.success then old(matchIndex[..])[server := prevIndex + sent] else old(matchIndex[..])
    {
      hide LastOfTerm;
      if reply.success {
        matchIndex[server] := prevIndex + sent;
        nextIndex[server] := matchIndex[server] + 1;
      } else {
        if reply.conflictTerm == -1 {
          nextIndex[server] := reply.conflictIndex;
        } else {
          var last := LastIndexOf(reply.conflictTerm);
          if last != -1 {
            nextIndex[server] := last + 1;
          } else {
            nextIndex[server] := reply.conflictIndex;
          }
        }
        if nextIndex[server] < 1 {
          nextIndex[server] := 1;
        }
      }
    }

    method CountAckers(n: int) returns (count: nat)
      requires Valid()
      ensures count == |Ackers(matchIndex[..], me, n)|
    {
      count := 0;
      ghost var seen: set<int> := {};
      for i := 0 to matchIndex.Length
        invariant count == |seen|
        invariant forall j :: j in seen <==> 0 <= j < i && j != me && matchIndex[j] >= n
        modifies {}
      {
        if i != me && matchIndex[i] >= n {
          count := count + 1;
          seen := seen + {i};
        }
      }
      assert seen == Ackers(matchIndex[..], me, n);
    }

    /** The leader's commit advance: the highest committable index, if it is higher. */
    method AdvanceCommit()
      requires Valid()
      modifies this`commitIndex
      ensures Valid()
      ensures commitIndex == old(commitIndex) ||
        (commitIndex > old(commitIndex)
          && Committable(log, currentTerm, matchIndex[..], me, persistedIndex, commitIndex))
      ensures forall n :: n > commitIndex ==> !Committable(log, currentTerm, matchIndex[..], me, persistedIndex, n)
    {
      hide Ackers;
      var n := LastIndex(log);
      while n > commitIndex && n >= 1
        invariant n <= LastIndex(log) && commitIndex == old(commitIndex)
        invariant forall k :: k > n ==> !Committable(log, currentTerm, matchIndex[..], me, persistedIndex, k)
        decreases n
      {
        if log[n].term == currentTerm {
          var count := CountAckers(n);
          if n <= persistedIndex {
            count := count + 1;
          }
          if count > matchIndex.Length / 2 {
            commitIndex := n;
            return;
          }
        }
        n := n - 1;
      }
    }

    /** What the sender does with the reply to an append it sent under term: nothing once it
        no longer leads that term, step down for a newer term, else update the peer and
        advance the commit index. */
    method HandleAppendReply(server: nat, term: int, prevIndex: int, sent: nat, reply: AppendReply)
      returns (persist: Persist)
      requires Valid() && server < nextIndex.Length
      modifies this`currentTerm, this`votedFor, this`role, this`commitIndex, nextIndex, matchIndex
      ensures Valid()
      ensures var counts := old(role) == Leader && old(currentTerm) == term;
        && (!counts ==> View() == old(View()) && persist == Nothing)
        && (counts && reply.term > term ==> View() == StepDown(old(View()), reply.term) && persist == HardState)
        && (!counts || reply.term > term ==>
              nextIndex[..] == old(nextIndex[..]) && matchIndex[..] == old(matchIndex[..]))
        && (counts && reply.term <= term ==>
              && persist == Nothing
              && nextIndex[..] ==
                   old(nextIndex[..])[server := if reply.success then prevIndex + sent + 1 else Backtrack(log, reply)]
              && matchIndex[..] ==
                   (if reply.success then old(matchIndex[..])[server := prevIndex + sent] else old(matchIndex[..]))
              && View() == old(View()).(commit := commitIndex)
              && (commitIndex == old(commitIndex) ||
                  (commitIndex > old(commitIndex)
                    && Committable(log, term, matchIndex[..], me, persistedIndex, commitIndex)))
              && (forall n :: n > commitIndex ==> !Committable(log, term, matchIndex[..], me, persistedIndex, n)))
    {
      hide Committable, Backtrack;
      if role != Leader || term != currentTerm {
        return Nothing;
      }
      if reply.term > currentTerm {
        currentTerm := reply.term;
        role := Follower;
        votedFor := NO_VOTE;
        return HardState;
      }
      UpdatePeer(server, prevIndex, sent, reply);
      AdvanceCommit();
      return Nothing;
    }
  }

  lemma MergeNonempty(log: seq<LogEntry>, prev: nat, entries: seq<LogEntry>)
    requires prev < |log|
    ensures MergeLog(log, prev, entries) != []
  {
    hide Matching;
  }
}
