/** Bringing a follower's log in line with a leader's (pkg/raft/raft.go): repeated append
    exchanges with the fast-backtrack rule. */
module LogRepair {
  import opened PersistFormat
  import opened RaftHandlers

  /** Both logs are prefixes of the same canonical log up to any shared term. Holds
      between every two logs of a run, see RaftSafety. */
  ghost predicate Kindred(a: seq<LogEntry>, b: seq<LogEntry>) {
    forall i, j | 0 <= i < |a| && 0 <= j < |b| && a[i].term == b[j].term ::
      var m := MinInt(i, j); a[..m + 1] == b[..m + 1]
  }

  lemma KindredLogsMatch(a: seq<LogEntry>, b: seq<LogEntry>)
    requires Kindred(a, b)
    ensures LogsMatch(a, b) && LogsMatch(b, a)
  {}

  lemma KindredAt(a: seq<LogEntry>, b: seq<LogEntry>, i: nat, j: nat)
    requires Kindred(a, b) && i < |a| && j < |b| && a[i].term == b[j].term
    ensures i <= j ==> a[i] == b[i]
    ensures j <= i ==> a[j] == b[j]
  {
    var m := MinInt(i, j);
    assert a[..m + 1] == b[..m + 1];
    assert a[..m + 1][m] == a[m] && b[..m + 1][m] == b[m];
  }

  ghost predicate TermsRise(log: seq<LogEntry>) {
    forall i, j | 0 <= i <= j < |log| :: log[i].term <= log[j].term
  }

  // ---------------------------------------------------------------- which log gets a vote

  /** The arguments describe this log. */
  ghost predicate Describes(args: VoteArgs, log: seq<LogEntry>) {
    log != [] && args.lastIndex == |log| - 1 && args.lastTerm == log[|log| - 1].term
  }

  /** One log is not behind another: it ends in a later term, or in the same and continues it. */
  ghost predicate NotBehind(c: seq<LogEntry>, log: seq<LogEntry>)
    requires c != [] && log != []
  {
    var t, u := c[|c| - 1].term, log[|log| - 1].term;
    t > u || (t == u && log <= c)
  }

  /** What up to date means: a voter that is free to vote grants a candidate's request if and
      only if the candidate's log is not behind its own. */
  lemma GrantedByLog(n: Node, args: VoteArgs, c: seq<LogEntry>)
    requires n.log != [] && Describes(args, c) && Kindred(c, n.log)
    ensures HandleRequestVote(n, args).reply.granted <==>
      FreeToVote(n, args.term, args.candidate) && NotBehind(c, n.log)
  {
    hide Kindred;
    GrantedExactly(n, args);
    if args.lastTerm == LastTerm(n.log) && |c| >= |n.log| {
      KindredPrefix(c, n.log);
    }
  }

  lemma KindredPrefix(c: seq<LogEntry>, log: seq<LogEntry>)
    requires Kindred(c, log) && log != [] && |c| >= |log| && c[|c| - 1].term == log[|log| - 1].term
    ensures log <= c
  {
    var i, j := |c| - 1, |log| - 1;
    assert MinInt(i, j) == j;
    assert c[..j + 1] == log[..j + 1];
  }

  /** So a candidate whose log continues the voter's is never refused for its log. */
  lemma LongerIsGranted(n: Node, args: VoteArgs, c: seq<LogEntry>)
    requires n.log != [] && Describes(args, c) && n.log <= c && TermsRise(c)
    ensures HandleRequestVote(n, args).reply.granted <==> FreeToVote(n, args.term, args.candidate)
  {
    GrantedExactly(n, args);
  }

  // ---------------------------------------------------------------- one exchange

  /** An exchange between a leader and a follower that accepts its term. */
  ghost predicate CanExchange(leader: Node, follower: Node, next: int) {
    && Grounded(leader.log) && Grounded(follower.log)
    && Kindred(leader.log, follower.log)
    && follower.term <= leader.term
    && 1 <= next <= |leader.log|
  }

  function Exchange(leader: Node, me: int, follower: Node, next: nat): (r: Appended)
    requires follower.log != [] && 1 <= next <= |leader.log|
  {
    HandleAppend(follower, BuildAppend(leader, me, next))
  }

  /** Every rejected exchange strictly lowers nextIndex, whichever of the three reasons the
      follower gives, and keeps it in range; the follower's log is untouched. */
  lemma RejectLowersNext(leader: Node, me: int, follower: Node, next: nat)
    requires CanExchange(leader, follower, next)
    requires !Exchange(leader, me, follower, next).reply.success
    ensures var r := Exchange(leader, me, follower, next);
      && 1 <= Backtrack(leader.log, r.reply) < next
      && r.node.log == follower.log
      && CanExchange(leader, r.node, Backtrack(leader.log, r.reply))
  {
    hide Kindred, FirstOfTerm, LastOfTerm, Matching;
    var prev := next - 1;
    var r := Exchange(leader, me, follower, next);
    if prev < |follower.log| {
      var t := follower.log[prev].term;
      var last := LastOfTerm(leader.log, |leader.log| - 1, t);
      if last != -1 && last >= prev {
        KindredAt(leader.log, follower.log, last, prev);
        assert false;
      }
    }
  }

  /** The fast backtrack: no index at which the logs agree is passed over; if the leader has an
      entry of the follower's conflicting term, the next exchange is accepted; and if not, the
      follower's whole run of that term is skipped. */
  ghost predicate Fast(leader: Node, me: int, follower: Node, next: nat)
    requires CanExchange(leader, follower, next)
  {
    var r := Exchange(leader, me, follower, next);
    var next' := Backtrack(leader.log, r.reply);
    && 1 <= next' < next
    && (forall k | next' <= k < next && k < |follower.log| :: leader.log[k].term != follower.log[k].term)
    && (next > |follower.log| ==> next' == |follower.log|)
    && (next <= |follower.log| ==>
          var t := follower.log[next - 1].term;
          if exists i :: 0 <= i < |leader.log| && leader.log[i].term == t
          then r.node.log != [] && Exchange(leader, me, r.node, next').reply.success
          else next' < |follower.log| && follower.log[next'].term == t && follower.log[next' - 1].term != t)
  }

  lemma BacktrackFast(leader: Node, me: int, follower: Node, next: nat)
    requires CanExchange(leader, follower, next) && TermsRise(leader.log) && TermsRise(follower.log)
    requires !Exchange(leader, me, follower, next).reply.success
    ensures Fast(leader, me, follower, next)
  {
    hide Kindred, FirstOfTerm, LastOfTerm, HandleAppend;
    RejectLowersNext(leader, me, follower, next);
    var prev := next - 1;
    var r := Exchange(leader, me, follower, next);
    AppendAnswers(follower, BuildAppend(leader, me, next));
    if prev < |follower.log| {
      var t := follower.log[prev].term;
      var last := LastOfTerm(leader.log, |leader.log| - 1, t);
      if last == -1 {
        assert leader.log[0].term != t && follower.log[0].term != t;
        assert r.reply.conflictIndex > 0;
      } else {
        SharedTerm(leader.log, follower.log, last, prev);
        AppendAnswers(r.node, BuildAppend(leader, me, last + 1));
      }
    }
  }

  /** Where the leader's last entry of the term lies, the follower has that entry too. */
  lemma SharedTerm(leader: seq<LogEntry>, follower: seq<LogEntry>, last: nat, prev: nat)
    requires Kindred(leader, follower) && TermsRise(follower)
    requires last < prev < |follower| && last < |leader| && leader[last].term == follower[prev].term
    ensures follower[last] == leader[last]
    ensures forall k | last <= k <= prev :: follower[k].term == follower[prev].term
  {
    hide Kindred;
    KindredAt(leader, follower, last, prev);
  }

  /** An accepted exchange makes the leader's log a prefix of the follower's. */
  lemma AcceptAgrees(leader: Node, me: int, follower: Node, next: nat)
    requires CanExchange(leader, follower, next)
    requires Exchange(leader, me, follower, next).reply.success
    ensures var r := Exchange(leader, me, follower, next).node;
      && r.log == (if leader.log <= follower.log then follower.log else leader.log)
      && CommitLearned(follower.commit, r, leader.commit, leader.log)
  {
    hide Kindred, Matching, CommitLearned, MergeLog;
    KindredLogsMatch(follower.log, leader.log) by { KindredSymmetric(leader.log, follower.log); }
    MergeResult(follower.log, leader.log, next - 1);
    CommitRule(follower, BuildAppend(leader, me, next), leader.log);
  }

  /** What an accepted append does to the commit index. It learns all the sender knew to be
      committed, as far as the sender's log goes; beyond its old index it commits exactly what
      the sender says and its own log holds; and it falls only if the sender's log, taken over,
      ends below it although the sender claims more. */
  ghost predicate CommitLearned(before: int, r: Node, leaderCommit: int, source: seq<LogEntry>) {
    && r.commit >= MinInt(leaderCommit, |source| - 1)
    && (leaderCommit <= before ==> r.commit == before)
    && (leaderCommit > before ==>
          && r.commit <= leaderCommit && r.commit < |r.log|
          && (r.commit == leaderCommit || r.commit == |r.log| - 1))
    && (r.commit >= before <==> leaderCommit <= before || before < |r.log|)
  }

  lemma CommitRule(n: Node, args: AppendArgs, source: seq<LogEntry>)
    requires n.log != [] && LogsMatch(n.log, source)
    requires args.prevIndex < |source| && args.prevTerm == source[args.prevIndex].term
    requires args.entries == source[args.prevIndex + 1..]
    requires HandleAppend(n, args).reply.success
    ensures CommitLearned(n.commit, HandleAppend(n, args).node, args.leaderCommit, source)
  {
    hide Matching, FirstOfTerm, LogsMatch, MergeLog;
    MergeResult(n.log, source, args.prevIndex);
  }

  /** The commit index can fall: the follower had committed two entries, and takes over a log
      of one from a sender that claims more is committed than its log holds. */
  lemma CommitFalls()
    ensures var x, y := LogEntry(1, []), LogEntry(2, []);
      var n := Node(2, NO_VOTE, Follower, 0, [DUMMY, x, x], 2);
      var r := HandleAppend(n, AppendArgs(2, 0, 0, 0, [y], 3));
      r.reply.success && r.node.log == [DUMMY, y] && r.node.commit == 1
  {
    var x, y := LogEntry(1, []), LogEntry(2, []);
    var log := [DUMMY, x, x];
    assert log[..1] + [y][0..] == [DUMMY, y];
    assert Matching(log, 1, [y]) == 0;
  }

  lemma KindredSymmetric(a: seq<LogEntry>, b: seq<LogEntry>)
    requires Kindred(a, b)
    ensures Kindred(b, a)
  {
    forall i, j | 0 <= i < |b| && 0 <= j < |a| && b[i].term == a[j].term
      ensures var m := MinInt(i, j); b[..m + 1] == a[..m + 1]
    {
      assert MinInt(i, j) == MinInt(j, i);
    }
  }

  /** The follower after exchanges are repeated until one is accepted. */
  ghost function Repaired(leader: Node, me: int, follower: Node, next: nat): (r: Node)
    requires CanExchange(leader, follower, next)
    decreases next
  {
    var r := Exchange(leader, me, follower, next);
    if r.reply.success then r.node
    else
      RejectLowersNext(leader, me, follower, next);
      Repaired(leader, me, r.node, Backtrack(leader.log, r.reply))
  }

  /** Repair terminates, with the follower agreeing with the leader at every leader index and
      knowing of every entry of the leader's log that the leader knows to be committed. */
  lemma {:induction false} RepairConverges(leader: Node, me: int, follower: Node, next: nat)
    requires CanExchange(leader, follower, next)
    ensures var r := Repaired(leader, me, follower, next);
      && r.log == (if leader.log <= follower.log then follower.log else leader.log)
      && r.term == leader.term && r.role == Follower
      && CommitLearned(follower.commit, r, leader.commit, leader.log)
    decreases next
  {
    hide Kindred, Backtrack, Matching, FirstOfTerm, MergeLog, CommitLearned;
    var r := Exchange(leader, me, follower, next);
    if r.reply.success {
      AcceptAgrees(leader, me, follower, next);
    } else {
      RejectLowersNext(leader, me, follower, next);
      RepairConverges(leader, me, r.node, Backtrack(leader.log, r.reply));
    }
  }

  /** An index newly committed lies in the log; where the sender's log reaches, it holds the
      sender's entries; and the sender's log reaches it exactly when the sender's commit index
      lay inside that log, or the receiver's log is now no longer than it. */
  ghost predicate CommitsAsSent(n: Node, r: Node, leaderCommit: int, source: seq<LogEntry>) {
    r.commit > n.commit ==>
      && r.commit < |r.log|
      && (forall k | 0 <= k <= r.commit && k < |source| :: r.log[k] == source[k])
      && (r.commit < |source| <==> leaderCommit < |source| || |r.log| == |source|)
  }

  /** Commit bound: although the receiver takes the minimum with the end of its own, possibly
      longer log, an index it newly commits holds the sender's entry, because the message
      carries the sender's whole tail. source is the sender's log when it sent. */
  lemma CommitBound(n: Node, args: AppendArgs, source: seq<LogEntry>)
    requires n.log != [] && n.commit >= 0 && LogsMatch(n.log, source)
    requires args.prevIndex < |source| && args.prevTerm == source[args.prevIndex].term
    requires args.entries == source[args.prevIndex + 1..]
    ensures CommitsAsSent(n, HandleAppend(n, args).node, args.leaderCommit, source)
  {
    hide Matching, FirstOfTerm, LogsMatch, MergeLog;
    if args.term >= n.term && args.prevIndex < |n.log| && n.log[args.prevIndex].term == args.prevTerm {
      MergeResult(n.log, source, args.prevIndex);
      assert HandleAppend(n, args).node.log[..|source|] == source;
    }
  }
}
