/** What the Raft message handlers compute (pkg/raft/raft.go), for logs that have not
    been compacted: position 0 of every log is a dummy entry of term 0. */
module RaftHandlers {
  import opened PersistFormat

  datatype Role = Follower | Candidate | Leader

  datatype Node = Node(term: int, vote: int, role: Role, votes: int, log: seq<LogEntry>, commit: int)

  /** Which file a handler hands to the persister. */
  datatype Persist = Nothing | HardState | RaftState

  const DUMMY := LogEntry(0, [])
  const NO_VOTE := -1

  predicate Grounded(log: seq<LogEntry>) {
    log != [] && log[0] == DUMMY
  }

  function LastIndex(log: seq<LogEntry>): (i: int) {
    |log| - 1
  }

  function LastTerm(log: seq<LogEntry>): (t: int)
    requires log != []
  {
    log[|log| - 1].term
  }

  // ---------------------------------------------------------------- elections

  datatype VoteArgs = VoteArgs(term: int, candidate: int, lastIndex: int, lastTerm: int)
  datatype VoteReply = VoteReply(term: int, granted: bool)
  datatype Voted = Voted(node: Node, reply: VoteReply, persist: Persist)

  /** The candidate's log is at least as up to date as this one. */
  predicate UpToDate(args: VoteArgs, log: seq<LogEntry>)
    requires log != []
  {
    args.lastTerm > LastTerm(log) || (args.lastTerm == LastTerm(log) && args.lastIndex >= LastIndex(log))
  }

  function StepDown(n: Node, term: int): (r: Node) {
    n.(term := term, vote := NO_VOTE, role := Follower)
  }

  function HandleRequestVote(n: Node, args: VoteArgs): (r: Voted)
    requires n.log != []
  {
    if args.term < n.term then Voted(n, VoteReply(n.term, false), Nothing)
    else
      var m := if args.term > n.term then StepDown(n, args.term) else n;
      var stepped := if args.term > n.term then HardState else Nothing;
      if !UpToDate(args, m.log) then Voted(m, VoteReply(m.term, false), stepped)
      else if m.vote == NO_VOTE || m.vote == args.candidate then
        Voted(m.(vote := args.candidate), VoteReply(m.term, true), HardState)
      else Voted(m, VoteReply(m.term, false), stepped)
  }

  /** The term is not over and this node has not voted for another in it. */
  predicate FreeToVote(n: Node, term: int, candidate: int) {
    term > n.term || (term == n.term && (n.vote == NO_VOTE || n.vote == candidate))
  }

  /** A vote is granted exactly to an up-to-date candidate of a term in which this node has not
      voted for another. The reply tells the node's term, which is the newer of the two; a
      newer term makes it a follower without a vote; the pair is written exactly if a vote was
      cast or the term has changed; nothing else does. */
  lemma GrantedExactly(n: Node, args: VoteArgs)
    requires n.log != []
    ensures var r := HandleRequestVote(n, args);
      && (r.reply.granted <==> UpToDate(args, n.log) && FreeToVote(n, args.term, args.candidate))
      && r.reply.term == r.node.term == MaxInt(n.term, args.term)
      && (r.reply.granted ==> r.node.vote == args.candidate)
      && (!r.reply.granted ==> r.node.vote == if args.term > n.term then NO_VOTE else n.vote)
      && r.node.role == (if args.term > n.term then Follower else n.role)
      && r.node.log == n.log && r.node.commit == n.commit && r.node.votes == n.votes
      && r.persist == (if r.reply.granted || args.term > n.term then HardState else Nothing)
  {}

  function MaxInt(a: int, b: int): (m: int) {
    if a >= b then a else b
  }

  /** Majority: Votes > len(peers)/2. */
  predicate Majority(votes: int, peers: nat) {
    votes > peers / 2
  }

  function StartElection(n: Node, me: int, peers: nat): (r: Node) {
    n.(term := n.term + 1, vote := me, votes := 1, role := if Majority(1, peers) then Leader else Candidate)
  }

  /** handleVoteResponse; only stepping down writes (synchronously) to the hard state. */
  function HandleVoteReply(n: Node, peers: nat, reply: VoteReply): (r: Node) {
    if reply.term > n.term then StepDown(n, reply.term)
    else if reply.term < n.term || n.role != Candidate || !reply.granted then n
    else n.(votes := n.votes + 1, role := if Majority(n.votes + 1, peers) then Leader else Candidate)
  }

  /** More than half is needed and more than half is enough: a vote that counts makes the node
      leader if and only if twice its votes exceed the number of peers. A newer term ends the
      candidacy; any other reply changes nothing. */
  lemma VoteCountedExactly(n: Node, peers: nat, reply: VoteReply)
    ensures var r := HandleVoteReply(n, peers, reply);
      var counts := reply.granted && reply.term == n.term && n.role == Candidate;
      && r.term == MaxInt(n.term, reply.term) && r.log == n.log && r.commit == n.commit
      && (reply.term > n.term ==> r.vote == NO_VOTE && r.role == Follower && r.votes == n.votes)
      && (counts ==> r.votes == n.votes + 1 && r.vote == n.vote)
      && (counts ==> r.role == if 2 * (n.votes + 1) > peers then Leader else Candidate)
      && (reply.term <= n.term && !counts ==> r == n)
  {}

  /** A candidate starts with its own vote in the next term, and leads at once exactly if it is
      alone. */
  lemma ElectionStarts(n: Node, me: int, peers: nat)
    ensures var r := StartElection(n, me, peers);
      && r.term == n.term + 1 && r.vote == me && r.votes == 1 && r.log == n.log && r.commit == n.commit
      && r.role == if peers <= 1 then Leader else Candidate
  {}

  // ---------------------------------------------------------------- log replication

  datatype AppendArgs = AppendArgs(term: int, leader: int, prevIndex: nat, prevTerm: int, entries: seq<LogEntry>,
                                   leaderCommit: int)
  datatype AppendReply = AppendReply(term: int, success: bool, conflictTerm: int, conflictIndex: int)
  datatype Appended = Appended(node: Node, reply: AppendReply, persist: Persist)

  /** The arguments a node builds for a peer: always its whole tail from next on. */
  function BuildAppend(n: Node, me: int, next: nat): (args: AppendArgs)
    requires 1 <= next <= |n.log|
  {
    AppendArgs(n.term, me, next - 1, n.log[next - 1].term, n.log[next..], n.commit)
  }

  /** How many entries already sit in the log with the same terms, from position at on. */
  function Matching(log: seq<LogEntry>, at: nat, entries: seq<LogEntry>): (i: nat)
    ensures i <= |entries|
    ensures at <= |log| ==> at + i <= |log|
    decreases |entries|
  {
    if entries == [] || at >= |log| || log[at].term != entries[0].term then 0
    else 1 + Matching(log, at + 1, entries[1..])
  }

  /** Cut at the first mismatch and append what is missing; a log that already holds all
      the entries is left alone, even when it is longer. */
  function MergeLog(log: seq<LogEntry>, prev: nat, entries: seq<LogEntry>): (r: seq<LogEntry>)
    requires prev < |log|
  {
    var i := Matching(log, prev + 1, entries);
    if i == |entries| then log else log[..prev + 1 + i] + entries[i..]
  }

  /** The start of the run of entries with term t that ends just below index. */
  function FirstOfTerm(log: seq<LogEntry>, index: nat, t: int): (i: nat)
    requires index <= |log|
    ensures i <= index && forall k | i <= k < index :: log[k].term == t
    ensures i > 0 ==> log[i - 1].term != t
  {
    if index > 0 && log[index - 1].term == t then FirstOfTerm(log, index - 1, t) else index
  }

  function MinInt(a: int, b: int): (m: int) {
    if a <= b then a else b
  }

  function Written(termChanged: bool): (p: Persist) {
    if termChanged then HardState else Nothing
  }

  function HandleAppend(n: Node, args: AppendArgs): (r: Appended)
    requires n.log != []
  {
    if args.term < n.term then Appended(n, AppendReply(n.term, false, 0, 0), Nothing)
    else
      var newer := args.term > n.term;
      var m := if newer then StepDown(n, args.term) else n.(role := Follower);
      if args.prevIndex > LastIndex(m.log) then
        Appended(m, AppendReply(m.term, false, -1, |m.log|), Written(newer))
      else if m.log[args.prevIndex].term != args.prevTerm then
        var t := m.log[args.prevIndex].term;
        Appended(m, AppendReply(m.term, false, t, FirstOfTerm(m.log, args.prevIndex, t)), Written(newer))
      else
        var log := MergeLog(m.log, args.prevIndex, args.entries);
        var commit := if args.leaderCommit > m.commit then MinInt(args.leaderCommit, LastIndex(log)) else m.commit;
        Appended(m.(log := log, commit := commit), AppendReply(m.term, true, 0, 0),
          if Matching(m.log, args.prevIndex + 1, args.entries) < |args.entries| then RaftState else Written(newer))
  }

  /** What the follower answers and owes the disk. It accepts exactly if the term is not over
      and its entry before the new ones has the sender's term. It refuses with its log's length
      if it is too short, else with the term it has there and where the run of that term
      begins. A changed log is written whole, else a changed term alone. */
  lemma AppendAnswers(n: Node, args: AppendArgs)
    requires n.log != []
    ensures var r := HandleAppend(n, args);
      && r.reply.term == r.node.term == MaxInt(n.term, args.term)
      && r.node.vote == (if args.term > n.term then NO_VOTE else n.vote) && r.node.votes == n.votes
      && r.node.role == (if args.term >= n.term then Follower else n.role)
      && (r.reply.success <==>
           args.term >= n.term && args.prevIndex < |n.log| && n.log[args.prevIndex].term == args.prevTerm)
      && (!r.reply.success ==> r.node.log == n.log && r.node.commit == n.commit)
      && r.persist == (if r.node.log != n.log then RaftState else if args.term > n.term then HardState else Nothing)
      && (!r.reply.success && args.term >= n.term ==> Hint(n.log, args.prevIndex, r.reply))
  {
    hide Matching, FirstOfTerm;
    if args.prevIndex < |n.log| && n.log[args.prevIndex].term == args.prevTerm {
      MergeChanges(n.log, args.prevIndex, args.entries);
    }
  }

  /** The hint of a refused append. */
  ghost predicate Hint(log: seq<LogEntry>, prev: nat, reply: AppendReply) {
    if prev >= |log| then reply.conflictTerm == -1 && reply.conflictIndex == |log|
    else
      && reply.conflictTerm == log[prev].term && 0 <= reply.conflictIndex <= prev
      && (forall k | reply.conflictIndex <= k < prev :: log[k].term == reply.conflictTerm)
      && (reply.conflictIndex > 0 ==> log[reply.conflictIndex - 1].term != reply.conflictTerm)
  }

  lemma MergeChanges(log: seq<LogEntry>, prev: nat, entries: seq<LogEntry>)
    requires prev < |log|
    ensures MergeLog(log, prev, entries) != log <==> Matching(log, prev + 1, entries) < |entries|
  {
    hide Matching;
    var i := Matching(log, prev + 1, entries);
    MatchingStops(log, prev + 1, entries);
    if i < |entries| {
      var merged := log[..prev + 1 + i] + entries[i..];
      assert merged[prev + 1 + i] == entries[i];
    }
  }

  lemma {:induction false} MatchingStops(log: seq<LogEntry>, at: nat, entries: seq<LogEntry>)
    requires at <= |log|
    ensures var i := Matching(log, at, entries);
      && (forall k | 0 <= k < i :: log[at + k].term == entries[k].term)
      && (i < |entries| && at + i < |log| ==> log[at + i].term != entries[i].term)
    decreases |entries|
  {
    if entries != [] && at < |log| && log[at].term == entries[0].term {
      MatchingStops(log, at + 1, entries[1..]);
    }
  }

  /** The highest index at or below i holding term t, or -1. */
  function LastOfTerm(log: seq<LogEntry>, i: int, t: int): (r: int)
    requires -1 <= i < |log|
    ensures -1 <= r <= i
    ensures r >= 0 ==> log[r].term == t
    ensures forall k | r < k <= i :: log[k].term != t
    decreases i + 1
  {
    if i == -1 || log[i].term == t then i else LastOfTerm(log, i - 1, t)
  }

  /** nextIndex after a rejected append. */
  function Backtrack(log: seq<LogEntry>, reply: AppendReply): (next: int)
    ensures next >= 1
  {
    var n :=
      if reply.conflictTerm == -1 then reply.conflictIndex
      else
        var last := LastOfTerm(log, |log| - 1, reply.conflictTerm);
        if last != -1 then last + 1 else reply.conflictIndex;
    if n < 1 then 1 else n
  }

  /** Start on a leader. */
  function ClientAppend(n: Node, command: seq<Bytes.byte>): (r: Node) {
    n.(log := n.log + [LogEntry(n.term, command)])
  }

  // ---------------------------------------------------------------- merging two logs that match

  /** Log Matching between two logs: equal terms at an index mean equal prefixes. */
  ghost predicate LogsMatch(a: seq<LogEntry>, b: seq<LogEntry>) {
    forall k | 0 <= k < |a| && k < |b| && a[k].term == b[k].term :: a[..k + 1] == b[..k + 1]
  }

  lemma {:induction false} MatchingExtends(log: seq<LogEntry>, source: seq<LogEntry>, at: nat)
    requires LogsMatch(log, source)
    requires 1 <= at <= |log| && at <= |source| && log[..at] == source[..at]
    ensures var i := Matching(log, at, source[at..]);
      && at + i <= |source| && log[..at + i] == source[..at + i]
      && (at + i < |source| && at + i < |log| ==> log[at + i].term != source[at + i].term)
    decreases |source| - at
  {
    if at < |source| && at < |log| && log[at].term == source[at].term {
      assert log[..at + 1] == source[..at + 1];
      MatchingExtends(log, source, at + 1);
      assert source[at..][1..] == source[at + 1..];
    }
  }

  lemma MatchAt(a: seq<LogEntry>, b: seq<LogEntry>, k: nat)
    requires LogsMatch(a, b) && k < |a| && k < |b| && a[k].term == b[k].term
    ensures a[..k + 1] == b[..k + 1]
  {}

  /** Accepting a tail of a matching log leaves the old log if that already begins with the
      sender's log, and otherwise exactly the sender's log. */
  lemma MergeResult(log: seq<LogEntry>, source: seq<LogEntry>, prev: nat)
    requires LogsMatch(log, source)
    requires prev < |log| && prev < |source| && log[prev].term == source[prev].term
    ensures var r := MergeLog(log, prev, source[prev + 1..]);
      && r == (if source <= log then log else source)
      && source <= r
      && (r != log <==> Matching(log, prev + 1, source[prev + 1..]) < |source| - prev - 1)
  {
    hide Matching, LogsMatch, MergeLog;
    var at := prev + 1;
    var entries := source[at..];
    var i := MatchPoint(log, source, prev);
    Spliced(log, source, at, i);
    if i == |entries| {
      assert MergeLog(log, prev, entries) == log by { Merged(log, prev, entries); }
    } else {
      assert MergeLog(log, prev, entries) == source by { Merged(log, prev, entries); }
    }
  }

  lemma MatchPoint(log: seq<LogEntry>, source: seq<LogEntry>, prev: nat) returns (i: nat)
    requires LogsMatch(log, source)
    requires prev < |log| && prev < |source| && log[prev].term == source[prev].term
    ensures i == Matching(log, prev + 1, source[prev + 1..]) <= |source| - prev - 1
    ensures prev + 1 + i <= |log| && log[..prev + 1 + i] == source[..prev + 1 + i]
    ensures prev + 1 + i < |source| && prev + 1 + i < |log| ==> log[prev + 1 + i].term != source[prev + 1 + i].term
  {
    hide Matching, LogsMatch;
    MatchAt(log, source, prev);
    MatchingExtends(log, source, prev + 1);
    i := Matching(log, prev + 1, source[prev + 1..]);
  }

  lemma Merged(log: seq<LogEntry>, prev: nat, entries: seq<LogEntry>)
    requires prev < |log|
    ensures var i := Matching(log, prev + 1, entries);
      MergeLog(log, prev, entries) == if i == |entries| then log else log[..prev + 1 + i] + entries[i..]
  {}

  lemma NotPrefix(source: seq<LogEntry>, log: seq<LogEntry>, k: nat)
    requires k < |source| && (k < |log| ==> log[k] != source[k])
    ensures !(source <= log)
  {}

  lemma Spliced(log: seq<LogEntry>, source: seq<LogEntry>, at: nat, i: nat)
    requires at + i <= |source| && at + i <= |log| && log[..at + i] == source[..at + i]
    requires at + i < |source| && at + i < |log| ==> log[at + i].term != source[at + i].term
    ensures i < |source[at..]| ==>
      var r := log[..at + i] + source[at..][i..]; r == source && !(source <= log)
    ensures i == |source[at..]| ==> source <= log
  {
    if i < |source[at..]| {
      NotPrefix(source, log, at + i);
      assert source[at..][i..] == source[at + i..];
      assert source == source[..at + i] + source[at + i..];
    } else {
      assert source == source[..at + i];
    }
  }
}
