/** Election safety: no term ever has two leaders, across crashes and restarts. */
module RaftElections {
  import opened RaftHandlers
  import opened RaftSystem
  import opened RaftBallots
  import opened Sets

  ghost predicate HostsOk(hosts: seq<Host>) {
    forall i | 0 <= i < |hosts| :: BallotsOk(hosts[i])
  }

  /** A visible vote is the one cast in its term and is safe in the voter's hard state. */
  ghost predicate GrantOk(hosts: seq<Host>, g: Grant) {
    && 0 <= g.voter < |hosts| && 0 <= g.candidate < |hosts| && g.term >= 1
    && ClaimOk(hosts[g.voter].cast, Ballot(g.term, g.candidate))
    && Under(Ballot(g.term, g.candidate), hosts[g.voter].hard)
  }

  ghost predicate GrantsOk(hosts: seq<Host>, grants: set<Grant>) {
    forall g | g in grants :: GrantOk(hosts, g)
  }

  /** Voter v's answer has been counted in candidate i's election of term t. */
  ghost predicate Counted(hosts: seq<Host>, v: int, i: int, t: int) {
    0 <= i < |hosts| && hosts[i].node.role == Candidate && hosts[i].node.term == t && v in hosts[i].tally
  }

  function YesFrom(v: int, i: int, t: int): (a: VoteAnswer) {
    VoteAnswer(v, i, VoteReply(t, true))
  }

  /** Of the four stages of one vote (requested, pledged, answered, counted), a vote is in
      at most one. */
  ghost predicate RequestOk(s: System, r: VoteRequest) {
    var i, t := r.args.candidate, r.args.term;
    && IsHost(s, r.to) && IsHost(s, i) && r.to != i
    && Grant(i, t, i) in s.grants
    && Pledge(t, i) !in s.hosts[r.to].waiting
    && YesFrom(r.to, i, t) !in s.answers
    && !Counted(s.hosts, r.to, i, t)
  }

  ghost predicate RequestsOk(s: System) {
    && (forall r | r in s.requests :: RequestOk(s, r))
    && (forall r, q | r in s.requests && q in s.requests && r.to == q.to && r.args.candidate == q.args.candidate
          && r.args.term == q.args.term :: r == q)
  }

  ghost predicate PledgeMsgOk(s: System, v: int, p: Pledge) {
    && IsHost(s, p.candidate) && v != p.candidate
    && Grant(p.candidate, p.term, p.candidate) in s.grants
    && YesFrom(v, p.candidate, p.term) !in s.answers
    && !Counted(s.hosts, v, p.candidate, p.term)
  }

  ghost predicate PledgesOk(s: System) {
    forall v, p | 0 <= v < |s.hosts| && p in s.hosts[v].waiting :: PledgeMsgOk(s, v, p)
  }

  ghost predicate AnswerOk(s: System, a: VoteAnswer) {
    a.reply.granted ==>
      && IsHost(s, a.from) && IsHost(s, a.to) && a.from != a.to
      && Grant(a.from, a.reply.term, a.to) in s.grants
      && Grant(a.to, a.reply.term, a.to) in s.grants
      && !Counted(s.hosts, a.from, a.to, a.reply.term)
  }

  ghost predicate AnswersOk(s: System) {
    forall a | a in s.answers :: AnswerOk(s, a)
  }

  /** A candidate's vote counter is the number of distinct voters whose grants it has, and they
      are not yet more than half. */
  ghost predicate TallyOk(s: System, i: int)
    requires IsHost(s, i)
  {
    var h := s.hosts[i];
    h.node.role == Candidate ==>
      && i in h.tally && h.node.votes == |h.tally| && 2 * |h.tally| <= |s.hosts|
      && (forall v | v in h.tally :: Grant(v, h.node.term, i) in s.grants)
  }

  ghost predicate TalliesOk(s: System) {
    forall i | 0 <= i < |s.hosts| :: TallyOk(s, i)
  }

  ghost predicate LeadOk(s: System, t: int) {
    t in s.led && t > 0 ==>
      var lead := s.led[t];
      && IsHost(s, lead.leader)
      && lead.leader in lead.voters && 2 * |lead.voters| > |s.hosts|
      && (forall v | v in lead.voters :: Grant(v, t, lead.leader) in s.grants)
      && !(s.hosts[lead.leader].node.term == t && s.hosts[lead.leader].node.role == Candidate)
  }

  ghost predicate LedOk(s: System) {
    && (forall t | t in s.led :: t >= 0 && LeadOk(s, t))
    && (forall i | 0 <= i < |s.hosts| && s.hosts[i].node.role == Leader ::
          var t := s.hosts[i].node.term; t > 0 && t in s.led && s.led[t].leader == i)
  }

  ghost predicate ElectionsOk(s: System) {
    && HostsOk(s.hosts) && GrantsOk(s.hosts, s.grants)
    && RequestsOk(s) && PledgesOk(s) && AnswersOk(s)
    && TalliesOk(s) && LedOk(s)
  }

  // ---------------------------------------------------------------- quorums

  /** Two majorities of the same cluster share a voter. */
  lemma MajoritiesMeet(a: set<int>, b: set<int>, n: nat) returns (v: int)
    requires forall x | x in a || x in b :: 0 <= x < n
    requires 2 * |a| > n && 2 * |b| > n
    ensures v in a && v in b
  {
    var both := a * b;
    if both == {} {
      assert |a + b| == |a| + |b|;
      AtMost(a + b, n);
      assert false;
    }
    v := Member(both);
  }

  /** One voter, one term: one candidate. */
  lemma GrantUnique(s: System, v: int, t: int, i: int, j: int)
    requires GrantsOk(s.hosts, s.grants)
    requires Grant(v, t, i) in s.grants && Grant(v, t, j) in s.grants
    ensures i == j
  {
    assert GrantOk(s.hosts, Grant(v, t, i)) && GrantOk(s.hosts, Grant(v, t, j));
  }

  /** A candidate about to win leads a term nobody has led. */
  lemma WinnerIsFirst(s: System, i: int, voters: set<int>)
    requires ElectionsOk(s) && IsHost(s, i) && s.hosts[i].node.role == Candidate
    requires 2 * |voters| > |s.hosts|
    requires forall v | v in voters :: Grant(v, s.hosts[i].node.term, i) in s.grants
    ensures s.hosts[i].node.term !in s.led && s.hosts[i].node.term > 0
  {
    var t := s.hosts[i].node.term;
    assert TallyOk(s, i);
    assert GrantOk(s.hosts, Grant(i, t, i));
    if t in s.led {
      assert LeadOk(s, t);
      var lead := s.led[t];
      forall v | v in voters || v in lead.voters
        ensures 0 <= v < |s.hosts|
      {
        if v in voters {
          assert GrantOk(s.hosts, Grant(v, t, i));
        } else {
          assert GrantOk(s.hosts, Grant(v, t, lead.leader));
        }
      }
      var v := MajoritiesMeet(voters, lead.voters, |s.hosts|);
      GrantUnique(s, v, t, i, lead.leader);
      assert false;
    }
  }

  // ---------------------------------------------------------------- steps that start no vote

  /** The host neither starts nor wins an election nor pledges a vote, and the votes it has
      made visible stay safe. */
  ghost predicate Quiet(h: Host, h': Host) {
    && BallotsOk(h')
    && (forall q: Ballot ::
          q.vote != NO_VOTE && ClaimOk(h.cast, q) && Under(q, h.hard) ==> ClaimOk(h'.cast, q) && Under(q, h'.hard))
    && h'.waiting <= h.waiting
    && (h'.node.role == Candidate ==>
        h.node.role == Candidate && h'.node.term == h.node.term && h'.tally == h.tally && h'.node.votes == h.node.votes)
    && (h'.node.role == Leader ==> h.node.role == Leader && h'.node.term == h.node.term)
  }

  /** The same leaderships, perhaps with longer logs. */
  ghost predicate SameLeads(led: map<int, Lead>, led': map<int, Lead>) {
    && led'.Keys == led.Keys
    && forall t | t in led :: led'[t].leader == led[t].leader && led'[t].voters == led[t].voters
  }

  ghost predicate QuietStep(s: System, s': System, i: int) {
    && IsHost(s, i) && |s'.hosts| == |s.hosts| && s'.hosts == s.hosts[i := s'.hosts[i]]
    && Quiet(s.hosts[i], s'.hosts[i])
    && s'.grants == s.grants && s'.requests <= s.requests && SameLeads(s.led, s'.led)
    && (forall a | a in s'.answers :: a in s.answers || !a.reply.granted)
  }

  lemma QuietGrants(s: System, s': System, i: int)
    requires GrantsOk(s.hosts, s.grants) && QuietStep(s, s', i)
    ensures GrantsOk(s'.hosts, s'.grants)
  {
    hide BallotsOk;
    forall g | g in s'.grants
      ensures GrantOk(s'.hosts, g)
    {
      assert GrantOk(s.hosts, g);
    }
  }

  lemma QuietMessages(s: System, s': System, i: int)
    requires RequestsOk(s) && PledgesOk(s) && AnswersOk(s) && QuietStep(s, s', i)
    ensures RequestsOk(s') && PledgesOk(s') && AnswersOk(s')
  {
    hide BallotsOk, ClaimOk, Under;
    assert forall v, j, t :: Counted(s'.hosts, v, j, t) ==> Counted(s.hosts, v, j, t);
    forall r | r in s'.requests
      ensures RequestOk(s', r)
    {
      assert RequestOk(s, r);
    }
    forall v, p | 0 <= v < |s'.hosts| && p in s'.hosts[v].waiting
      ensures PledgeMsgOk(s', v, p)
    {
      assert PledgeMsgOk(s, v, p);
    }
    forall a | a in s'.answers
      ensures AnswerOk(s', a)
    {
      assert a in s.answers ==> AnswerOk(s, a);
    }
  }

  lemma QuietLeads(s: System, s': System, i: int)
    requires TalliesOk(s) && LedOk(s) && QuietStep(s, s', i)
    ensures TalliesOk(s') && LedOk(s')
  {
    hide BallotsOk, ClaimOk, Under;
    forall j | 0 <= j < |s'.hosts|
      ensures TallyOk(s', j)
    {
      assert TallyOk(s, j);
    }
    forall t | t in s'.led
      ensures t >= 0 && LeadOk(s', t)
    {
      assert LeadOk(s, t);
    }
  }

  lemma QuietKeeps(s: System, s': System, i: int)
    requires ElectionsOk(s) && QuietStep(s, s', i)
    ensures ElectionsOk(s')
  {
    hide BallotsOk, GrantsOk, RequestsOk, PledgesOk, AnswersOk, TalliesOk, LedOk;
    QuietGrants(s, s', i);
    QuietMessages(s, s', i);
    QuietLeads(s, s', i);
    assert HostsOk(s'.hosts);
  }
}
