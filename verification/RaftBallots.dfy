/** What a node's terms and votes keep through asynchronous writes and restarts. */
module RaftBallots {
  import opened RaftHandlers
  import opened RaftSystem

  /** The pair carries no vote, or the one this node cast in that term. */
  ghost predicate ClaimOk(cast: map<int, int>, b: Ballot) {
    b.term >= 0 && (b.vote == NO_VOTE || (b.term in cast && cast[b.term] == b.vote))
  }

  /** Both queues, the files, the pledged votes and the files' whole past are superseded by
      the node's current pair, in order. */
  ghost predicate BallotsOk(h: Host) {
    var b := Current(h.node);
    && ClaimOk(h.cast, b)
    && ClaimOk(h.cast, h.hard) && Under(h.hard, b)
    && ClaimOk(h.cast, h.saved.ballot) && Under(h.saved.ballot, b)
    && HardQueueOk(h) && StateQueueOk(h)
    && (forall p | p in h.waiting :: PledgeOk(h, p))
    && PersistedOk(h)
  }

  ghost predicate PledgeOk(h: Host, p: Pledge) {
    var q := Ballot(p.term, p.candidate);
    p.candidate != NO_VOTE && ClaimOk(h.cast, q) && Under(q, Current(h.node))
  }

  ghost predicate HardQueueOk(h: Host) {
    var b := Current(h.node);
    && (forall k | 0 <= k < |h.hardQueue| ::
          ClaimOk(h.cast, h.hardQueue[k]) && Under(h.hard, h.hardQueue[k]) && Under(h.hardQueue[k], b))
    && (forall j, k | 0 <= j < k < |h.hardQueue| :: Under(h.hardQueue[j], h.hardQueue[k]))
  }

  ghost predicate StateQueueOk(h: Host) {
    var b := Current(h.node);
    && (forall k | 0 <= k < |h.stateQueue| ::
          && ClaimOk(h.cast, h.stateQueue[k].ballot)
          && Under(h.saved.ballot, h.stateQueue[k].ballot)
          && Under(h.stateQueue[k].ballot, b))
    && (forall j, k | 0 <= j < k < |h.stateQueue| :: Under(h.stateQueue[j].ballot, h.stateQueue[k].ballot))
  }

  /** Merging the two files gives exactly the newest pair that ever reached either. */
  ghost predicate PersistedOk(h: Host) {
    var m := Merge(h.saved.ballot, h.hard);
    m in h.persisted && forall q | q in h.persisted :: Under(q, m)
  }

  lemma UnderTransitive(a: Ballot, b: Ballot, c: Ballot)
    requires Under(a, b) && Under(b, c)
    ensures Under(a, c)
  {}

  /** Whichever file each vote was written to, the merge supersedes both. */
  lemma MergeSupersedes(cast: map<int, int>, header: Ballot, hard: Ballot)
    requires ClaimOk(cast, header) && ClaimOk(cast, hard)
    ensures Under(header, Merge(header, hard)) && Under(hard, Merge(header, hard))
    ensures Merge(header, hard) == header || Merge(header, hard) == hard
  {}

  /** The node moves on to a newer pair, perhaps casting a vote. */
  lemma Raised(h: Host, n: Node, cast: map<int, int>)
    requires BallotsOk(h) && Under(Current(h.node), Current(n)) && n.term >= 0
    requires cast == h.cast[n.term := n.vote]
      || (cast == h.cast && (n.vote == NO_VOTE || Current(n) == Current(h.node)))
    requires cast != h.cast ==> n.vote != NO_VOTE
    ensures BallotsOk(h.(node := n, cast := cast))
  {
    var h' := h.(node := n, cast := cast);
    forall q | ClaimOk(h.cast, q) && Under(q, Current(h.node))
      ensures ClaimOk(cast, q) && Under(q, Current(n))
    {
      UnderTransitive(q, Current(h.node), Current(n));
    }
    assert ClaimOk(cast, Current(n));
    assert HardQueueOk(h') && StateQueueOk(h') && PersistedOk(h');
    forall p | p in h'.waiting
      ensures PledgeOk(h', p)
    {
      assert PledgeOk(h, p);
    }
  }

  /** Fields that carry no term or vote are irrelevant. */
  lemma Unaffected(h: Host, h': Host)
    requires BallotsOk(h) && Current(h'.node) == Current(h.node)
    requires h'.hardQueue == h.hardQueue && h'.stateQueue == h.stateQueue && h'.hard == h.hard && h'.saved == h.saved
    requires h'.cast == h.cast && h'.persisted == h.persisted && h'.waiting <= h.waiting
    ensures BallotsOk(h')
  {
    assert HardQueueOk(h') && StateQueueOk(h') && PersistedOk(h');
    forall p | p in h'.waiting
      ensures PledgeOk(h', p)
    {
      assert PledgeOk(h, p);
    }
  }

  lemma Pledged(h: Host, p: Pledge)
    requires BallotsOk(h) && Current(h.node) == Ballot(p.term, p.candidate) && p.candidate != NO_VOTE
    ensures BallotsOk(h.(waiting := h.waiting + {p}))
  {
    var h' := h.(waiting := h.waiting + {p});
    assert HardQueueOk(h') && StateQueueOk(h') && PersistedOk(h');
    forall q | q in h'.waiting
      ensures PledgeOk(h', q)
    {
      assert q != p ==> PledgeOk(h, q);
    }
  }

  lemma Enqueued(h: Host, p: Persist)
    requires BallotsOk(h)
    ensures BallotsOk(Enqueue(h, p))
  {
    hide PersistedOk, ClaimOk, Under;
    var h' := Enqueue(h, p);
    UnderReflexive(Current(h.node));
    assert HardQueueOk(h');
    assert StateQueueOk(h');
    assert PersistedOk(h') by { PersistedSame(h, h'); }
    forall q | q in h'.waiting
      ensures PledgeOk(h', q)
    {
      assert PledgeOk(h, q);
    }
  }

  lemma UnderReflexive(b: Ballot)
    ensures Under(b, b)
  {}

  lemma PersistedSame(h: Host, h': Host)
    requires PersistedOk(h) && h'.hard == h.hard && h'.saved == h.saved && h'.persisted == h.persisted
    ensures PersistedOk(h')
  {}

  /** A new pair reaches a file: the merge of the files moves up to it or stays. */
  lemma PersistedMoves(h: Host, header: Ballot, hard: Ballot, b: Ballot)
    requires PersistedOk(h) && ClaimOk(h.cast, h.saved.ballot) && ClaimOk(h.cast, h.hard)
    requires ClaimOk(h.cast, header) && ClaimOk(h.cast, hard)
    requires Under(h.saved.ballot, header) && Under(h.hard, hard)
    requires (b == hard && header == h.saved.ballot) || (b == header && hard == h.hard)
    ensures var m := Merge(header, hard);
      m in h.persisted + {b} && forall q | q in h.persisted + {b} :: Under(q, m)
  {
    var m0, m := Merge(h.saved.ballot, h.hard), Merge(header, hard);
    MergeSupersedes(h.cast, header, hard);
    assert Under(m0, m) by {
      UnderTransitive(h.saved.ballot, header, m);
      UnderTransitive(h.hard, hard, m);
    }
    forall q | q in h.persisted
      ensures Under(q, m)
    {
      UnderTransitive(q, m0, m);
    }
    if m != b {
      assert m == m0;
    }
  }

  lemma WroteHard(h: Host)
    requires BallotsOk(h)
    ensures BallotsOk(WriteHard(h))
  {
    var b := Current(h.node);
    var h' := WriteHard(h);
    UnderReflexive(b);
    PersistedMoves(h, h.saved.ballot, b, b);
    assert PersistedOk(h');
    assert HardQueueOk(h') && StateQueueOk(h');
    forall p | p in h'.waiting
      ensures PledgeOk(h', p)
    {
      assert PledgeOk(h, p);
    }
  }

  lemma FlushedHard(h: Host, k: nat)
    requires BallotsOk(h) && 0 < k <= |h.hardQueue|
    ensures BallotsOk(h.(hard := h.hardQueue[k - 1], hardQueue := h.hardQueue[k..],
      persisted := h.persisted + {h.hardQueue[k - 1]}))
  {
    var b := h.hardQueue[k - 1];
    var h' := h.(hard := b, hardQueue := h.hardQueue[k..], persisted := h.persisted + {b});
    UnderReflexive(h.saved.ballot);
    PersistedMoves(h, h.saved.ballot, b, b);
    assert PersistedOk(h');
    assert HardQueueOk(h') && StateQueueOk(h');
    forall p | p in h'.waiting
      ensures PledgeOk(h', p)
    {
      assert PledgeOk(h, p);
    }
  }

  lemma FlushedState(h: Host, k: nat)
    requires BallotsOk(h) && 0 < k <= |h.stateQueue|
    ensures BallotsOk(h.(saved := h.stateQueue[k - 1], stateQueue := h.stateQueue[k..],
      persisted := h.persisted + {h.stateQueue[k - 1].ballot}))
  {
    var b := h.stateQueue[k - 1].ballot;
    var h' := h.(saved := h.stateQueue[k - 1], stateQueue := h.stateQueue[k..], persisted := h.persisted + {b});
    UnderReflexive(h.hard);
    PersistedMoves(h, b, h.hard, b);
    assert PersistedOk(h');
    assert HardQueueOk(h') && StateQueueOk(h');
    forall p | p in h'.waiting
      ensures PledgeOk(h', p)
    {
      assert PledgeOk(h, p);
    }
  }

  /** A restart resumes from exactly the newest pair on disk. */
  lemma Rebooted(h: Host)
    requires BallotsOk(h)
    ensures BallotsOk(Reboot(h))
    ensures Under(h.hard, Current(Reboot(h).node))
    ensures Current(Reboot(h).node) in h.persisted
    ensures forall q | q in h.persisted :: Under(q, Current(Reboot(h).node))
  {
    MergeSupersedes(h.cast, h.saved.ballot, h.hard);
    var h' := Reboot(h);
    assert HardQueueOk(h') && StateQueueOk(h') && PersistedOk(h');
  }
}
