/** Each small step of a node keeps the invariants about acknowledged and
    committed entries. Accepting an append message is the one step that needs a
    premise: that the acknowledgement it sends is faithful. */
module CommitSteps {
  import opened RaftTypes
  import opened RaftLogModel
  import opened RaftNodeModel
  import opened Quorums
  import opened Collections
  import opened Cluster
  import opened RaftInvariants
  import opened RaftFrames
  import opened LogMatching
  import opened CommitInvariants
  import opened CommitFrames
  import opened RaftSteps

  predicate PlainMessage(m: Message) {
    m.typ == MSG_VOTE || m.typ == MSG_PROP || ((m.typ == MSG_VOTE_RESP || m.typ == MSG_APP_RESP) && m.denied)
  }

  // The logs differ at most in what has been saved and applied.
  predicate SameEntries(a: Log, b: Log) {
    a.ents == b.ents && a.committed == b.committed && a.offset == b.offset
  }

  // What node i acknowledged in its term stays in its unchanged log.
  lemma OwnAcksSame(ms: set<int>, c: Cluster, h: History, i: int, n: Node, out: set<Message>)
    requires Transition(ms, c, h, i, n, out, h) && n.log.ents == c.nodes[i].log.ents
    requires forall m :: m in out && m.typ == MSG_APP_RESP ==> m.denied
    ensures OwnAcksHeld(Put(c, i, n, out), h, i)
  {
    var c' := Put(c, i, n, out);
    forall k | Owned(h, n.term, k) && Acked(c', h, i, n.term, k)
      ensures HasPrefix(n.log.ents, h, n.term, k)
    {
      assert Acked(c, h, i, n.term, k) by {
        if exists j :: j >= k && AckMsg(i, h.leader[n.term], n.term, j) in c'.net {
          var j :| j >= k && AckMsg(i, h.leader[n.term], n.term, j) in c'.net;
          assert AckMsg(i, h.leader[n.term], n.term, j) in c.net;
        }
      }
      AckedTerm(ms, c, h, i, n.term, k);
      assert NodeHolds(c, h, i);
    }
  }

  // What a node has committed and knows of its peers stays true of it.
  lemma StillCommitted(ms: set<int>, c: Cluster, h: History, i: int, n: Node, out: set<Message>)
    requires i in c.nodes && n.term >= c.nodes[i].term && LogShape(n.log)
    requires Certified(ms, c, h, n.log.ents, n.log.committed, c.nodes[i].term)
    requires n.role == Leader ==>
               forall x :: x in n.prs && n.prs[x].matched > 0 ==> Acked(c, h, x, n.term, n.prs[x].matched)
    ensures NodeCommit(ms, Put(c, i, n, out), h, i) && ProgressTrue(Put(c, i, n, out), h, i)
  {
    var c' := Put(c, i, n, out);
    CertifiedGrows(ms, c, h, c', h, n.log.ents, n.log.ents, n.log.committed, c.nodes[i].term, n.term);
    if n.role == Leader {
      forall x | x in n.prs && n.prs[x].matched > 0 ensures Acked(c', h, x, n.term, n.prs[x].matched) {
        AckedGrows(c, h, c', h, x, n.term, n.prs[x].matched);
      }
    }
  }

  // A step that leaves the log alone, and sends neither entries nor acceptances.
  lemma QuietExt(ms: set<int>, c: Cluster, h: History, i: int, n: Node, out: set<Message>)
    requires Ext(ms, c, h) && i in ms && Inv(ms, Put(c, i, n, out), h)
    requires n.term >= c.nodes[i].term && SameEntries(c.nodes[i].log, n.log)
    requires CandidateSteady(c.nodes[i], n)
    requires n.role == Leader ==> c.nodes[i].role == Leader && n.prs == c.nodes[i].prs && n.term == c.nodes[i].term
    requires forall m :: m in out ==>
               m.from == i && m.term == n.term && PlainMessage(m) && RequestTrue(Put(c, i, n, out), m)
    ensures Ext(ms, Put(c, i, n, out), h)
  {
    assert NodeShape(ms, i, c.nodes[i]);
    OwnAcksSame(ms, c, h, i, n, out);
    assert NodeCommit(ms, c, h, i) && ProgressTrue(c, h, i);
    StillCommitted(ms, c, h, i, n, out);
    ExtStep(ms, c, h, i, n, out, h);
  }

  // A leader sends entries or heartbeats.
  lemma SentCommits(ms: set<int>, c: Cluster, h: History, i: int, out: set<Message>)
    requires Ext(ms, c, h) && i in ms && c.nodes[i].role == Leader
    requires forall m :: m in out ==> IsAppendOrBeat(c.nodes[i], m)
    ensures CommitsDue(ms, Put(c, i, c.nodes[i], out), h, i, out)
    ensures forall m :: m in out ==> m.typ == MSG_APP
  {
    var n := c.nodes[i];
    assert NodeShape(ms, i, n) && NodeElection(ms, c, h, i) && NodeCommit(ms, c, h, i) && ProgressTrue(c, h, i);
    StillCommitted(ms, c, h, i, n, out);
    forall m | m in out ensures m.typ == MSG_APP && MessageCommit(ms, Put(c, i, n, out), h, m) {
      SentCommit(ms, c, h, i, out, m);
    }
  }

  lemma SentCommit(ms: set<int>, c: Cluster, h: History, i: int, out: set<Message>, m: Message)
    requires Ext(ms, c, h) && i in ms && c.nodes[i].role == Leader && IsAppendOrBeat(c.nodes[i], m)
    requires NodeShape(ms, i, c.nodes[i]) && NodeElection(ms, c, h, i)
    requires NodeCommit(ms, Put(c, i, c.nodes[i], out), h, i)
    ensures m.typ == MSG_APP && MessageCommit(ms, Put(c, i, c.nodes[i], out), h, m)
  {
    LeaderMessageGrounded(ms, c, h, i, m);
  }

  lemma SendExt(ms: set<int>, c: Cluster, h: History, i: int, out: set<Message>)
    requires Ext(ms, c, h) && i in ms && c.nodes[i].role == Leader
    requires forall m :: m in out ==> IsAppendOrBeat(c.nodes[i], m)
    ensures Ext(ms, Put(c, i, c.nodes[i], out), h)
  {
    var n := c.nodes[i];
    SendKeeps(ms, c, h, i, out);
    assert NodeShape(ms, i, n) && NodeElection(ms, c, h, i);
    SentCommits(ms, c, h, i, out);
    OwnAcksSame(ms, c, h, i, n, out);
    ExtStep(ms, c, h, i, n, out, h);
  }

  // ---- Leading ----

  lemma LeaderAppendTransition(ms: set<int>, c: Cluster, h: History, i: int, e: Entry)
    requires Ext(ms, c, h) && i in ms && c.nodes[i].role == Leader
    ensures var n := WithEntry(c.nodes[i], e);
            && Transition(ms, c, h, i, n, {}, Extend(h, n.term, n.log.ents)) && n.term in h.leader
            && NodeShape(ms, i, c.nodes[i]) && c.nodes[i].log.ents <= n.log.ents
  {
    LeaderAppendKeeps(ms, c, h, i, e);
    assert NodeShape(ms, i, c.nodes[i]) && NodeElection(ms, c, h, i);
    WithEntryLog(ms, i, c.nodes[i], e);
    var n := WithEntry(c.nodes[i], e);
    assert GrowsAt(h, Extend(h, n.term, n.log.ents), i, n.term);
  }

  lemma LeaderAppendExt(ms: set<int>, c: Cluster, h: History, i: int, e: Entry)
    requires Ext(ms, c, h) && i in ms && c.nodes[i].role == Leader
    ensures var n := WithEntry(c.nodes[i], e);
            Ext(ms, Put(c, i, n, {}), Extend(h, n.term, n.log.ents))
  {
    var n0 := c.nodes[i];
    var n := WithEntry(n0, e);
    var h' := Extend(h, n.term, n.log.ents);
    LeaderAppendTransition(ms, c, h, i, e);
    forall t, k | Owned(h, t, k) && HasPrefix(n0.log.ents, h, t, k) ensures HasPrefix(n.log.ents, h, t, k) {
      assert n.log.ents[..k + 1] == n0.log.ents[..k + 1];
    }
    LeaderAppendCommits(ms, c, h, i, e);
    ExtStep(ms, c, h, i, n, {}, h');
  }

  lemma LeaderAppendCommits(ms: set<int>, c: Cluster, h: History, i: int, e: Entry)
    requires Ext(ms, c, h) && i in ms && c.nodes[i].role == Leader
    requires var n := WithEntry(c.nodes[i], e); Grows(h, Extend(h, n.term, n.log.ents))
    ensures var n := WithEntry(c.nodes[i], e);
            CommitsDue(ms, Put(c, i, n, {}), Extend(h, n.term, n.log.ents), i, {})
  {
    var n0 := c.nodes[i];
    var n := WithEntry(n0, e);
    var h' := Extend(h, n.term, n.log.ents);
    var c' := Put(c, i, n, {});
    assert NodeShape(ms, i, n0) && NodeElection(ms, c, h, i);
    WithEntryLog(ms, i, n0, e);
    assert NodeCommit(ms, c, h, i);
    assert n.log.ents[..n.log.committed + 1] == n0.log.ents[..n.log.committed + 1];
    CertifiedGrows(ms, c, h, c', h', n0.log.ents, n.log.ents, n.log.committed, n.term, n.term);
    forall x | x in n.prs && n.prs[x].matched > 0 ensures Acked(c', h', x, n.term, n.prs[x].matched) {
      assert ProgressTrue(c, h, i);
      if x != i {
        AckedGrows(c, h, c', h', x, n.term, n.prs[x].matched);
      }
    }
  }

  // Bookkeeping at the leader.
  lemma LeaderUpdateExt(ms: set<int>, c: Cluster, h: History, i: int, n: Node)
    requires Ext(ms, c, h) && i in ms && c.nodes[i].role == Leader && NodeShape(ms, i, n)
    requires var n0 := c.nodes[i];
             n == n0.(log := n0.log.(committed := n.log.committed), prs := n.prs, pendingConf := n.pendingConf)
    requires Certified(ms, c, h, n.log.ents, n.log.committed, n.term)
    requires forall x :: x in n.prs && n.prs[x].matched > 0 ==> Acked(c, h, x, n.term, n.prs[x].matched)
    ensures Ext(ms, Put(c, i, n, {}), h)
  {
    LeaderUpdateKeeps(ms, c, h, i, n);
    assert Put(c, i, n, {}).net == c.net;
    StillCommitted(ms, c, h, i, n, {});
    assert NodeElection(ms, c, h, i);
    ExtStep(ms, c, h, i, n, {}, h);
  }

  /** The index a leader commits is held by a majority and was made in its own term. */
  lemma CommitChosen(ms: set<int>, c: Cluster, h: History, i: int)
    requires Ext(ms, c, h) && i in ms && c.nodes[i].role == Leader && c.nodes[i].prs != map[]
    requires var n := c.nodes[i]; n.log.CanCommit(QuorumMatch(n), n.term)
    ensures var n := c.nodes[i];
            && 0 < QuorumMatch(n) <= n.log.LastIndex()
            && Chosen(ms, c, h, n.term, QuorumMatch(n))
            && Certified(ms, c, h, n.log.ents, QuorumMatch(n), n.term)
  {
    var n := c.nodes[i];
    var k := QuorumMatch(n);
    assert NodeShape(ms, i, n) && NodeElection(ms, c, h, i) && ElectedTerm(ms, c, h, n.term);
    assert ProgressTrue(c, h, i);
    var reached := Reached(MatchedIndexes(n), k);
    assert MatchedIndexes(n).Keys == ms;
    assert 0 < k <= n.log.LastIndex();
    forall x | x in reached ensures x in AckSet(ms, c, h, n.term, k) {
      AckedBelow(c, h, x, n.term, n.prs[x].matched, k);
    }
    SubsetSize(reached, AckSet(ms, c, h, n.term, k));
    assert CertifiedBy(ms, c, h, n.log.ents, k, n.term, n.term, k);
  }

  lemma AckedBelow(c: Cluster, h: History, x: int, t: int, n: int, k: int)
    requires Acked(c, h, x, t, n) && k <= n
    ensures Acked(c, h, x, t, k)
  {
    if exists j :: j >= n && AckMsg(x, h.leader[t], t, j) in c.net {
      var j :| j >= n && AckMsg(x, h.leader[t], t, j) in c.net;
      assert j >= k;
    }
  }

  // ---- Voting ----

  /** A log at least as up-to-date as a voter's holds what the voter acknowledged,
      unless a leader in between lacked it. */
  lemma UpToDateHolds(h: History, a: seq<Entry>, b: seq<Entry>, topA: int, topB: int, t: int, n: int)
    requires LeaderLogs(h) && Grounded(h, a, topA) && Grounded(h, b, topB)
    requires Owned(h, t, n) && t >= 1 && HasPrefix(a, h, t, n)
    requires var la, lb := a[|a| - 1].term, b[|b| - 1].term; lb > la || (lb == la && |b| >= |a|)
    ensures HasPrefix(b, h, t, n) || Culprit(h, t, topB, n)
  {
    assert a[..n + 1][n] == a[n] && h.llog[t][..n + 1][n] == h.llog[t][n];
    GroundedTerms(h, a, topA, n, |a| - 1);
    var last := |b| - 1;
    var u := b[last].term;
    assert EntryGrounded(h, b, last, topB);
    var l := h.llog[u];
    assert b == l[..|b|];
    if u == t {
      assert b[..n + 1] == l[..n + 1];
    } else if HasPrefix(l, h, t, n) {
      assert l[..n + 1][n] == l[n];
      assert Grounded(h, l, u);
      if last < n {
        GroundedTerms(h, l, u, last, n);
      }
      assert b[..n + 1] == l[..n + 1];
    }
  }

  lemma GrantExt(ms: set<int>, c: Cluster, h: History, i: int, m: Message)
    requires Ext(ms, c, h) && i in ms && m in c.net && m.typ == MSG_VOTE
    requires var n := c.nodes[i];
             && n.role == Follower && m.term == n.term && (n.vote == NONE || n.vote == m.from)
             && n.log.ents != [] && n.log.IsUpToDate(m.index, m.logTerm)
    ensures Ext(ms, Put(c, i, c.nodes[i].(vote := m.from), {GrantMsg(i, m.from, m.term)}), h)
  {
    var n := c.nodes[i].(vote := m.from);
    var out := {GrantMsg(i, m.from, m.term)};
    GrantKeeps(ms, c, h, i, m);
    assert NodeShape(ms, i, c.nodes[i]);
    OwnAcksSame(ms, c, h, i, n, out);
    assert NodeCommit(ms, c, h, i);
    StillCommitted(ms, c, h, i, n, out);
    GrantedBacked(ms, c, h, i, m);
    ExtStep(ms, c, h, i, n, out, h);
  }

  lemma GrantedBacked(ms: set<int>, c: Cluster, h: History, i: int, m: Message)
    requires Ext(ms, c, h) && i in ms && m in c.net && m.typ == MSG_VOTE
    requires var n := c.nodes[i];
             n.role == Follower && m.term == n.term && n.log.ents != [] && n.log.IsUpToDate(m.index, m.logTerm)
    requires Inv(ms, Put(c, i, c.nodes[i].(vote := m.from), {GrantMsg(i, m.from, m.term)}), h)
    ensures m.from in ms
    ensures GrantBacked(Put(c, i, c.nodes[i].(vote := m.from), {GrantMsg(i, m.from, m.term)}), h, m.from, i)
  {
    var n := c.nodes[i].(vote := m.from);
    var out := {GrantMsg(i, m.from, m.term)};
    var c' := Put(c, i, n, out);
    assert MessageShape(ms, c, m) && RequestTrue(c, m);
    var k := c'.nodes[m.from];
    if k.role == Candidate && k.term == m.term {
      assert NodeShape(ms, m.from, k) && NodeShape(ms, i, n);
      assert Grounded(h, n.log.ents, n.term) && Grounded(h, k.log.ents, k.term);
      forall t, j | t < k.term && Owned(h, t, j) && Acked(c', h, i, t, j)
        ensures HasPrefix(k.log.ents, h, t, j) || Culprit(h, t, k.term, j)
      {
        AckedBefore(ms, c, h, i, n, out, h, i, t, j);
        assert NodeHolds(c, h, i) && ElectedTerm(ms, c, h, t);
        if HasPrefix(n.log.ents, h, t, j) {
          UpToDateHolds(h, n.log.ents, k.log.ents, n.term, k.term, t, j);
        }
      }
    } else if k.role == Candidate {
      assert GrantBacked(c, h, m.from, i);
      GrantBackedStep(ms, c, h, i, n, out, h, m.from, i);
    }
  }

  lemma ElectTransition(ms: set<int>, c: Cluster, h: History, i: int, pending: bool)
    requires Ext(ms, c, h) && i in ms && c.nodes[i].role == Candidate
    requires IsMajority(Granted(c.nodes[i].votes), ms)
    ensures var n := c.nodes[i];
            var h' := Elect(h, n.term, i, n.log.ents, Granted(n.votes));
            && NodeShape(ms, i, n) && n.term !in h.leader
            && Transition(ms, c, h, i, LeaderNode(n, pending), {}, h')
  {
    ElectKeeps(ms, c, h, i, pending);
    assert NodeShape(ms, i, c.nodes[i]) && NodeElection(ms, c, h, i);
  }

  lemma ElectExt(ms: set<int>, c: Cluster, h: History, i: int, pending: bool)
    requires Ext(ms, c, h) && i in ms && c.nodes[i].role == Candidate
    requires IsMajority(Granted(c.nodes[i].votes), ms)
    ensures var n := c.nodes[i];
            Ext(ms, Put(c, i, LeaderNode(n, pending), {}), Elect(h, n.term, i, n.log.ents, Granted(n.votes)))
  {
    var n0 := c.nodes[i];
    var n := LeaderNode(n0, pending);
    var h' := Elect(h, n0.term, i, n0.log.ents, Granted(n0.votes));
    var c' := Put(c, i, n, {});
    ElectTransition(ms, c, h, i, pending);
    forall x ensures VoterBacked(c', h', n.term, x) {
      ElectorBacked(ms, c, h, i, n, h', x);
    }
    assert NodeCommit(ms, c, h, i);
    CertifiedGrows(ms, c, h, c', h', n.log.ents, n.log.ents, n.log.committed, n.term, n.term);
    ExtStep(ms, c, h, i, n, {}, h');
  }

  lemma ElectorBacked(ms: set<int>, c: Cluster, h: History, i: int, n: Node, h': History, x: int)
    requires Transition(ms, c, h, i, n, {}, h') && c.nodes[i].role == Candidate
    requires n.term == c.nodes[i].term && n.log == c.nodes[i].log && n.term !in h.llog
    requires h' == Elect(h, n.term, i, n.log.ents, Granted(c.nodes[i].votes))
    ensures VoterBacked(Put(c, i, n, {}), h', n.term, x)
  {
    var c' := Put(c, i, n, {});
    assert NodeElection(ms, c, h, i);
    assert NodeHolds(c, h, i) && GrantBacked(c, h, i, x);
    if x in h'.voters[n.term] {
      forall t, k | t < n.term && Owned(h', t, k) && Acked(c', h', x, t, k)
        ensures HasPrefix(h'.llog[n.term], h', t, k) || Culprit(h', t, n.term - 1, k)
      {
        AckedBefore(ms, c, h, i, n, {}, h', x, t, k);
        PrefixGrows(h, h', n.log.ents, t, k);
        if !HasPrefix(n.log.ents, h, t, k) {
          var u :| t < u <= n.term && u in h.llog && !HasPrefix(h.llog[u], h, t, k);
          assert Culprit(h, t, n.term - 1, k);
          CulpritGrows(h, i, n.term, h', t, n.term - 1, k, n.term - 1);
        }
      }
    }
  }

  // ---- Following ----

  /** The acknowledgement of a log by its last entry claims nothing that the leader
      of the term does not have: at that index, both hold an entry of the same term. */
  predicate FaithfulAck(h: History, term: int, s: seq<Entry>) {
    s != [] && term in h.llog && |s| <= |h.llog[term]| && s[|s| - 1].term == h.llog[term][|s| - 1].term
  }

  // The committed part of a log survives every append that does not panic.
  lemma AppendKeepsCommitted(log: Log, index: int, logTerm: int, k: int, es: seq<Entry>)
    requires LogShape(log)
    requires log.MaybeAppend(index, logTerm, k, es).Accepted?
    ensures var log' := log.MaybeAppend(index, logTerm, k, es).log;
            && log.committed <= log'.committed
            && log.committed < |log'.ents|
            && log'.ents[..log.committed + 1] == log.ents[..log.committed + 1]
  {
    var ci := log.FindConflict(index + 1, es);
    if ci != -1 {
      FindConflictFirst(log, index + 1, es);
      var j := ci - (index + 1);
      assert j > 0 ==> log.MatchTerm(index + 1 + (j - 1), es[j - 1].term);
      assert log.Slice(0, ci) == log.ents[..ci];
    }
  }

  lemma AcceptRetains(ms: set<int>, c: Cluster, h: History, i: int, m: Message)
    requires Ext(ms, c, h) && i in ms && m in c.net && m.typ == MSG_APP && m.to == i
    requires c.nodes[i].role == Follower && m.term == c.nodes[i].term
    requires c.nodes[i].log.MaybeAppend(m.index, m.logTerm, m.commit, m.entries).Accepted?
    ensures var log := c.nodes[i].log.MaybeAppend(m.index, m.logTerm, m.commit, m.entries).log;
            var n := Followed(c.nodes[i], m.from, log);
            && LogRetained(c, h, i, n, h)
            && (forall k {:trigger Owned(h, n.term, k)} ::
                  Owned(h, n.term, k) && Acked(c, h, i, n.term, k) ==> HasPrefix(n.log.ents, h, n.term, k))
  {
    var n0 := c.nodes[i];
    var log := n0.log.MaybeAppend(m.index, m.logTerm, m.commit, m.entries).log;
    var n := Followed(n0, m.from, log);
    assert NodeShape(ms, i, n0) && AppendGrounded(h, m) && Grounded(h, n0.log.ents, n0.term);
    forall t, k | Owned(h, t, k) && HasPrefix(n0.log.ents, h, t, k) && HasPrefix(h.llog[m.term], h, t, k)
      ensures HasPrefix(log.ents, h, t, k)
    {
      AppendRetains(h, n0.log, n0.term, m, k + 1);
    }
    forall t, k | Owned(h, t, k) && t < n.term && HasPrefix(n0.log.ents, h, t, k)
      ensures HasPrefix(log.ents, h, t, k) || Culprit(h, t, n.term, k)
    {
    }
    forall k | Owned(h, n.term, k) && Acked(c, h, i, n.term, k) ensures HasPrefix(log.ents, h, n.term, k) {
      assert NodeHolds(c, h, i);
    }
  }

  lemma AppendCertified(ms: set<int>, c: Cluster, h: History, log: Log, top: int, m: Message)
    requires LogShape(log) && Grounded(h, log.ents, top) && LeaderLogs(h) && AppendGrounded(h, m)
    requires m.typ == MSG_APP && MessageCommit(ms, c, h, m)
    requires Certified(ms, c, h, log.ents, log.committed, m.term)
    requires log.MaybeAppend(m.index, m.logTerm, m.commit, m.entries).Accepted?
    ensures var log' := log.MaybeAppend(m.index, m.logTerm, m.commit, m.entries).log;
            Certified(ms, c, h, log'.ents, log'.committed, m.term)
  {
    var log' := log.MaybeAppend(m.index, m.logTerm, m.commit, m.entries).log;
    AppendAgrees(h, log, top, m);
    AppendKeepsCommitted(log, m.index, m.logTerm, m.commit, m.entries);
    if log'.committed == log.committed {
      CertifiedElsewhere(ms, c, h, log.ents, log'.ents, log'.committed, m.term);
    } else {
      var l := h.llog[m.term];
      var hi := m.index + 1 + |m.entries|;
      ShorterPrefix(log'.ents, l, hi, m.commit + 1);
      CertifiedElsewhere(ms, c, h, l, log'.ents, log'.committed, m.term);
    }
  }

  lemma AcceptCommits(ms: set<int>, c: Cluster, h: History, i: int, m: Message)
    requires Ext(ms, c, h) && i in ms && m in c.net && m.typ == MSG_APP && m.to == i
    requires c.nodes[i].role == Follower && m.term == c.nodes[i].term
    requires c.nodes[i].log.MaybeAppend(m.index, m.logTerm, m.commit, m.entries).Accepted?
    ensures var log := c.nodes[i].log.MaybeAppend(m.index, m.logTerm, m.commit, m.entries).log;
            Certified(ms, c, h, log.ents, log.committed, m.term)
  {
    var n0 := c.nodes[i];
    assert NodeShape(ms, i, n0) && AppendGrounded(h, m) && Grounded(h, n0.log.ents, n0.term);
    assert MessageCommit(ms, c, h, m) && NodeCommit(ms, c, h, i);
    AppendCertified(ms, c, h, n0.log, n0.term, m);
  }

  lemma AcceptExt(ms: set<int>, c: Cluster, h: History, i: int, m: Message)
    requires Ext(ms, c, h) && i in ms && m in c.net && m.typ == MSG_APP && m.to == i
    requires c.nodes[i].role == Follower && m.term == c.nodes[i].term
    requires c.nodes[i].log.MaybeAppend(m.index, m.logTerm, m.commit, m.entries).Accepted?
    requires FaithfulAck(h, m.term, c.nodes[i].log.MaybeAppend(m.index, m.logTerm, m.commit, m.entries).log.ents)
    ensures var log := c.nodes[i].log.MaybeAppend(m.index, m.logTerm, m.commit, m.entries).log;
            Ext(ms, Put(c, i, Followed(c.nodes[i], m.from, log), {AckMsg(i, m.from, m.term, log.LastIndex())}), h)
  {
    var n0 := c.nodes[i];
    var log := n0.log.MaybeAppend(m.index, m.logTerm, m.commit, m.entries).log;
    var n := Followed(n0, m.from, log);
    var out := {AckMsg(i, m.from, m.term, log.LastIndex())};
    var c' := Put(c, i, n, out);
    AcceptKeeps(ms, c, h, i, m);
    assert NodeShape(ms, i, n0) && NodeShape(ms, i, c'.nodes[i]);
    AcceptRetains(ms, c, h, i, m);
    AcceptOwnAcks(ms, c, h, i, m);
    AcceptCommits(ms, c, h, i, m);
    CertifiedGrows(ms, c, h, Put(c, i, n, out), h, log.ents, log.ents, log.committed, n.term, n.term);
    ExtStep(ms, c, h, i, n, out, h);
  }

  // A log that is faithfully acknowledged is the beginning of the leader's.
  lemma AcceptedPrefix(ms: set<int>, c: Cluster, h: History, i: int, m: Message)
    requires Inv(ms, c, h) && i in ms && m in c.net && m.typ == MSG_APP && m.term == c.nodes[i].term
    requires c.nodes[i].log.MaybeAppend(m.index, m.logTerm, m.commit, m.entries).Accepted?
    requires FaithfulAck(h, m.term, c.nodes[i].log.MaybeAppend(m.index, m.logTerm, m.commit, m.entries).log.ents)
    ensures var log := c.nodes[i].log.MaybeAppend(m.index, m.logTerm, m.commit, m.entries).log;
            && NodeShape(ms, i, Followed(c.nodes[i], m.from, log)) && m.term in h.llog
            && |log.ents| <= |h.llog[m.term]| && log.ents[..|log.ents|] == h.llog[m.term][..|log.ents|]
  {
    var n := c.nodes[i];
    assert NodeShape(ms, i, n) && AppendGrounded(h, m);
    assert Grounded(h, n.log.ents, n.term) && Grounded(h, h.llog[m.term], m.term);
    AppendAgrees(h, n.log, n.term, m);
    AppendGroundsLog(h, n.log, n.term, m);
    var s := n.log.MaybeAppend(m.index, m.logTerm, m.commit, m.entries).log.ents;
    GroundedPrefix(h, s, h.llog[m.term], m.term, m.term, |s| - 1);
  }

  lemma AcceptOwnAcks(ms: set<int>, c: Cluster, h: History, i: int, m: Message)
    requires Ext(ms, c, h) && i in ms && m in c.net && m.typ == MSG_APP && m.to == i
    requires c.nodes[i].role == Follower && m.term == c.nodes[i].term
    requires c.nodes[i].log.MaybeAppend(m.index, m.logTerm, m.commit, m.entries).Accepted?
    requires FaithfulAck(h, m.term, c.nodes[i].log.MaybeAppend(m.index, m.logTerm, m.commit, m.entries).log.ents)
    ensures var log := c.nodes[i].log.MaybeAppend(m.index, m.logTerm, m.commit, m.entries).log;
            var out := {AckMsg(i, m.from, m.term, log.LastIndex())};
            OwnAcksHeld(Put(c, i, Followed(c.nodes[i], m.from, log), out), h, i)
  {
    var n0 := c.nodes[i];
    var log := n0.log.MaybeAppend(m.index, m.logTerm, m.commit, m.entries).log;
    var n := Followed(n0, m.from, log);
    var c' := Put(c, i, n, {AckMsg(i, m.from, m.term, log.LastIndex())});
    var l := h.llog[m.term];
    AcceptedPrefix(ms, c, h, i, m);
    AcceptRetains(ms, c, h, i, m);
    forall k | Owned(h, n.term, k) && Acked(c', h, i, n.term, k) ensures HasPrefix(n.log.ents, h, n.term, k) {
      AckedOrNew(ms, c, h, i, n, m.from, k);
      if k < |log.ents| {
        ShorterPrefix(log.ents, l, |log.ents|, k + 1);
      }
    }
  }

  lemma AckedOrNew(ms: set<int>, c: Cluster, h: History, i: int, n: Node, l: int, k: int)
    requires NodeShape(ms, i, n)
    requires Acked(Put(c, i, n, {AckMsg(i, l, n.term, n.log.LastIndex())}), h, i, n.term, k)
    ensures Acked(c, h, i, n.term, k) || k <= n.log.LastIndex()
  {
    var c' := Put(c, i, n, {AckMsg(i, l, n.term, n.log.LastIndex())});
    if exists j :: j >= k && AckMsg(i, h.leader[n.term], n.term, j) in c'.net {
      var j :| j >= k && AckMsg(i, h.leader[n.term], n.term, j) in c'.net;
    }
  }

  // ---- No panic on a committed entry ----

  /** What a node has committed is what the leader of its term has. */
  lemma CommittedInLeader(ms: set<int>, c: Cluster, h: History, i: int)
    requires Ext(ms, c, h) && i in ms && c.nodes[i].term in h.leader
    ensures var n := c.nodes[i];
            var l := h.llog[n.term];
            && 0 <= n.log.committed < |l| && n.log.committed < |n.log.ents|
            && l[..n.log.committed + 1] == n.log.ents[..n.log.committed + 1]
  {
    var n := c.nodes[i];
    var k := n.log.committed;
    var l := h.llog[n.term];
    assert NodeShape(ms, i, n) && NodeCommit(ms, c, h, i) && Grounded(h, l, n.term);
    if k > 0 {
      var t, j :| CertifiedBy(ms, c, h, n.log.ents, k, n.term, t, j);
      if t < n.term {
        LeaderCompleteness(ms, c, h, t, j, n.term);
        ShorterPrefix(l, h.llog[t], j + 1, k + 1);
      }
    }
  }

  lemma NoConflict(ms: set<int>, c: Cluster, h: History, i: int, m: Message)
    requires Ext(ms, c, h) && i in ms && m in c.net && m.typ == MSG_APP && m.term == c.nodes[i].term
    ensures !c.nodes[i].log.MaybeAppend(m.index, m.logTerm, m.commit, m.entries).Conflict?
  {
    var log := c.nodes[i].log;
    assert NodeShape(ms, i, c.nodes[i]) && MessageElection(ms, c, h, m);
    assert AppendGrounded(h, m) && Grounded(h, log.ents, c.nodes[i].term);
    CommittedInLeader(ms, c, h, i);
    var k := log.committed + 1;
    assert forall j :: 0 <= j < k ==> log.ents[..k][j] == log.ents[j] && h.llog[m.term][..k][j] == h.llog[m.term][j];
    if log.MatchTerm(m.index, m.logTerm) {
      ConflictPrefix(h, log, c.nodes[i].term, m);
    }
  }
}
