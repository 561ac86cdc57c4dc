/** When a step of one node keeps the invariants about acknowledged and committed
    entries: what it suffices to check about that node and its messages. */
module CommitFrames {
  import opened RaftTypes
  import opened RaftLogModel
  import opened RaftNodeModel
  import opened Collections
  import opened Cluster
  import opened RaftInvariants
  import opened RaftFrames
  import opened CommitInvariants

  ghost predicate Ext(ms: set<int>, c: Cluster, h: History) {
    Inv(ms, c, h) && Retention(ms, c, h) && Commits(ms, c, h)
  }

  // Whatever is added to the log of a term is made in that term.
  predicate OwnGrowth(h: History, h': History, term: int) {
    term in h.llog && term in h'.llog ==>
      forall k :: |h.llog[term]| <= k < |h'.llog[term]| ==> h'.llog[term][k].term == term
  }

  // The setting of all lemmas below: node i becomes n, sends out, and the history becomes h'.
  ghost predicate Transition(ms: set<int>, c: Cluster, h: History, i: int, n: Node, out: set<Message>, h': History) {
    && Ext(ms, c, h) && i in ms
    && Inv(ms, Put(c, i, n, out), h')
    && n.term >= c.nodes[i].term
    && GrowsAt(h, h', i, n.term) && OwnGrowth(h, h', n.term)
    && (n.term in h'.llog && n.term !in h.llog ==> IsLeaderOf(h', i, n.term))
    && (forall m :: m in out ==> m.from == i && m.term == n.term)
  }

  lemma PrefixGrows(h: History, h': History, s: seq<Entry>, t: int, n: int)
    requires Grows(h, h') && t in h.llog && 0 <= n < |h.llog[t]|
    ensures HasPrefix(s, h, t, n) <==> HasPrefix(s, h', t, n)
  {
    assert h.llog[t][..n + 1] == h'.llog[t][..n + 1];
  }

  // Entries added to a leader's log in term u never complete an entry of term t.
  lemma PrefixShrinks(h: History, h': History, u: int, t: int, n: int)
    requires Grows(h, h') && OwnGrowth(h, h', u) && u in h.llog && Owned(h, t, n) && t != u
    ensures HasPrefix(h'.llog[u], h', t, n) ==> HasPrefix(h.llog[u], h, t, n)
  {
    var l, l' := h.llog[u], h'.llog[u];
    PrefixGrows(h, h', l', t, n);
    if n < |l'| && l'[..n + 1] == h.llog[t][..n + 1] {
      assert l'[..n + 1][n] == l'[n];
      assert n < |l| ==> l[..n + 1] == l'[..n + 1];
    }
  }

  lemma CulpritGrows(h: History, i: int, term: int, h': History, t: int, hi: int, n: int, hi': int)
    requires GrowsAt(h, h', i, term) && OwnGrowth(h, h', term)
    requires Owned(h, t, n) && Culprit(h, t, hi, n) && hi <= hi'
    ensures Culprit(h', t, hi', n)
  {
    var u :| t < u <= hi && u in h.llog && !HasPrefix(h.llog[u], h, t, n);
    PrefixShrinks(h, h', u, t, n);
  }

  // Acknowledgements that are new after the step are node i's, in its current term.
  lemma AckedBefore(ms: set<int>, c: Cluster, h: History, i: int, n0: Node, out: set<Message>, h': History, x: int,
                    t: int, n: int)
    requires Transition(ms, c, h, i, n0, out, h')
    requires Owned(h', t, n) && Acked(Put(c, i, n0, out), h', x, t, n)
    requires x != i || t != n0.term
    ensures Owned(h, t, n) && Acked(c, h, x, t, n)
  {
    var c' := Put(c, i, n0, out);
    if exists k :: k >= n && AckMsg(x, h'.leader[t], t, k) in c'.net {
      var k :| k >= n && AckMsg(x, h'.leader[t], t, k) in c'.net;
      var m := AckMsg(x, h'.leader[t], t, k);
      assert m in c.net;
      assert MessageElection(ms, c, h, m) && AckBounded(h, m);
      assert h.llog[t] <= h'.llog[t];
    }
  }

  lemma AckedGrows(c: Cluster, h: History, c': Cluster, h': History, x: int, t: int, n: int)
    requires c.net <= c'.net && Grows(h, h') && Acked(c, h, x, t, n)
    ensures Acked(c', h', x, t, n)
  {
    if exists k :: k >= n && AckMsg(x, h.leader[t], t, k) in c.net {
      var k :| k >= n && AckMsg(x, h.leader[t], t, k) in c.net;
      assert AckMsg(x, h'.leader[t], t, k) in c'.net;
    } else {
      assert h.llog[t] <= h'.llog[t];
    }
  }

  // ---- Retention ----

  // What node i held it still holds, or the leader of its new term lacks it.
  ghost predicate LogRetained(c: Cluster, h: History, i: int, n0: Node, h': History)
    requires i in c.nodes
  {
    forall t, n {:trigger Owned(h, t, n)} ::
      Owned(h, t, n) && t < n0.term && HasPrefix(c.nodes[i].log.ents, h, t, n) ==>
        HasPrefix(n0.log.ents, h, t, n) || Culprit(h', t, n0.term, n)
  }

  // What node i has acknowledged in its current term is in its log.
  ghost predicate OwnAcksHeld(c': Cluster, h': History, i: int)
    requires i in c'.nodes
  {
    var n0 := c'.nodes[i];
    forall n {:trigger Owned(h', n0.term, n)} ::
      Owned(h', n0.term, n) && Acked(c', h', i, n0.term, n) ==> HasPrefix(n0.log.ents, h', n0.term, n)
  }

  lemma NodeHoldsStep(ms: set<int>, c: Cluster, h: History, i: int, n0: Node, out: set<Message>, h': History, x: int)
    requires Transition(ms, c, h, i, n0, out, h') && x in ms
    requires LogRetained(c, h, i, n0, h') && OwnAcksHeld(Put(c, i, n0, out), h', i)
    ensures NodeHolds(Put(c, i, n0, out), h', x)
  {
    var c' := Put(c, i, n0, out);
    forall t, n | Owned(h', t, n) && Acked(c', h', x, t, n)
      ensures HasPrefix(c'.nodes[x].log.ents, h', t, n) || Culprit(h', t, c'.nodes[x].term, n)
    {
      if x != i || t != n0.term {
        AckedBefore(ms, c, h, i, n0, out, h', x, t, n);
        assert NodeHolds(c, h, x);
        PrefixGrows(h, h', c'.nodes[x].log.ents, t, n);
        if !HasPrefix(c.nodes[x].log.ents, h, t, n) {
          CulpritGrows(h, i, n0.term, h', t, c.nodes[x].term, n, c'.nodes[x].term);
        } else if x == i {
          AckedTerm(ms, c, h, i, t, n);
        }
      }
    }
  }

  // Nobody acknowledges entries of a term above its own.
  lemma AckedTerm(ms: set<int>, c: Cluster, h: History, x: int, t: int, n: int)
    requires Inv(ms, c, h) && x in ms && Acked(c, h, x, t, n)
    ensures t <= c.nodes[x].term
  {
    assert ElectedTerm(ms, c, h, t);
    if exists k :: k >= n && AckMsg(x, h.leader[t], t, k) in c.net {
      var k :| k >= n && AckMsg(x, h.leader[t], t, k) in c.net;
      assert MessageShape(ms, c, AckMsg(x, h.leader[t], t, k));
    }
  }

  lemma VoterBackedStep(ms: set<int>, c: Cluster, h: History, i: int, n0: Node, out: set<Message>, h': History,
                        u: int, x: int)
    requires Transition(ms, c, h, i, n0, out, h') && u in h.leader
    ensures VoterBacked(Put(c, i, n0, out), h', u, x)
  {
    var c' := Put(c, i, n0, out);
    assert ElectedTerm(ms, c, h, u);
    if x in h.voters[u] {
      forall t, n | t < u && Owned(h', t, n) && Acked(c', h', x, t, n)
        ensures HasPrefix(h'.llog[u], h', t, n) || Culprit(h', t, u - 1, n)
      {
        AckedBefore(ms, c, h, i, n0, out, h', x, t, n);
        assert VoterBacked(c, h, u, x);
        if HasPrefix(h.llog[u], h, t, n) {
          PrefixGrows(h, h', h.llog[u], t, n);
          assert h'.llog[u][..n + 1] == h.llog[u][..n + 1];
        } else {
          CulpritGrows(h, i, n0.term, h', t, u - 1, n, u - 1);
        }
      }
    }
  }

  // A candidate keeps running with the log it started with, or a new term begins.
  predicate CandidateSteady(before: Node, after: Node) {
    after.role == Candidate ==>
      after.term > before.term ||
        (before.role == Candidate && after.term == before.term && after.log.ents == before.log.ents)
  }

  lemma GrantBackedStep(ms: set<int>, c: Cluster, h: History, i: int, n0: Node, out: set<Message>, h': History,
                        y: int, x: int)
    requires Transition(ms, c, h, i, n0, out, h') && y in ms && CandidateSteady(c.nodes[i], n0)
    requires y != i ==> GrantMsg(x, y, c.nodes[y].term) !in out
    requires y == i ==> GrantMsg(x, y, n0.term) !in out
    ensures GrantBacked(Put(c, i, n0, out), h', y, x)
  {
    var c' := Put(c, i, n0, out);
    var k := c'.nodes[y];
    var g := GrantMsg(x, y, k.term);
    if k.role == Candidate && g in c'.net {
      assert MessageShape(ms, c, g) && MessageElection(ms, c, h, g);
      assert GrantBacked(c, h, y, x);
      forall t, n | t < k.term && Owned(h', t, n) && Acked(c', h', x, t, n)
        ensures HasPrefix(k.log.ents, h', t, n) || Culprit(h', t, k.term, n)
      {
        AckedBefore(ms, c, h, i, n0, out, h', x, t, n);
        PrefixGrows(h, h', k.log.ents, t, n);
        if !HasPrefix(c.nodes[y].log.ents, h, t, n) {
          CulpritGrows(h, i, n0.term, h', t, k.term, n, k.term);
        }
      }
    }
  }

  lemma AckBoundedGrows(h: History, h': History, m: Message)
    requires Grows(h, h') && AckBounded(h, m)
    ensures AckBounded(h', m)
  {
    if m.term in h.llog {
      assert h.llog[m.term] <= h'.llog[m.term];
    }
  }

  // The obligations of a step about retention, gathered.
  ghost predicate RetentionDue(ms: set<int>, c: Cluster, h: History, i: int, n0: Node, out: set<Message>, h': History)
    requires i in c.nodes
  {
    var c' := Put(c, i, n0, out);
    && LogRetained(c, h, i, n0, h') && OwnAcksHeld(c', h', i)
    && CandidateSteady(c.nodes[i], n0)
    && (forall x, y, t :: GrantMsg(x, y, t) in out && y in c'.nodes ==> GrantBacked(c', h', y, x))
    && (n0.term in h'.leader && n0.term !in h.leader ==> forall x :: VoterBacked(c', h', n0.term, x))
    && (forall m :: m in out ==> AckBounded(h', m) && RequestTrue(c', m))
  }

  lemma RetentionStep(ms: set<int>, c: Cluster, h: History, i: int, n0: Node, out: set<Message>, h': History)
    requires Transition(ms, c, h, i, n0, out, h') && RetentionDue(ms, c, h, i, n0, out, h')
    ensures Retention(ms, Put(c, i, n0, out), h')
  {
    var c' := Put(c, i, n0, out);
    forall x | x in ms ensures NodeHolds(c', h', x) {
      NodeHoldsStep(ms, c, h, i, n0, out, h', x);
    }
    forall y, x | y in ms ensures GrantBacked(c', h', y, x) {
      if GrantMsg(x, y, c'.nodes[y].term) !in out {
        GrantBackedStep(ms, c, h, i, n0, out, h', y, x);
      }
    }
    forall u, x ensures VoterBacked(c', h', u, x) {
      if u in h.leader {
        VoterBackedStep(ms, c, h, i, n0, out, h', u, x);
      }
    }
    forall m | m in c'.net ensures AckBounded(h', m) && RequestTrue(c', m) {
      if m !in out {
        assert AckBounded(h, m) && RequestTrue(c, m) && MessageShape(ms, c, m);
        AckBoundedGrows(h, h', m);
        assert NodeShape(ms, i, c.nodes[i]) && NodeShape(ms, i, c'.nodes[i]);
      }
    }
  }

  // ---- Commits ----

  lemma ChosenGrows(ms: set<int>, c: Cluster, h: History, c': Cluster, h': History, t: int, n: int)
    requires c.net <= c'.net && Grows(h, h') && Chosen(ms, c, h, t, n)
    ensures Chosen(ms, c', h', t, n)
  {
    var a, a' := AckSet(ms, c, h, t, n), AckSet(ms, c', h', t, n);
    forall x | x in a ensures x in a' {
      AckedGrows(c, h, c', h', x, t, n);
    }
    SubsetSize(a, a');
    assert h.llog[t] <= h'.llog[t];
  }

  lemma CertifiedGrows(ms: set<int>, c: Cluster, h: History, c': Cluster, h': History,
                       s: seq<Entry>, s': seq<Entry>, k: int, top: int, top': int)
    requires c.net <= c'.net && Grows(h, h') && Certified(ms, c, h, s, k, top) && top <= top'
    requires k != 0 ==> 0 <= k < |s| && k < |s'| && s'[..k + 1] == s[..k + 1]
    ensures Certified(ms, c', h', s', k, top')
  {
    if k != 0 {
      var t, n :| CertifiedBy(ms, c, h, s, k, top, t, n);
      ChosenGrows(ms, c, h, c', h', t, n);
      PrefixGrows(h, h', s, t, k);
      assert CertifiedBy(ms, c', h', s', k, top', t, n);
    }
  }

  lemma CertifiedElsewhere(ms: set<int>, c: Cluster, h: History, s: seq<Entry>, s': seq<Entry>, k: int, top: int)
    requires Certified(ms, c, h, s, k, top)
    requires k != 0 ==> 0 <= k < |s| && k < |s'| && s'[..k + 1] == s[..k + 1]
    ensures Certified(ms, c, h, s', k, top)
  {
    if k != 0 {
      var t, n :| CertifiedBy(ms, c, h, s, k, top, t, n);
      assert CertifiedBy(ms, c, h, s', k, top, t, n);
    }
  }

  lemma NodeCommitStep(ms: set<int>, c: Cluster, h: History, i: int, n0: Node, out: set<Message>, h': History, j: int)
    requires Transition(ms, c, h, i, n0, out, h') && j in ms && j != i
    ensures NodeCommit(ms, Put(c, i, n0, out), h', j)
  {
    var n := c.nodes[j];
    assert NodeCommit(ms, c, h, j) && NodeShape(ms, j, n);
    CertifiedGrows(ms, c, h, Put(c, i, n0, out), h', n.log.ents, n.log.ents, n.log.committed, n.term, n.term);
  }

  lemma MessageCommitStep(ms: set<int>, c: Cluster, h: History, i: int, n0: Node, out: set<Message>, h': History,
                          m: Message)
    requires Transition(ms, c, h, i, n0, out, h') && m in c.net
    ensures MessageCommit(ms, Put(c, i, n0, out), h', m)
  {
    assert MessageCommit(ms, c, h, m);
    if m.typ == MSG_APP && m.logTerm != -1 {
      assert AppendGrounded(h, m);
      var l, l' := h.llog[m.term], h'.llog[m.term];
      assert l[..m.commit + 1] == l'[..m.commit + 1];
      CertifiedGrows(ms, c, h, Put(c, i, n0, out), h', l, l', m.commit, m.term, m.term);
    }
  }

  lemma ProgressStep(ms: set<int>, c: Cluster, h: History, i: int, n0: Node, out: set<Message>, h': History, j: int)
    requires Transition(ms, c, h, i, n0, out, h') && j in ms && j != i
    ensures ProgressTrue(Put(c, i, n0, out), h', j)
  {
    var n := c.nodes[j];
    var c' := Put(c, i, n0, out);
    if n.role == Leader {
      forall x | x in n.prs && n.prs[x].matched > 0 ensures Acked(c', h', x, n.term, n.prs[x].matched) {
        assert ProgressTrue(c, h, j);
        AckedGrows(c, h, Put(c, i, n0, out), h', x, n.term, n.prs[x].matched);
      }
    }
  }

  ghost predicate CommitsDue(ms: set<int>, c': Cluster, h': History, i: int, out: set<Message>)
    requires i in c'.nodes
  {
    && NodeCommit(ms, c', h', i)
    && ProgressTrue(c', h', i)
    && (forall m :: m in out ==> MessageCommit(ms, c', h', m))
  }

  lemma CommitsStep(ms: set<int>, c: Cluster, h: History, i: int, n0: Node, out: set<Message>, h': History)
    requires Transition(ms, c, h, i, n0, out, h') && CommitsDue(ms, Put(c, i, n0, out), h', i, out)
    ensures Commits(ms, Put(c, i, n0, out), h')
  {
    var c' := Put(c, i, n0, out);
    forall j | j in ms ensures NodeCommit(ms, c', h', j) && ProgressTrue(c', h', j) {
      if j != i {
        NodeCommitStep(ms, c, h, i, n0, out, h', j);
        ProgressStep(ms, c, h, i, n0, out, h', j);
      }
    }
    forall m | m in c'.net ensures MessageCommit(ms, c', h', m) {
      if m !in out {
        MessageCommitStep(ms, c, h, i, n0, out, h', m);
      }
    }
  }

  lemma ExtStep(ms: set<int>, c: Cluster, h: History, i: int, n0: Node, out: set<Message>, h': History)
    requires Transition(ms, c, h, i, n0, out, h')
    requires RetentionDue(ms, c, h, i, n0, out, h')
    requires CommitsDue(ms, Put(c, i, n0, out), h', i, out)
    ensures Ext(ms, Put(c, i, n0, out), h')
  {
    RetentionStep(ms, c, h, i, n0, out, h');
    CommitsStep(ms, c, h, i, n0, out, h');
  }
}
