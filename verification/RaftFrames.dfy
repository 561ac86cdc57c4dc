/** When a step of one node keeps the cluster-wide invariants: what it suffices to
    check about that node, about the messages it sends, and about its term. */
module RaftFrames {
  import opened RaftTypes
  import opened RaftNodeModel
  import opened Cluster
  import opened RaftInvariants

  // Only the log of the term that node i leads may have grown.
  ghost predicate GrowsAt(h: History, h': History, i: int, term: int) {
    && Grows(h, h')
    && h'.leader.Keys == h'.llog.Keys == h'.voters.Keys
    && (forall t :: t in h'.llog && t != term ==> t in h.llog && h'.llog[t] == h.llog[t])
    && (term in h.llog && term in h'.llog ==> h'.llog[term] == h.llog[term] || IsLeaderOf(h, i, term))
  }

  lemma ShapeStep(ms: set<int>, c: Cluster, i: int, n: Node, out: set<Message>)
    requires Shape(ms, c) && i in ms
    requires NodeShape(ms, i, n) && n.term >= c.nodes[i].term
    requires forall m :: m in out ==> MessageShape(ms, Put(c, i, n, out), m)
    ensures Shape(ms, Put(c, i, n, out))
  {
    var c' := Put(c, i, n, out);
    forall m | m in c'.net ensures MessageShape(ms, c', m) {
      if m !in out {
        assert MessageShape(ms, c, m);
      }
    }
  }

  // The grants node i sends: at most one per term, by a follower that keeps its vote.
  ghost predicate GrantsStep(c: Cluster, h: History, i: int, n: Node, out: set<Message>)
    requires i in c.nodes
  {
    var n0 := c.nodes[i];
    && (forall x, y, t :: GrantMsg(x, y, t) in out ==>
          && x == i && t == n.term && n.role == Follower && n.vote == y
          && !IsLeaderOf(h, i, t))
    && (n.term == n0.term ==>
          && (n0.role == Leader ==> n.role == Leader || Retired(n, n0.log.ents, n.term))
          && (n0.role == Follower && IsLeaderOf(h, i, n.term) ==> n.role == Follower && n.log.ents == n0.log.ents)
          && (n0.role == Follower && n0.vote != NONE ==> n.role == Follower && n.vote == n0.vote))
  }

  lemma GrantsFixedStep(ms: set<int>, c: Cluster, h: History, i: int, n: Node, out: set<Message>, h': History)
    requires Elections(ms, c, h) && i in ms
    requires n.term >= c.nodes[i].term && GrantsStep(c, h', i, n, out)
    ensures GrantsFixed(ms, Put(c, i, n, out))
  {
    var c' := Put(c, i, n, out);
    forall x, y, t | x in ms && GrantMsg(x, y, t) in c'.net && c'.nodes[x].term == t
      ensures c'.nodes[x].role == Follower && c'.nodes[x].vote == y
    {
      if GrantMsg(x, y, t) !in out {
        assert MessageShape(ms, c, GrantMsg(x, y, t));
      }
    }
    forall x, y, z, t | GrantMsg(x, y, t) in c'.net && GrantMsg(x, z, t) in c'.net ensures y == z {
      if GrantMsg(x, y, t) in out || GrantMsg(x, z, t) in out {
        assert x == i && t == n.term;
      }
    }
  }

  lemma ElectedTermStep(ms: set<int>, c: Cluster, h: History, i: int, n: Node, out: set<Message>, h': History, t: int)
    requires Elections(ms, c, h) && i in ms && t in h.leader
    requires n.term >= c.nodes[i].term && GrantsStep(c, h', i, n, out) && GrowsAt(h, h', i, n.term)
    requires n.role != Leader ==> h' == h
    ensures ElectedTerm(ms, Put(c, i, n, out), h', t)
  {
    var c' := Put(c, i, n, out);
    var l := h.leader[t];
    assert ElectedTerm(ms, c, h, t);
    assert NodeElection(ms, c, h, i);
    forall y ensures GrantMsg(l, y, t) !in c'.net {
      assert GrantMsg(l, y, t) !in c.net;
    }
    forall x | x in h'.voters[t]
      ensures c'.nodes[x].term >= t && (x == l || GrantMsg(x, l, t) in c'.net)
    {
      assert x in h.voters[t];
    }
  }

  lemma NodeElectionStep(ms: set<int>, c: Cluster, h: History, i: int, n: Node, out: set<Message>, h': History, j: int)
    requires Elections(ms, c, h) && i in ms && j in ms && j != i
    requires GrowsAt(h, h', i, n.term)
    ensures NodeElection(ms, Put(c, i, n, out), h', j)
  {
    assert NodeElection(ms, c, h, j);
  }

  lemma MessageElectionStep(ms: set<int>, c: Cluster, h: History, i: int, n: Node, out: set<Message>, h': History,
                            m: Message)
    requires Elections(ms, c, h) && i in ms && m in c.net
    requires n.term >= c.nodes[i].term && Grows(h, h')
    ensures MessageElection(ms, Put(c, i, n, out), h', m)
  {
    assert MessageShape(ms, c, m) && MessageElection(ms, c, h, m);
  }

  lemma ElectionsStep(ms: set<int>, c: Cluster, h: History, i: int, n: Node, out: set<Message>, h': History)
    requires Elections(ms, c, h) && i in ms
    requires Shape(ms, Put(c, i, n, out)) && n.term >= c.nodes[i].term
    requires GrowsAt(h, h', i, n.term) && GrantsStep(c, h', i, n, out) && (n.role != Leader ==> h' == h)
    requires n.term in h'.leader && n.term !in h.leader ==> ElectedTerm(ms, Put(c, i, n, out), h', n.term)
    requires NodeElection(ms, Put(c, i, n, out), h', i)
    requires forall m :: m in out ==> MessageElection(ms, Put(c, i, n, out), h', m)
    ensures Elections(ms, Put(c, i, n, out), h')
  {
    var c' := Put(c, i, n, out);
    forall t | t in h'.leader ensures ElectedTerm(ms, c', h', t) {
      if t in h.leader {
        ElectedTermStep(ms, c, h, i, n, out, h', t);
      }
    }
    forall j | j in ms ensures NodeElection(ms, c', h', j) {
      if j != i {
        NodeElectionStep(ms, c, h, i, n, out, h', j);
      }
    }
    forall m | m in c'.net ensures MessageElection(ms, c', h', m) {
      if m !in out {
        MessageElectionStep(ms, c, h, i, n, out, h', m);
      }
    }
    GrantsFixedStep(ms, c, h, i, n, out, h');
  }

  lemma AppendGrows(h: History, h': History, m: Message)
    requires Grows(h, h') && AppendGrounded(h, m)
    ensures AppendGrounded(h', m)
  {
    var l, l' := h.llog[m.term], h'.llog[m.term];
    if m.logTerm != -1 {
      var hi := m.index + 1 + |m.entries|;
      assert l[m.index + 1..hi] == l'[m.index + 1..hi];
    }
  }

  lemma LogsStep(ms: set<int>, c: Cluster, h: History, i: int, n: Node, out: set<Message>, h': History)
    requires Inv(ms, c, h) && i in ms
    requires n.term >= c.nodes[i].term && GrowsAt(h, h', i, n.term)
    requires Grounded(h', n.log.ents, n.term)
    requires n.term in h'.llog ==> Grounded(h', h'.llog[n.term], n.term)
    requires forall m :: m in out && m.typ == MSG_APP ==> AppendGrounded(h', m)
    ensures Logs(ms, Put(c, i, n, out), h')
  {
    var c' := Put(c, i, n, out);
    forall t | t in h'.llog ensures Grounded(h', h'.llog[t], t) {
      if t != n.term {
        GroundedGrows(h, h', h.llog[t], t, t);
      }
    }
    forall j | j in ms ensures Grounded(h', c'.nodes[j].log.ents, c'.nodes[j].term) {
      if j != i {
        GroundedGrows(h, h', c.nodes[j].log.ents, c.nodes[j].term, c.nodes[j].term);
      }
    }
    forall m | m in c'.net && m.typ == MSG_APP ensures AppendGrounded(h', m) {
      if m !in out {
        AppendGrows(h, h', m);
      }
    }
  }

  // A step that leaves the history and the node's log alone.
  lemma PlainStep(ms: set<int>, c: Cluster, h: History, i: int, n: Node, out: set<Message>)
    requires Inv(ms, c, h) && i in ms
    requires NodeShape(ms, i, n) && n.term >= c.nodes[i].term && n.log.ents == c.nodes[i].log.ents
    requires GrantsStep(c, h, i, n, out)
    requires NodeElection(ms, Put(c, i, n, out), h, i)
    requires forall m :: m in out ==>
               && MessageShape(ms, Put(c, i, n, out), m)
               && MessageElection(ms, Put(c, i, n, out), h, m)
               && (m.typ == MSG_APP ==> AppendGrounded(h, m))
    ensures Inv(ms, Put(c, i, n, out), h)
  {
    ShapeStep(ms, c, i, n, out);
    ElectionsStep(ms, c, h, i, n, out, h);
    GroundedGrows(h, h, c.nodes[i].log.ents, c.nodes[i].term, n.term);
    LogsStep(ms, c, h, i, n, out, h);
  }
}
