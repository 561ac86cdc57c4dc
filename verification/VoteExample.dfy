/** A run in which a node's vote changes although its term does not. */
module VoteExample {
  import opened RaftTypes
  import opened RaftLogModel
  import opened RaftNodeModel
  import opened Cluster
  import opened AckCounterexample

  // A candidate that hears from a leader of its own term.
  lemma ConcedeAt(n: Node, m: Message)
    requires n.role == Candidate && m.typ == MSG_APP && m.term == n.term >= 1
    requires m.index == 0 && m.logTerm == 0 && m.entries == [] && m.commit == 0
    requires n.log.offset == 0 && n.log.ents != [] && n.log.ents[0].term == 0 && n.log.committed >= 0
    ensures Step(n, m).Done? && Step(n, m).node.term == n.term && Step(n, m).node.vote == NONE
  {
    var f := BecomeFollower(n, n.term, m.from);
    assert f.log.MaybeAppend(0, 0, 0, []) == Accepted(n.log);
  }

  lemma SecondNodes(w: Node, g: Node)
    requires w == Won(Candidacy(B0)) && g == Grant(C0, VoteRequest(Candidacy(B0), 3))
    ensures Elects(B0, C0, 1, w, g) && w.id == 2 && w.role == Leader && w.term == 1
    ensures w.commit == w.log.committed && 1 in w.prs
  {
    assert B0.prs.Keys == {1, 2, 3} && |B0.prs| == 3;
  }

  // Node 1 campaigns, node 2 is elected by node 3 in the same term and beats.
  lemma Rivals(ms: set<int>, w: Node, g: Node) returns (acts: seq<Action>, c: Cluster)
    requires ms == THREE && w == Won(Candidacy(B0)) && g == Grant(C0, VoteRequest(Candidacy(B0), 3))
    ensures RunsTo(ms, acts, c) && 1 in c.nodes && c.nodes[1] == Candidacy(A0) && Heartbeat(w, 1) in c.net
  {
    c := StartAt();
    acts := [];
    StartReady();
    acts, c := Campaigns(ms, acts, c, A0, B0, C0);
    SecondNodes(w, g);
    acts, c := Beats(ms, acts, c, Candidacy(A0), B0, C0, w, g);
  }

  lemma StartReady()
    ensures A0.id == 1 && A0.role == Follower && A0.term == 0 && |A0.prs| == 3 && 2 in A0.prs
  {
    assert A0.prs.Keys == {1, 2, 3};
  }

  lemma Campaigns(ms: set<int>, acts: seq<Action>, c: Cluster, n: Node, v: Node, o: Node)
      returns (acts': seq<Action>, c': Cluster)
    requires RunsTo(ms, acts, c) && At(c, n, v, o)
    requires n.id == 1 && n.role == Follower && n.term == 0 && |n.prs| == 3 && 2 in n.prs
    ensures RunsTo(ms, acts', c') && At(c', Candidacy(n), v, o)
  {
    HupAt(n, Input(Hup(1)), 2);
    acts', c' := Fire(ms, acts, c, Hup(1), 1, Candidacy(n), {});
  }

  lemma Beats(ms: set<int>, acts: seq<Action>, c: Cluster, o: Node, n: Node, v: Node, w: Node, g: Node)
      returns (acts': seq<Action>, c': Cluster)
    requires RunsTo(ms, acts, c) && At(c, o, n, v) && n.id == 2 && v.id == 3 && Elects(n, v, 1, w, g)
    requires w.id == 2 && w.role == Leader && w.term == 1 && w.commit == w.log.committed && 1 in w.prs
    ensures RunsTo(ms, acts', c') && 1 in c'.nodes && c'.nodes[1] == o && Heartbeat(w, 1) in c'.net
  {
    acts', c' := Election(ms, acts, c, n, v, 1, w, g);
    BeatAt(w, Input(Beat(2)), 1);
    acts', c' := Fire(ms, acts', c', Beat(2), 2, w, {Heartbeat(w, 1)});
  }

  /** Node 1, a candidate of term 1 with its vote on itself, has no vote in term 1 after the
      last action of the run. */
  lemma VoteClearedInTerm(ms: set<int>) returns (acts: seq<Action>)
    requires ms == THREE
    ensures acts != [] && IsRun(ms, acts) && IsRun(ms, acts[..|acts| - 1])
    ensures 1 in After(ms, acts[..|acts| - 1]).nodes && 1 in After(ms, acts).nodes
    ensures var n, n' := After(ms, acts[..|acts| - 1]).nodes[1], After(ms, acts).nodes[1];
            && n.role == Candidate && n.term == 1 && n.vote == 1
            && n'.term == 1 && n'.vote == NONE
  {
    var w, g := Won(Candidacy(B0)), Grant(C0, VoteRequest(Candidacy(B0), 3));
    var before, c := Rivals(ms, w, g);
    var m := Heartbeat(w, 1);
    SecondNodes(w, g);
    ConcedeAt(c.nodes[1], m);
    var c';
    acts, c' := Fire(ms, before, c, Receive(m), 1, Step(c.nodes[1], m).node, {});
    assert acts[..|acts| - 1] == before;
  }
}
