/** Every action of a run keeps the invariants: the handlers of `Step`, composed
    from the small steps. `faithful` says whether the invariants about commits are
    carried along; those need every acknowledgement to be faithful. */
module RaftSafetySteps {
  import opened RaftTypes
  import opened RaftLogModel
  import opened RaftNodeModel
  import opened Quorums
  import opened Cluster
  import opened RaftInvariants
  import opened RaftFrames
  import opened RaftSteps
  import opened CommitInvariants
  import opened CommitFrames
  import opened CommitSteps

  ghost predicate Good(ms: set<int>, c: Cluster, h: History, faithful: bool) {
    Inv(ms, c, h) && (faithful ==> Ext(ms, c, h))
  }

  lemma PutTwice(c: Cluster, i: int, n1: Node, out1: set<Message>, n2: Node, out2: set<Message>)
    ensures Put(Put(c, i, n1, out1), i, n2, out2) == Put(c, i, n2, out1 + out2)
  {
  }

  lemma PutAfter(c: Cluster, i: int, n1: Node, n2: Node, out: set<Message>)
    ensures Put(Put(c, i, n1, {}), i, n2, out) == Put(c, i, n2, out)
  {
    assert {} + out == out;
    PutTwice(c, i, n1, {}, n2, out);
  }

  // ---- Small steps, with or without the commit invariants ----

  lemma QuietGood(ms: set<int>, c: Cluster, h: History, i: int, n: Node, out: set<Message>, faithful: bool)
    requires Good(ms, c, h, faithful) && i in ms && Inv(ms, Put(c, i, n, out), h)
    requires n.term >= c.nodes[i].term && SameEntries(c.nodes[i].log, n.log)
    requires CandidateSteady(c.nodes[i], n)
    requires n.role == Leader ==> c.nodes[i].role == Leader && n.prs == c.nodes[i].prs && n.term == c.nodes[i].term
    requires forall m :: m in out ==>
               m.from == i && m.term == n.term && PlainMessage(m) && RequestTrue(Put(c, i, n, out), m)
    ensures Good(ms, Put(c, i, n, out), h, faithful)
  {
    if faithful {
      QuietExt(ms, c, h, i, n, out);
    }
  }

  lemma FollowGood(ms: set<int>, c: Cluster, h: History, i: int, term: int, lead: int, faithful: bool)
    requires Good(ms, c, h, faithful) && i in ms
    requires term > c.nodes[i].term || (term == c.nodes[i].term && c.nodes[i].role == Candidate)
    requires lead != NONE ==> IsLeaderOf(h, lead, term)
    ensures Good(ms, Put(c, i, BecomeFollower(c.nodes[i], term, lead), {}), h, faithful)
  {
    FollowKeeps(ms, c, h, i, term, lead);
    QuietGood(ms, c, h, i, BecomeFollower(c.nodes[i], term, lead), {}, faithful);
  }

  lemma ReplyGood(ms: set<int>, c: Cluster, h: History, i: int, m: Message, faithful: bool)
    requires Good(ms, c, h, faithful) && i in ms
    requires m == Stamp(c.nodes[i], m) && m.term >= 1 && m.to in ms
    requires m.typ == MSG_PROP || ((m.typ == MSG_VOTE_RESP || m.typ == MSG_APP_RESP) && m.denied)
    requires MessageElection(ms, c, h, m) && (m.typ == MSG_APP_RESP ==> m.to != i)
    ensures Good(ms, Put(c, i, c.nodes[i], {m}), h, faithful)
  {
    ReplyKeeps(ms, c, h, i, m);
    assert NodeShape(ms, i, c.nodes[i]);
    QuietGood(ms, c, h, i, c.nodes[i], {m}, faithful);
  }

  lemma SendGood(ms: set<int>, c: Cluster, h: History, i: int, out: set<Message>, faithful: bool)
    requires Good(ms, c, h, faithful) && i in ms && c.nodes[i].role == Leader
    requires forall m :: m in out ==> IsAppendOrBeat(c.nodes[i], m)
    ensures Good(ms, Put(c, i, c.nodes[i], out), h, faithful)
  {
    SendKeeps(ms, c, h, i, out);
    if faithful {
      SendExt(ms, c, h, i, out);
    }
  }

  lemma CandidateGood(ms: set<int>, c: Cluster, h: History, i: int, faithful: bool)
    requires Good(ms, c, h, faithful) && i in ms && c.nodes[i].role != Leader
    ensures var n := BecomeCandidate(c.nodes[i]).(votes := map[i := true]);
            Good(ms, Put(c, i, n, RequestVotes(n).out), h, faithful)
  {
    CandidateKeeps(ms, c, h, i);
    var n := BecomeCandidate(c.nodes[i]).(votes := map[i := true]);
    var out := RequestVotes(n).out;
    assert NodeShape(ms, i, c.nodes[i]);
    forall m | m in out ensures m.from == i && m.term == n.term && PlainMessage(m) &&
      RequestTrue(Put(c, i, n, out), m) {
      var to :| to in Peers(n) && m == VoteRequest(n, to);
    }
    QuietGood(ms, c, h, i, n, out, faithful);
  }

  lemma PollGood(ms: set<int>, c: Cluster, h: History, i: int, x: int, v: bool, faithful: bool)
    requires Good(ms, c, h, faithful) && i in ms && x in ms && c.nodes[i].role == Candidate
    requires v ==> GrantMsg(x, i, c.nodes[i].term) in c.net
    ensures var n := c.nodes[i];
            Good(ms, Put(c, i, n.(votes := Poll(n.votes, x, v)), {}), h, faithful)
  {
    PollKeeps(ms, c, h, i, x, v);
    QuietGood(ms, c, h, i, c.nodes[i].(votes := Poll(c.nodes[i].votes, x, v)), {}, faithful);
  }

  // ---- The leader ----

  lemma LeaderUpdateGood(ms: set<int>, c: Cluster, h: History, i: int, n: Node, faithful: bool)
    requires Good(ms, c, h, faithful) && i in ms && c.nodes[i].role == Leader && NodeShape(ms, i, n)
    requires n == c.nodes[i].(prs := n.prs, pendingConf := n.pendingConf)
    requires faithful ==> forall x :: x in n.prs && n.prs[x].matched > 0 ==> Acked(c, h, x, n.term, n.prs[x].matched)
    ensures Good(ms, Put(c, i, n, {}), h, faithful)
  {
    LeaderUpdateKeeps(ms, c, h, i, n);
    if faithful {
      assert NodeCommit(ms, c, h, i);
      LeaderUpdateExt(ms, c, h, i, n);
    }
  }

  lemma MaybeCommitGood(ms: set<int>, c: Cluster, h: History, i: int, faithful: bool)
    requires Good(ms, c, h, faithful) && i in ms && c.nodes[i].role == Leader && c.nodes[i].prs != map[]
    ensures Good(ms, Put(c, i, MaybeCommit(c.nodes[i]), {}), h, faithful)
    ensures NodeShape(ms, i, MaybeCommit(c.nodes[i]))
  {
    var n := c.nodes[i];
    assert NodeShape(ms, i, n) && NodeElection(ms, c, h, i) && ElectedTerm(ms, c, h, n.term);
    LeaderUpdateKeeps(ms, c, h, i, MaybeCommit(n));
    if faithful {
      assert NodeCommit(ms, c, h, i) && ProgressTrue(c, h, i);
      if n.log.CanCommit(QuorumMatch(n), n.term) {
        CommitChosen(ms, c, h, i);
      }
      LeaderUpdateExt(ms, c, h, i, MaybeCommit(n));
    }
  }

  lemma AppendEntryGood(ms: set<int>, c: Cluster, h: History, i: int, e: Entry, faithful: bool)
    requires Good(ms, c, h, faithful) && i in ms && c.nodes[i].role == Leader && i in c.nodes[i].prs &&
             c.nodes[i].id == i
    ensures var n := AppendEntry(c.nodes[i], e);
            Good(ms, Put(c, i, n, {}), Extend(h, n.term, n.log.ents), faithful)
    ensures Grows(h, Extend(h, c.nodes[i].term, AppendEntry(c.nodes[i], e).log.ents))
  {
    var n0 := c.nodes[i];
    var n1 := WithEntry(n0, e);
    var h' := Extend(h, n1.term, n1.log.ents);
    assert NodeShape(ms, i, n0) && NodeElection(ms, c, h, i);
    WithEntryLog(ms, i, n0, e);
    LeaderAppendKeeps(ms, c, h, i, e);
    if faithful {
      LeaderAppendExt(ms, c, h, i, e);
    }
    assert i in n1.prs;
    MaybeCommitGood(ms, Put(c, i, n1, {}), h', i, faithful);
    PutAfter(c, i, n1, MaybeCommit(n1), {});
  }

  lemma BcastGood(ms: set<int>, c: Cluster, h: History, i: int, faithful: bool)
    requires Good(ms, c, h, faithful) && i in ms && c.nodes[i].role == Leader
    requires BcastAppend(c.nodes[i]).Done?
    ensures Good(ms, Put(c, i, c.nodes[i], BcastAppend(c.nodes[i]).out), h, faithful)
  {
    var n := c.nodes[i];
    assert NodeShape(ms, i, n);
    forall m | m in BcastAppend(n).out ensures IsAppendOrBeat(n, m) {
      var to :| to in Peers(n) && m == AppendMessage(n, to);
    }
    SendGood(ms, c, h, i, BcastAppend(n).out, faithful);
  }

  // c' is what the outcome o of node i handling m leaves.
  ghost predicate GoodAfter(ms: set<int>, c: Cluster, h: History, i: int, m: Message, o: Outcome, faithful: bool)
    requires i in c.nodes
  {
    o.Done? ==>
      && Good(ms, Put(c, i, o.node, o.out), Record(h, c.nodes[i], m, o.node), faithful)
      && Grows(h, Record(h, c.nodes[i], m, o.node))
  }

  lemma LeaderBeatGood(ms: set<int>, c: Cluster, h: History, i: int, m: Message, faithful: bool)
    requires Good(ms, c, h, faithful) && i in ms && c.nodes[i].role == Leader
    ensures GoodAfter(ms, c, h, i, m, BcastHeartbeat(c.nodes[i]), faithful)
  {
    var n := c.nodes[i];
    assert NodeElection(ms, c, h, i);
    forall b | b in BcastHeartbeat(n).out ensures IsAppendOrBeat(n, b) {
      var to :| to in Peers(n) && b == Heartbeat(n, to);
    }
    SendGood(ms, c, h, i, BcastHeartbeat(n).out, faithful);
    SameHistory(h, n);
  }

  lemma SameHistory(h: History, n: Node)
    requires n.term in h.llog && h.llog[n.term] == n.log.ents
    ensures Extend(h, n.term, n.log.ents) == h
  {
  }

  lemma LeaderProposalGood(ms: set<int>, c: Cluster, h: History, i: int, m: Message, faithful: bool)
    requires Good(ms, c, h, faithful) && i in ms && c.nodes[i].role == Leader
    ensures GoodAfter(ms, c, h, i, m, LeaderProposal(c.nodes[i], m), faithful)
  {
    var n := c.nodes[i];
    var o := LeaderProposal(n, m);
    assert NodeShape(ms, i, n) && NodeElection(ms, c, h, i);
    SameHistory(h, n);
    if o.Done? {
      var e := m.entries[0];
      if e.typ == ENTRY_CONF_CHANGE && n.pendingConf {
        assert Put(c, i, n, {}) == c;
      } else {
        var n1 := n.(pendingConf := n.pendingConf || e.typ == ENTRY_CONF_CHANGE);
        assert faithful ==> ProgressTrue(c, h, i);
        LeaderUpdateGood(ms, c, h, i, n1, faithful);
        var c1 := Put(c, i, n1, {});
        AppendEntryGood(ms, c1, h, i, e, faithful);
        var n2 := AppendEntry(n1, e);
        PutAfter(c, i, n1, n2, {});
        var c2 := Put(c, i, n2, {});
        BcastGood(ms, c2, Extend(h, n2.term, n2.log.ents), i, faithful);
        PutAfter(c, i, n2, n2, o.out);
      }
    }
  }

  lemma LeaderAckGood(ms: set<int>, c: Cluster, h: History, i: int, m: Message, faithful: bool)
    requires Good(ms, c, h, faithful) && i in ms && c.nodes[i].role == Leader
    requires m in c.net && m.typ == MSG_APP_RESP && m.to == i && m.term == c.nodes[i].term
    ensures GoodAfter(ms, c, h, i, m, LeaderAck(c.nodes[i], m), faithful)
  {
    var n := c.nodes[i];
    var o := LeaderAck(n, m);
    assert NodeShape(ms, i, n) && NodeElection(ms, c, h, i) && MessageShape(ms, c, m);
    SameHistory(h, n);
    var pr := if m.denied then n.prs[m.from].Decr() else Updated(m.index);
    var u := n.(prs := n.prs[m.from := pr]);
    if faithful {
      assert ProgressTrue(c, h, i);
      assert !m.denied ==> AckMsg(m.from, h.leader[n.term], n.term, m.index) in c.net;
    }
    LeaderUpdateGood(ms, c, h, i, u, faithful);
    var c1 := Put(c, i, u, {});
    if m.denied {
      if o.Done? {
        assert o == SendAppend(u, m.from);
        AckedSend(ms, c1, h, i, m.from, faithful);
        PutAfter(c, i, u, u, o.out);
      }
    } else {
      assert m.from in u.prs;
      if u.log.CanCommit(QuorumMatch(u), u.term) && o.Done? {
        MaybeCommitGood(ms, c1, h, i, faithful);
        var v := MaybeCommit(u);
        PutAfter(c, i, u, v, {});
        BcastGood(ms, Put(c, i, v, {}), h, i, faithful);
        PutAfter(c, i, v, v, o.out);
      }
    }
  }

  // A leader probes one peer.
  lemma AckedSend(ms: set<int>, c: Cluster, h: History, i: int, to: int, faithful: bool)
    requires Good(ms, c, h, faithful) && i in ms && c.nodes[i].role == Leader
    requires to in c.nodes[i].prs && to != i && SendAppend(c.nodes[i], to).Done?
    ensures Good(ms, Put(c, i, c.nodes[i], SendAppend(c.nodes[i], to).out), h, faithful)
  {
    assert NodeShape(ms, i, c.nodes[i]);
    SendGood(ms, c, h, i, {AppendMessage(c.nodes[i], to)}, faithful);
  }

  // ---- The candidate ----

  // A candidate whose granted votes reach the quorum becomes leader and appends an empty entry.
  lemma WinGood(ms: set<int>, c: Cluster, h: History, i: int, faithful: bool)
    requires Good(ms, c, h, faithful) && i in ms && c.nodes[i].role == Candidate
    requires Q(c.nodes[i]) == |Granted(c.nodes[i].votes)|
    requires BecomeLeader(c.nodes[i]).Done?
    ensures var n := c.nodes[i];
            var l := BecomeLeader(n).node;
            && l.role == Leader && l.term == n.term && l.id == i
            && Good(ms, Put(c, i, l, {}), Elect(h, n.term, i, l.log.ents, Granted(n.votes)), faithful)
            && Grows(h, Elect(h, n.term, i, l.log.ents, Granted(n.votes)))
  {
    var n := c.nodes[i];
    MajorityGranted(ms, c, h, i);
    var pending := Winner(n);
    var l0 := LeaderNode(n, pending);
    var h0 := Elect(h, n.term, i, n.log.ents, Granted(n.votes));
    ElectGood(ms, c, h, i, pending, faithful);
    AppendEntryGood(ms, Put(c, i, l0, {}), h0, i, DUMMY_ENTRY, faithful);
    var l := AppendEntry(l0, DUMMY_ENTRY);
    PutAfter(c, i, l0, l, {});
    ElectExtend(h, n.term, i, n.log.ents, l.log.ents, Granted(n.votes));
  }

  lemma ElectGood(ms: set<int>, c: Cluster, h: History, i: int, pending: bool, faithful: bool)
    requires Good(ms, c, h, faithful) && i in ms && c.nodes[i].role == Candidate
    requires IsMajority(Granted(c.nodes[i].votes), ms)
    ensures var n := c.nodes[i];
            var h' := Elect(h, n.term, i, n.log.ents, Granted(n.votes));
            n.term !in h.leader && Good(ms, Put(c, i, LeaderNode(n, pending), {}), h', faithful)
  {
    ElectKeeps(ms, c, h, i, pending);
    if faithful {
      ElectExt(ms, c, h, i, pending);
    }
  }

  lemma Winner(n: Node) returns (pending: bool)
    requires BecomeLeader(n).Done?
    ensures n.id in n.prs
    ensures var l := AppendEntry(LeaderNode(n, pending), DUMMY_ENTRY);
            BecomeLeader(n) == Done(l, {}) && l.role == Leader && l.term == n.term && l.id == n.id
  {
    pending := ConfChanges(n.log.Slice(n.log.committed + 1, n.log.LastIndex() + 1)) == 1;
  }

  lemma ElectExtend(h: History, t: int, i: int, s: seq<Entry>, s': seq<Entry>, voters: set<int>)
    ensures Extend(Elect(h, t, i, s, voters), t, s') == Elect(h, t, i, s', voters)
  {
  }

  lemma MajorityGranted(ms: set<int>, c: Cluster, h: History, i: int)
    requires Inv(ms, c, h) && i in ms && c.nodes[i].role == Candidate
    requires Q(c.nodes[i]) == |Granted(c.nodes[i].votes)|
    ensures IsMajority(Granted(c.nodes[i].votes), ms)
    ensures c.nodes[i].id == i && i in c.nodes[i].prs
  {
    var n := c.nodes[i];
    assert NodeShape(ms, i, n) && NodeElection(ms, c, h, i);
    assert |n.prs| == |n.prs.Keys|;
  }

  lemma WinBcastGood(ms: set<int>, c: Cluster, h: History, i: int, faithful: bool)
    requires Good(ms, c, h, faithful) && i in ms && c.nodes[i].role == Candidate
    requires Q(c.nodes[i]) == |Granted(c.nodes[i].votes)|
    requires BecomeLeader(c.nodes[i]).Done? && BcastAppend(BecomeLeader(c.nodes[i]).node).Done?
    ensures var n := c.nodes[i];
            var o := BcastAppend(BecomeLeader(n).node);
            var h' := Elect(h, n.term, i, o.node.log.ents, Granted(n.votes));
            && o.node.role == Leader && o.node.term == n.term && o.node.id == i
            && Good(ms, Put(c, i, o.node, o.out), h', faithful) && Grows(h, h')
  {
    var n := c.nodes[i];
    WinGood(ms, c, h, i, faithful);
    var l := BecomeLeader(n).node;
    BcastGood(ms, Put(c, i, l, {}), Elect(h, n.term, i, l.log.ents, Granted(n.votes)), i, faithful);
    PutAfter(c, i, l, l, BcastAppend(l).out);
  }

  lemma CandidatePollGood(ms: set<int>, c: Cluster, h: History, i: int, m: Message, faithful: bool)
    requires Good(ms, c, h, faithful) && i in ms && c.nodes[i].role == Candidate
    requires m in c.net && m.typ == MSG_VOTE_RESP && m.to == i && m.term == c.nodes[i].term
    ensures GoodAfter(ms, c, h, i, m, CandidatePoll(c.nodes[i], m), faithful)
  {
    var n := c.nodes[i];
    var o := CandidatePoll(n, m);
    assert MessageShape(ms, c, m) && NodeShape(ms, i, n);
    var n1 := n.(votes := Poll(n.votes, m.from, !m.denied));
    PollGood(ms, c, h, i, m.from, !m.denied, faithful);
    var c1 := Put(c, i, n1, {});
    var granted := |Granted(n1.votes)|;
    if Q(n1) == granted {
      if o.Done? {
        PollWins(ms, c, h, i, m, n1, faithful);
      }
    } else if Q(n1) == |n1.votes| - granted {
      FollowGood(ms, c1, h, i, n.term, NONE, faithful);
      PutAfter(c, i, n1, BecomeFollower(n1, n1.term, NONE), {});
    }
  }

  lemma PollWins(ms: set<int>, c: Cluster, h: History, i: int, m: Message, n1: Node, faithful: bool)
    requires i in ms && i in c.nodes && c.nodes[i].role == Candidate && m.typ == MSG_VOTE_RESP
    requires n1 == c.nodes[i].(votes := Poll(c.nodes[i].votes, m.from, !m.denied))
    requires Good(ms, Put(c, i, n1, {}), h, faithful) && Q(n1) == |Granted(n1.votes)|
    requires BecomeLeader(n1).Done? && BcastAppend(BecomeLeader(n1).node).Done?
    ensures GoodAfter(ms, c, h, i, m, BcastAppend(BecomeLeader(n1).node), faithful)
  {
    var o := BcastAppend(BecomeLeader(n1).node);
    WinBcastGood(ms, Put(c, i, n1, {}), h, i, faithful);
    PutAfter(c, i, n1, o.node, o.out);
  }

  function Campaigner(n: Node): Node { BecomeCandidate(n).(votes := map[n.id := true]) }

  lemma CampaignCases(n: Node)
    ensures n.role == Leader ==> Campaign(n).Panics?
    ensures var n1 := Campaigner(n);
            && Granted(n1.votes) == {n.id}
            && (n.role != Leader && Q(n1) != 1 ==> Campaign(n) == RequestVotes(n1))
            && (n.role != Leader && Q(n1) == 1 ==>
                  var l := BecomeLeader(n1);
                  Campaign(n) == if l.Panics? then l else RequestVotes(l.node))
  {
    assert Poll(map[], n.id, true) == map[n.id := true];
    assert Granted(map[n.id := true]) == {n.id};
  }

  lemma CampaignGood(ms: set<int>, c: Cluster, h: History, i: int, m: Message, faithful: bool)
    requires Good(ms, c, h, faithful) && i in ms && m.typ == MSG_HUP
    ensures GoodAfter(ms, c, h, i, m, Campaign(c.nodes[i]), faithful)
  {
    var n := c.nodes[i];
    var o := Campaign(n);
    CampaignCases(n);
    if o.Done? {
      CandidateGood(ms, c, h, i, faithful);
      assert NodeShape(ms, i, n);
      var n1 := Campaigner(n);
      if Q(n1) == 1 {
        CampaignAlone(ms, c, h, i, m, n1, faithful);
      } else {
        assert o.node == n1 && Record(h, n, m, n1) == h;
      }
    }
  }

  lemma CampaignAlone(ms: set<int>, c: Cluster, h: History, i: int, m: Message, n1: Node, faithful: bool)
    requires Inv(ms, c, h) && i in ms && c.nodes[i].role != Leader && m.typ == MSG_HUP
    requires n1 == Campaigner(c.nodes[i]) && Q(n1) == 1 && Granted(n1.votes) == {i} && BecomeLeader(n1).Done?
    requires Good(ms, Put(c, i, n1, RequestVotes(n1).out), h, faithful)
    ensures GoodAfter(ms, c, h, i, m, RequestVotes(BecomeLeader(n1).node), faithful)
  {
    var n := c.nodes[i];
    assert NodeShape(ms, i, n);
    ResetShape(ms, i, n, n.term + 1);
    LonePeers(ms, i, n1);
    LoneWinGood(ms, c, h, i, n1, faithful);
    var l := BecomeLeader(n1).node;
    assert Record(h, n, m, l) == Elect(h, l.term, i, l.log.ents, {i});
  }

  lemma LoneWinGood(ms: set<int>, c: Cluster, h: History, i: int, n1: Node, faithful: bool)
    requires i in ms && n1.role == Candidate && n1.votes == map[i := true] && Granted(n1.votes) == {i}
    requires Good(ms, Put(c, i, n1, {}), h, faithful)
    requires Q(n1) == |Granted(n1.votes)| && ms == {i} && BecomeLeader(n1).Done?
    ensures var l := BecomeLeader(n1).node;
            var h' := Elect(h, l.term, i, l.log.ents, {i});
            && l.role == Leader && l.id == i && RequestVotes(l).out == {}
            && Good(ms, Put(c, i, l, {}), h', faithful) && Grows(h, h')
  {
    WinGood(ms, Put(c, i, n1, {}), h, i, faithful);
    var l := BecomeLeader(n1).node;
    PutAfter(c, i, n1, l, {});
    assert NodeShape(ms, i, Put(c, i, l, {}).nodes[i]);
    assert Peers(l) == {};
  }

  lemma LonePeers(ms: set<int>, i: int, n: Node)
    requires i in ms && NodeShape(ms, i, n) && Q(n) == 1
    ensures ms == {i} && RequestVotes(n).out == {}
  {
    assert |n.prs| == |n.prs.Keys|;
    assert |ms - {i}| == |ms| - 1;
    assert ms - {i} == {};
    assert Peers(n) == {};
  }

  // ---- The follower ----

  lemma LeadGood(ms: set<int>, c: Cluster, h: History, i: int, lead: int, faithful: bool)
    requires Good(ms, c, h, faithful) && i in ms && c.nodes[i].role == Follower
    requires IsLeaderOf(h, lead, c.nodes[i].term)
    ensures Good(ms, Put(c, i, c.nodes[i].(lead := lead), {}), h, faithful)
  {
    var n := c.nodes[i].(lead := lead);
    assert NodeShape(ms, i, c.nodes[i]);
    PlainStep(ms, c, h, i, n, {});
    QuietGood(ms, c, h, i, n, {}, faithful);
  }

  // The acknowledgements among the messages of an outcome are faithful.
  ghost predicate OutcomeFaithful(h: History, o: Outcome) {
    o.Done? ==>
      forall m :: m in o.out && m.typ == MSG_APP_RESP && !m.denied ==> FaithfulAck(h, m.term, o.node.log.ents)
  }

  lemma HandleAppendGood(ms: set<int>, c: Cluster, h: History, i: int, m: Message, faithful: bool)
    requires Good(ms, c, h, faithful) && i in ms && c.nodes[i].role == Follower && c.nodes[i].lead == m.from
    requires m in c.net && m.typ == MSG_APP && m.term == c.nodes[i].term && m.to == i
    requires faithful ==> OutcomeFaithful(h, HandleAppendEntries(c.nodes[i], m))
    ensures GoodAfter(ms, c, h, i, m, HandleAppendEntries(c.nodes[i], m), faithful)
  {
    var n := c.nodes[i];
    var o := HandleAppendEntries(n, m);
    assert NodeShape(ms, i, n) && MessageShape(ms, c, m) && MessageElection(ms, c, h, m);
    match n.log.MaybeAppend(m.index, m.logTerm, m.commit, m.entries)
    case Conflict =>
    case Rejected =>
      ReplyGood(ms, c, h, i, Stamp(n, Blank(MSG_APP_RESP, m.from).(denied := true)), faithful);
    case Accepted(log) =>
      var ack := AckMsg(i, m.from, m.term, log.LastIndex());
      assert o == Done(Followed(n, m.from, log), {ack});
      AcceptKeeps(ms, c, h, i, m);
      if faithful {
        assert ack in o.out;
        AcceptExt(ms, c, h, i, m);
      }
  }

  lemma FollowerVoteGood(ms: set<int>, c: Cluster, h: History, i: int, m: Message, faithful: bool)
    requires Good(ms, c, h, faithful) && i in ms && c.nodes[i].role == Follower
    requires m in c.net && m.typ == MSG_VOTE && m.term == c.nodes[i].term
    ensures GoodAfter(ms, c, h, i, m, FollowerVote(c.nodes[i], m), faithful)
  {
    var n := c.nodes[i];
    var o := FollowerVote(n, m);
    assert NodeShape(ms, i, n) && MessageShape(ms, c, m);
    if (n.vote == NONE || n.vote == m.from) && n.log.ents != [] && n.log.IsUpToDate(m.index, m.logTerm) {
      assert o == Done(n.(vote := m.from), {GrantMsg(i, m.from, m.term)});
      GrantKeeps(ms, c, h, i, m);
      if faithful {
        GrantExt(ms, c, h, i, m);
      }
    } else {
      DenyVoteGood(ms, c, h, i, m, faithful);
    }
  }

  lemma DenyVoteGood(ms: set<int>, c: Cluster, h: History, i: int, m: Message, faithful: bool)
    requires Good(ms, c, h, faithful) && i in ms
    requires m in c.net && m.typ == MSG_VOTE && m.term == c.nodes[i].term
    ensures GoodAfter(ms, c, h, i, m, Reply(c.nodes[i], Blank(MSG_VOTE_RESP, m.from).(denied := true)), faithful)
  {
    var n := c.nodes[i];
    assert NodeShape(ms, i, n) && MessageShape(ms, c, m) && NodeElection(ms, c, h, i);
    if n.role == Leader {
      SameHistory(h, n);
    }
    ReplyGood(ms, c, h, i, Stamp(n, Blank(MSG_VOTE_RESP, m.from).(denied := true)), faithful);
  }

  lemma ForwardGood(ms: set<int>, c: Cluster, h: History, i: int, m: Message, faithful: bool)
    requires Good(ms, c, h, faithful) && i in ms && c.nodes[i].role == Follower && c.nodes[i].lead != NONE
    requires m.typ == MSG_PROP
    ensures GoodAfter(ms, c, h, i, m, Reply(c.nodes[i], m.(to := c.nodes[i].lead)), faithful)
  {
    var n := c.nodes[i];
    assert NodeShape(ms, i, n) && NodeElection(ms, c, h, i) && ElectedTerm(ms, c, h, n.term);
    ReplyGood(ms, c, h, i, Stamp(n, m.(to := n.lead)), faithful);
  }

  // ---- Step ----

  // m is what a node in term t may have to handle: a local message, or one of its term.
  ghost predicate Handled(c: Cluster, i: int, t: int, m: Message) {
    || (m.term == 0 && m.typ in {MSG_HUP, MSG_BEAT, MSG_PROP})
    || (m.term == t && m.typ == MSG_PROP)
    || (m.term == t && m in c.net && m.to == i && m.typ in {MSG_APP, MSG_APP_RESP, MSG_VOTE, MSG_VOTE_RESP})
  }

  lemma UnchangedGood(ms: set<int>, c: Cluster, h: History, i: int, m: Message, faithful: bool)
    requires Good(ms, c, h, faithful) && i in ms
    ensures GoodAfter(ms, c, h, i, m, Quiet(c.nodes[i]), faithful)
  {
    assert NodeElection(ms, c, h, i);
    assert Put(c, i, c.nodes[i], {}) == c;
    if c.nodes[i].role == Leader {
      SameHistory(h, c.nodes[i]);
    }
  }

  lemma DispatchGood(ms: set<int>, c: Cluster, h: History, i: int, m: Message, faithful: bool)
    requires Good(ms, c, h, faithful) && i in ms && Handled(c, i, c.nodes[i].term, m)
    requires faithful ==> OutcomeFaithful(h, Dispatch(c.nodes[i], m))
    ensures GoodAfter(ms, c, h, i, m, Dispatch(c.nodes[i], m), faithful)
  {
    var n := c.nodes[i];
    match n.role
    case Leader =>
      if m.typ == MSG_BEAT {
        LeaderBeatGood(ms, c, h, i, m, faithful);
      } else if m.typ == MSG_PROP {
        LeaderProposalGood(ms, c, h, i, m, faithful);
      } else if m.typ == MSG_APP_RESP {
        LeaderAckGood(ms, c, h, i, m, faithful);
      } else if m.typ == MSG_VOTE {
        DenyVoteGood(ms, c, h, i, m, faithful);
      } else {
        UnchangedGood(ms, c, h, i, m, faithful);
      }
    case Candidate =>
      if m.typ == MSG_APP {
        CandidateAppendGood(ms, c, h, i, m, faithful);
      } else if m.typ == MSG_VOTE {
        DenyVoteGood(ms, c, h, i, m, faithful);
      } else if m.typ == MSG_VOTE_RESP {
        CandidatePollGood(ms, c, h, i, m, faithful);
      } else if m.typ != MSG_PROP {
        UnchangedGood(ms, c, h, i, m, faithful);
      }
    case Follower =>
      if m.typ == MSG_APP {
        FollowerAppendGood(ms, c, h, i, m, faithful);
      } else if m.typ == MSG_VOTE {
        FollowerVoteGood(ms, c, h, i, m, faithful);
      } else if m.typ == MSG_PROP {
        if n.lead != NONE {
          ForwardGood(ms, c, h, i, m, faithful);
        }
      } else {
        UnchangedGood(ms, c, h, i, m, faithful);
      }
  }

  lemma CandidateAppendGood(ms: set<int>, c: Cluster, h: History, i: int, m: Message, faithful: bool)
    requires Good(ms, c, h, faithful) && i in ms && c.nodes[i].role == Candidate
    requires m in c.net && m.typ == MSG_APP && m.term == c.nodes[i].term && m.to == i
    requires faithful ==> OutcomeFaithful(h, Dispatch(c.nodes[i], m))
    ensures GoodAfter(ms, c, h, i, m, Dispatch(c.nodes[i], m), faithful)
  {
    var n := c.nodes[i];
    assert MessageElection(ms, c, h, m);
    var n1 := BecomeFollower(n, n.term, m.from);
    FollowGood(ms, c, h, i, n.term, m.from, faithful);
    var c1 := Put(c, i, n1, {});
    HandleAppendGood(ms, c1, h, i, m, faithful);
    var o := HandleAppendEntries(n1, m);
    if o.Done? {
      PutAfter(c, i, n1, o.node, o.out);
    }
  }

  lemma FollowerAppendGood(ms: set<int>, c: Cluster, h: History, i: int, m: Message, faithful: bool)
    requires Good(ms, c, h, faithful) && i in ms && c.nodes[i].role == Follower
    requires m in c.net && m.typ == MSG_APP && m.term == c.nodes[i].term && m.to == i
    requires faithful ==> OutcomeFaithful(h, Dispatch(c.nodes[i], m))
    ensures GoodAfter(ms, c, h, i, m, Dispatch(c.nodes[i], m), faithful)
  {
    var n := c.nodes[i];
    assert MessageElection(ms, c, h, m);
    var n1 := n.(lead := m.from);
    LeadGood(ms, c, h, i, m.from, faithful);
    var c1 := Put(c, i, n1, {});
    HandleAppendGood(ms, c1, h, i, m, faithful);
    var o := HandleAppendEntries(n1, m);
    if o.Done? {
      PutAfter(c, i, n1, o.node, o.out);
    }
  }

  // What can arrive: replies and forwarded proposals never carry a term above the recipient's.
  lemma ObserveGood(ms: set<int>, c: Cluster, h: History, a: Action, faithful: bool)
    requires Good(ms, c, h, faithful) && Enabled(c, a)
    ensures var i := Actor(a);
            var n := Observe(c.nodes[i], Input(a));
            && i in ms && Good(ms, Put(c, i, n, {}), h, faithful)
            && (n != c.nodes[i] ==> n.role == Follower && Input(a).typ in {MSG_APP, MSG_VOTE})
  {
    var i := Actor(a);
    var m := Input(a);
    var n := c.nodes[i];
    if (a.Receive? || a.Refuse?) && m.term > n.term {
      assert MessageShape(ms, c, a.m) && MessageElection(ms, c, h, a.m);
      assert a.m.term in h.leader ==> ElectedTerm(ms, c, h, a.m.term);
      FollowGood(ms, c, h, i, m.term, if m.typ == MSG_VOTE then NONE else m.from, faithful);
    } else {
      assert Put(c, i, n, {}) == c;
    }
  }

  lemma DeliverGood(ms: set<int>, c: Cluster, h: History, a: Action, faithful: bool)
    requires Good(ms, c, h, faithful) && Enabled(c, a) && !a.Hup? && !a.Refuse? && !a.Restart?
    requires faithful ==> OutcomeFaithful(h, Response(c, a))
    ensures Actor(a) in ms
    ensures GoodAfter(ms, c, h, Actor(a), Input(a), Deliver(c.nodes[Actor(a)], Input(a)), faithful)
  {
    var i := Actor(a);
    var m := Input(a);
    var n := c.nodes[i];
    if a.Receive? {
      assert MessageShape(ms, c, a.m);
    }
    if Stale(n, m) {
      UnchangedGood(ms, c, h, i, m, faithful);
    } else {
      ObserveGood(ms, c, h, a, faithful);
      var n1 := Observe(n, m);
      DispatchGood(ms, Put(c, i, n1, {}), h, i, m, faithful);
      ObservedRecord(ms, c, h, i, m, n1, Dispatch(n1, m), faithful);
    }
  }

  // The history after a step does not depend on whether the term was adopted in between.
  lemma ObservedRecord(ms: set<int>, c: Cluster, h: History, i: int, m: Message, n1: Node, o: Outcome, faithful: bool)
    requires i in c.nodes && o == Dispatch(n1, m)
    requires n1 != c.nodes[i] ==> n1.role == Follower && m.typ in {MSG_APP, MSG_VOTE}
    requires GoodAfter(ms, Put(c, i, n1, {}), h, i, m, o, faithful)
    ensures GoodAfter(ms, c, h, i, m, o, faithful)
  {
    if o.Done? {
      PutAfter(c, i, n1, o.node, o.out);
      if n1 != c.nodes[i] {
        FollowerStays(n1, m);
      }
    }
  }

  lemma FollowerStays(n: Node, m: Message)
    requires n.role == Follower && m.typ in {MSG_APP, MSG_VOTE} && Dispatch(n, m).Done?
    ensures Dispatch(n, m).node.role == Follower
  {
  }

  lemma RecordedGood(ms: set<int>, c: Cluster, h: History, i: int, m: Message, o: Outcome, faithful: bool)
    requires i in ms && i in c.nodes && GoodAfter(ms, c, h, i, m, o, faithful)
    ensures GoodAfter(ms, c, h, i, m, Recorded(o), faithful)
  {
    if o.Done? {
      var c1 := Put(c, i, o.node, o.out);
      var h1 := Record(h, c.nodes[i], m, o.node);
      var n1 := o.node.(commit := o.node.log.committed);
      RecordKeeps(ms, c1, h1, i, o.node.log.committed);
      QuietGood(ms, c1, h1, i, n1, {}, faithful);
      PutTwice(c, i, o.node, o.out, n1, {});
      assert o.out + {} == o.out;
    }
  }

  // ---- Refusing and starting again ----

  lemma RefuseAppendGood(ms: set<int>, c: Cluster, h: History, i: int, m: Message, faithful: bool)
    requires Good(ms, c, h, faithful) && i in ms && m in c.net && m.to == i
    requires m.typ == MSG_APP && m.term == c.nodes[i].term
    ensures GoodAfter(ms, c, h, i, m, RefuseAppend(c.nodes[i], m), faithful)
  {
    var n := c.nodes[i];
    assert MessageShape(ms, c, m) && MessageElection(ms, c, h, m);
    match n.role
    case Leader => UnchangedGood(ms, c, h, i, m, faithful);
    case Candidate =>
      FollowGood(ms, c, h, i, n.term, m.from, faithful);
      DenialGood(ms, c, h, i, m, BecomeFollower(n, n.term, m.from), faithful);
    case Follower =>
      LeadGood(ms, c, h, i, m.from, faithful);
      DenialGood(ms, c, h, i, m, n.(lead := m.from), faithful);
  }

  lemma DenialGood(ms: set<int>, c: Cluster, h: History, i: int, m: Message, n1: Node, faithful: bool)
    requires i in ms && i in c.nodes && m.to == i && m.typ == MSG_APP && m in c.net && n1.role == Follower
    requires n1.term == m.term && Good(ms, Put(c, i, n1, {}), h, faithful)
    ensures GoodAfter(ms, c, h, i, m, Reply(n1, Blank(MSG_APP_RESP, m.from).(denied := true)), faithful)
  {
    var c1 := Put(c, i, n1, {});
    assert NodeShape(ms, i, n1) && MessageShape(ms, c1, m) && MessageElection(ms, c1, h, m);
    var denial := Stamp(n1, Blank(MSG_APP_RESP, m.from).(denied := true));
    ReplyGood(ms, c1, h, i, denial, faithful);
    PutAfter(c, i, n1, n1, {denial});
  }

  lemma RefuseGood(ms: set<int>, c: Cluster, h: History, a: Action, faithful: bool)
    requires Good(ms, c, h, faithful) && Enabled(c, a) && a.Refuse?
    ensures GoodAfter(ms, c, h, Actor(a), Input(a), Response(c, a), faithful)
  {
    var i, m, n := a.m.to, a.m, c.nodes[a.m.to];
    assert MessageShape(ms, c, m);
    if Stale(n, m) {
      UnchangedGood(ms, c, h, i, m, faithful);
      RecordedGood(ms, c, h, i, m, Quiet(n), faithful);
    } else {
      ObserveGood(ms, c, h, a, faithful);
      var n1 := Observe(n, m);
      RefuseAppendGood(ms, Put(c, i, n1, {}), h, i, m, faithful);
      RefusedRecord(ms, c, h, i, m, n1, faithful);
      RecordedGood(ms, c, h, i, m, RefuseAppend(n1, m), faithful);
    }
  }

  lemma RefusedRecord(ms: set<int>, c: Cluster, h: History, i: int, m: Message, n1: Node, faithful: bool)
    requires i in c.nodes && (n1 != c.nodes[i] ==> n1.role == Follower)
    requires GoodAfter(ms, Put(c, i, n1, {}), h, i, m, RefuseAppend(n1, m), faithful)
    ensures GoodAfter(ms, c, h, i, m, RefuseAppend(n1, m), faithful)
  {
    var o := RefuseAppend(n1, m);
    PutAfter(c, i, n1, o.node, o.out);
  }

  lemma RestartGood(ms: set<int>, c: Cluster, h: History, i: int, m: Message, faithful: bool)
    requires Good(ms, c, h, faithful) && i in ms && LeadsOwn(c.nodes[i])
    ensures GoodAfter(ms, c, h, i, m, Quiet(Restarted(c.nodes[i])), faithful)
  {
    RestartKeeps(ms, c, h, i);
    assert NodeShape(ms, i, c.nodes[i]);
    RestartShape(ms, i, c.nodes[i]);
    QuietGood(ms, c, h, i, Restarted(c.nodes[i]), {}, faithful);
  }

  /** Every action of a run keeps the invariants. */
  lemma NextGood(ms: set<int>, c: Cluster, h: History, a: Action, faithful: bool)
    requires Good(ms, c, h, faithful) && Enabled(c, a) && (a.Restart? ==> LeadsOwn(c.nodes[a.id]))
    requires faithful ==> OutcomeFaithful(h, Response(c, a))
    ensures Good(ms, Next(c, a), Record(h, c.nodes[Actor(a)], Input(a), Next(c, a).nodes[Actor(a)]), faithful)
    ensures Grows(h, Record(h, c.nodes[Actor(a)], Input(a), Next(c, a).nodes[Actor(a)]))
  {
    var i := Actor(a);
    var m := Input(a);
    var n := c.nodes[i];
    if a.Receive? {
      assert MessageShape(ms, c, a.m);
    }
    if a.Hup? {
      HupGood(ms, c, h, i, m, faithful);
    } else if a.Refuse? {
      RefuseGood(ms, c, h, a, faithful);
    } else if a.Restart? {
      RestartGood(ms, c, h, i, m, faithful);
    } else {
      DeliverGood(ms, c, h, a, faithful);
      RecordedGood(ms, c, h, i, m, Deliver(n, m), faithful);
    }
  }

  lemma HupGood(ms: set<int>, c: Cluster, h: History, i: int, m: Message, faithful: bool)
    requires Good(ms, c, h, faithful) && i in ms && m.typ == MSG_HUP && m.term == 0
    ensures GoodAfter(ms, c, h, i, m, Step(c.nodes[i], m), faithful)
  {
    CampaignGood(ms, c, h, i, m, faithful);
    RecordedGood(ms, c, h, i, m, Campaign(c.nodes[i]), faithful);
    HupIsCampaign(c.nodes[i], m);
  }

  lemma HupIsCampaign(n: Node, m: Message)
    requires m.typ == MSG_HUP && m.term == 0
    ensures Step(n, m) == Recorded(Campaign(n))
  {
    var o := Campaign(n);
    if o.Done? {
      HupIsQuiet(o.node, m);
      assert o.out + {} == o.out;
    }
  }

  lemma HupIsQuiet(n: Node, m: Message)
    requires m.typ == MSG_HUP && m.term == 0
    ensures Deliver(n, m) == Quiet(n)
  {
  }
}
