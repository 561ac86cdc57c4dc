/** Configuration entries: a leader appends one only while it knows of no other that is not
    committed, and tells others what is committed whenever it sends. So nobody ever has two that
    are not committed, and no winner of an election panics over them. */
module ConfSafety {
  import opened RaftTypes
  import opened RaftLogModel
  import opened RaftNodeModel
  import opened Cluster
  import opened RaftInvariants
  import opened LogMatching
  import opened RaftSafetySteps
  import opened RaftSafety
  import opened StepLaws

  predicate ConfAt(s: seq<Entry>, i: int) { 0 <= i < |s| && s[i].typ == ENTRY_CONF_CHANGE }

  // Behind index c there is at most one configuration entry.
  ghost predicate OneConf(s: seq<Entry>, c: int) {
    forall i, j :: c < i < j && ConfAt(s, i) ==> !ConfAt(s, j)
  }

  lemma OpenMeans(log: Log)
    requires log.offset == 0
    ensures OneConf(log.ents, log.committed) <==> !TwoOpenConfs(log)
    ensures forall i :: OpenConf(log, i) <==> log.committed < i && ConfAt(log.ents, i)
  {
    if TwoOpenConfs(log) {
      var i, j :| i < j && OpenConf(log, i) && OpenConf(log, j);
      assert ConfAt(log.ents, i) && ConfAt(log.ents, j);
    } else {
      forall i, j | log.committed < i < j && ConfAt(log.ents, i) ensures !ConfAt(log.ents, j) {
        assert OpenConf(log, i) && (ConfAt(log.ents, j) ==> OpenConf(log, j));
      }
    }
  }

  // A leader knows of the configuration entry it has open.
  ghost predicate NodeConf(n: Node) {
    && OneConf(n.log.ents, n.log.committed)
    && (n.role == Leader ==> forall i :: n.log.committed < i && ConfAt(n.log.ents, i) ==> n.pendingConf)
  }

  // Of the leader's log up to the end of the message, at most one is open.
  ghost predicate MessageConf(h: History, m: Message) {
    m.typ == MSG_APP && m.logTerm != -1 && m.term in h.llog && 0 <= m.index + 1 + |m.entries| <= |h.llog[m.term]| ==>
      OneConf(h.llog[m.term][..m.index + 1 + |m.entries|], m.commit)
  }

  // ---- What each kind of step does to a log ----

  // The log is the same, perhaps with more of it committed.
  lemma SameEntries(n: Node, n': Node)
    requires NodeConf(n) && n'.log.ents == n.log.ents && n'.log.committed >= n.log.committed
    requires n'.role == Leader ==> n.role == Leader && n'.pendingConf == n.pendingConf
    ensures NodeConf(n')
  {
  }

  lemma OneAdded(s: seq<Entry>, e: Entry, c: int, c': int)
    requires c <= c' && OneConf(s, c) && (e.typ == ENTRY_CONF_CHANGE ==> forall i :: c < i ==> !ConfAt(s, i))
    ensures OneConf(s + [e], c')
    ensures forall i :: ConfAt(s + [e], i) ==> ConfAt(s, i) || (i == |s| && e.typ == ENTRY_CONF_CHANGE)
  {
    var u := s + [e];
    assert forall i :: ConfAt(u, i) <==> ConfAt(s, i) || (i == |s| && e.typ == ENTRY_CONF_CHANGE);
  }

  lemma AppendsConf(n: Node, e: Entry, l: Node)
    requires NodeConf(n) && Appends(n, e, l) && n.log.offset == 0
    requires e.typ == ENTRY_CONF_CHANGE ==> n.pendingConf && forall i :: n.log.committed < i ==> !ConfAt(n.log.ents, i)
    ensures NodeConf(l)
  {
    OneAdded(n.log.ents, e.(term := n.term, index := |n.log.ents|), n.log.committed, l.log.committed);
  }

  lemma LeadsConf(n: Node, l: Node)
    requires NodeConf(n) && LeadsNow(n, l) && n.log.offset == 0
    ensures NodeConf(l)
  {
    OpenMeans(n.log);
    OneAdded(n.log.ents, Entry(ENTRY_NORMAL, n.term, |n.log.ents|, []), n.log.committed, l.log.committed);
  }

  // A follower takes the committed index with the entries.
  lemma HandleConf(h: History, n: Node, m: Message)
    requires NodeConf(n) && n.role == Follower && LogShape(n.log) && Grounded(h, n.log.ents, n.term) && LeaderLogs(h)
    requires m.typ == MSG_APP && AppendGrounded(h, m) && MessageConf(h, m) && HandleAppendEntries(n, m).Done?
    ensures NodeConf(HandleAppendEntries(n, m).node)
  {
    var res := n.log.MaybeAppend(m.index, m.logTerm, m.commit, m.entries);
    if res.Accepted? {
      AppendAgrees(h, n.log, n.term, m);
      if res.log.ents != n.log.ents {
        var u := h.llog[m.term][..m.index + 1 + |m.entries|];
        assert res.log.ents == u;
        assert OneConf(u, m.commit);
      }
    }
  }

  // ---- Every step ----

  lemma ProposalConf(n: Node, m: Message)
    requires NodeConf(n) && n.role == Leader && LogShape(n.log) && n.term >= 0 && LeaderProposal(n, m).Done?
    ensures NodeConf(LeaderProposal(n, m).node)
  {
    var e := m.entries[0];
    if !(e.typ == ENTRY_CONF_CHANGE && n.pendingConf) {
      var u := n.(pendingConf := n.pendingConf || e.typ == ENTRY_CONF_CHANGE);
      EntryAppended(u, e);
      AppendsConf(u, e, AppendEntry(u, e));
      assert LeaderProposal(n, m) == BcastAppend(AppendEntry(u, e));
    }
  }

  lemma LeaderConf(n: Node, m: Message)
    requires NodeConf(n) && n.role == Leader && LogShape(n.log) && n.term >= 0 && StepLeader(n, m).Done?
    ensures NodeConf(StepLeader(n, m).node)
  {
    if m.typ == MSG_PROP {
      ProposalConf(n, m);
    } else {
      SameEntries(n, StepLeader(n, m).node);
    }
  }

  lemma WinConf(n: Node)
    requires NodeConf(n) && n.role == Candidate && LogShape(n.log) && n.term >= 0
    ensures BecomeLeader(n) != Panics(DoubleConfChange)
    ensures BecomeLeader(n).Done? ==> NodeConf(BecomeLeader(n).node)
  {
    OpenMeans(n.log);
    OpenConfsCounted(n.log);
    if n.id in n.prs {
      LeadsNext(n);
      LeadsConf(n, BecomeLeader(n).node);
    }
  }

  lemma PollConf(n: Node, m: Message)
    requires NodeConf(n) && n.role == Candidate && LogShape(n.log) && n.term >= 0
    ensures CandidatePoll(n, m) != Panics(DoubleConfChange)
    ensures CandidatePoll(n, m).Done? ==> NodeConf(CandidatePoll(n, m).node)
  {
    WinConf(n.(votes := Poll(n.votes, m.from, !m.denied)));
  }

  lemma CampaignConf(n: Node)
    requires NodeConf(n) && LogShape(n.log) && n.term >= 0
    ensures Campaign(n) != Panics(DoubleConfChange)
    ensures Campaign(n).Done? ==> NodeConf(Campaign(n).node)
  {
    var c := BecomeCandidate(n);
    WinConf(c.(votes := Poll(c.votes, c.id, true)));
  }

  // An append message that reaches a node comes with its leader's log.
  ghost predicate Legible(h: History, n: Node, m: Message) {
    m.typ == MSG_APP ==> AppendGrounded(h, m) && MessageConf(h, m) && Grounded(h, n.log.ents, n.term) && LeaderLogs(h)
  }

  lemma DispatchConf(h: History, n: Node, m: Message)
    requires NodeConf(n) && LogShape(n.log) && n.term >= 0 && m.typ != MSG_SNAP && Legible(h, n, m)
    ensures Dispatch(n, m) != Panics(DoubleConfChange)
    ensures Dispatch(n, m).Done? ==> NodeConf(Dispatch(n, m).node)
  {
    match n.role
    case Leader =>
      if StepLeader(n, m).Done? {
        LeaderConf(n, m);
      }
    case Candidate =>
      if m.typ == MSG_VOTE_RESP {
        PollConf(n, m);
      } else if m.typ == MSG_APP {
        var f := BecomeFollower(n, n.term, m.from);
        if HandleAppendEntries(f, m).Done? {
          HandleConf(h, f, m);
        }
      }
    case Follower =>
      if m.typ == MSG_APP {
        var f := n.(lead := m.from);
        if HandleAppendEntries(f, m).Done? {
          HandleConf(h, f, m);
        }
      }
  }

  lemma DeliverConf(h: History, n: Node, m: Message)
    requires NodeConf(n) && LogShape(n.log) && n.term >= 0 && m.typ != MSG_SNAP && Legible(h, n, m)
    ensures Deliver(n, m) != Panics(DoubleConfChange)
    ensures Deliver(n, m).Done? ==> NodeConf(Deliver(n, m).node)
  {
    if !Stale(n, m) {
      var o := Observe(n, m);
      if m.typ == MSG_APP && m.term > n.term {
        GroundedGrows(h, h, n.log.ents, n.term, o.term);
      }
      DispatchConf(h, o, m);
    }
  }

  lemma StepConf(h: History, n: Node, m: Message)
    requires NodeConf(n) && LogShape(n.log) && n.term >= 0 && m.typ != MSG_SNAP && Legible(h, n, m)
    ensures Step(n, m) != Panics(DoubleConfChange)
    ensures Step(n, m).Done? ==> NodeConf(Step(n, m).node)
  {
    if m.typ == MSG_HUP {
      CampaignConf(n);
      if Campaign(n).Done? {
        HupQuiet(n, m);
      }
    } else {
      DeliverConf(h, n, m);
    }
  }

  lemma HupQuiet(n: Node, m: Message)
    requires m.typ == MSG_HUP && Campaign(n).Done?
    ensures Step(n, m).Done? && Step(n, m).node.log == Campaign(n).node.log
    ensures Step(n, m).node.role == Leader ==> Campaign(n).node.role == Leader
    ensures Step(n, m).node.role == Leader ==> Step(n, m).node.pendingConf == Campaign(n).node.pendingConf
  {
    HupSendsNothing(Campaign(n).node, m);
  }

  // ---- What is sent ----

  // An append message is an empty one from the very beginning, or carries the leader's log.
  predicate FromLeader(n: Node, r: Message) {
    && n.role == Leader && r.term == n.term
    && (CarriesRest(n.log, r) || (r.index == 0 && r.entries == [] && r.commit == 0))
  }

  lemma BcastSent(n: Node, r: Message)
    requires n.role == Leader && n.log.ents != [] && BcastAppend(n).Done? && r in BcastAppend(n).out && r.typ == MSG_APP
    ensures FromLeader(n, r)
  {
    BcastServes(n);
  }

  lemma LeaderSent(n: Node, m: Message, r: Message)
    requires n.role == Leader && LogShape(n.log) && StepLeader(n, m).Done? && r in StepLeader(n, m).out
    requires r.typ == MSG_APP
    ensures FromLeader(StepLeader(n, m).node, r)
  {
    if m.typ == MSG_PROP {
      var e := m.entries[0];
      var u := n.(pendingConf := n.pendingConf || e.typ == ENTRY_CONF_CHANGE);
      BcastSent(AppendEntry(u, e), r);
    } else if m.typ == MSG_APP_RESP {
      AckSent(n, m, r);
    }
  }

  lemma AckSent(n: Node, m: Message, r: Message)
    requires n.role == Leader && LogShape(n.log) && LeaderAck(n, m).Done? && r in LeaderAck(n, m).out
    requires r.typ == MSG_APP
    ensures FromLeader(LeaderAck(n, m).node, r)
  {
    if m.denied {
      AppendServes(n.(prs := n.prs[m.from := n.prs[m.from].Decr()]), m.from);
    } else {
      var u := n.(prs := n.prs[m.from := Updated(m.index)]);
      assert m.from in u.prs;
      BcastSent(MaybeCommit(u), r);
    }
  }

  lemma PollSent(n: Node, m: Message, r: Message)
    requires n.role == Candidate && LogShape(n.log) && CandidatePoll(n, m).Done? && r in CandidatePoll(n, m).out
    requires r.typ == MSG_APP
    ensures FromLeader(CandidatePoll(n, m).node, r)
  {
    var c := n.(votes := Poll(n.votes, m.from, !m.denied));
    BecameLeader(c);
    BcastSent(BecomeLeader(c).node, r);
  }

  lemma BecameLeader(n: Node)
    requires n.log.ents != []
    ensures BecomeLeader(n).Done? ==> BecomeLeader(n).node.role == Leader && BecomeLeader(n).node.log.ents != []
  {
  }

  lemma DispatchSent(n: Node, m: Message, r: Message)
    requires LogShape(n.log) && m.typ != MSG_SNAP && Dispatch(n, m).Done? && r in Dispatch(n, m).out && r.typ == MSG_APP
    ensures FromLeader(Dispatch(n, m).node, r)
  {
    match n.role
    case Leader => LeaderSent(n, m, r);
    case Candidate => PollSent(n, m, r);
    case Follower =>
  }

  lemma StepSent(n: Node, m: Message, r: Message)
    requires LogShape(n.log) && m.typ != MSG_SNAP && Step(n, m).Done? && r in Step(n, m).out && r.typ == MSG_APP
    ensures FromLeader(Step(n, m).node, r)
  {
    if m.typ == MSG_HUP {
      HupSendsNothing(Campaign(n).node, m);
      CampaignNoAck(n, r);
    } else {
      DispatchSent(Observe(n, m), m, r);
    }
  }

  // ---- Every run ----

  ghost predicate Confs(ms: set<int>, c: Cluster, h: History)
    requires c.nodes.Keys == ms
  {
    && (forall i {:trigger NodeConf(c.nodes[i])} :: i in ms ==> NodeConf(c.nodes[i]))
    && (forall m {:trigger MessageConf(h, m)} :: m in c.net ==> MessageConf(h, m))
  }

  // What is sent is as the sender's log.
  lemma SentConf(h: History, n: Node, r: Message)
    requires FromLeader(n, r) && n.term in h.llog && h.llog[n.term] == n.log.ents && LogShape(n.log) && NodeConf(n)
    ensures MessageConf(h, r)
  {
    var s := n.log.ents;
    if CarriesRest(n.log, r) {
      if r.index < |s| {
        assert s[..r.index + 1 + |r.entries|] == s;
      }
    } else {
      assert forall i :: ConfAt(s[..1], i) ==> i == 0;
    }
  }

  lemma MessageConfGrows(h: History, h': History, m: Message)
    requires MessageConf(h, m) && Grows(h, h') && (m.typ == MSG_APP ==> AppendGrounded(h, m))
    ensures MessageConf(h', m)
  {
    if m.typ == MSG_APP && m.logTerm != -1 {
      var hi := m.index + 1 + |m.entries|;
      assert h'.llog[m.term][..hi] == h.llog[m.term][..hi];
    }
  }

  lemma RestartConf(n: Node)
    requires NodeConf(n)
    ensures NodeConf(Restarted(n))
  {
  }

  lemma RefuseConf(n: Node, m: Message)
    requires NodeConf(n)
    ensures RefuseStep(n, m).Done? && NodeConf(RefuseStep(n, m).node)
    ensures forall r :: r in RefuseStep(n, m).out ==> r.typ != MSG_APP
  {
  }

  lemma ActConf(ms: set<int>, c: Cluster, h: History, a: Action)
    requires Inv(ms, c, h) && Confs(ms, c, h) && Actor(a) in c.nodes && (a.Receive? || a.Refuse? ==> a.m in c.net)
    ensures Response(c, a) != Panics(DoubleConfChange)
    ensures Response(c, a).Done? ==> NodeConf(Response(c, a).node)
    ensures Response(c, a).Done? ==>
              forall r :: r in Response(c, a).out && r.typ == MSG_APP ==> FromLeader(Response(c, a).node, r)
  {
    var n := c.nodes[Actor(a)];
    assert NodeShape(ms, Actor(a), n) && NodeConf(n);
    if a.Restart? {
      RestartConf(n);
    } else if a.Refuse? {
      RefuseConf(n, a.m);
    } else {
      TakenConf(ms, c, h, a, n, Input(a));
    }
  }

  lemma TakenConf(ms: set<int>, c: Cluster, h: History, a: Action, n: Node, m: Message)
    requires Inv(ms, c, h) && Confs(ms, c, h) && Actor(a) in c.nodes && n == c.nodes[Actor(a)] && m == Input(a)
    requires (a.Receive? ==> a.m in c.net) && !a.Restart? && !a.Refuse?
    ensures Step(n, m) != Panics(DoubleConfChange)
    ensures Step(n, m).Done? ==> NodeConf(Step(n, m).node)
    ensures Step(n, m).Done? ==> forall r :: r in Step(n, m).out && r.typ == MSG_APP ==> FromLeader(Step(n, m).node, r)
  {
    LegibleHere(ms, c, h, a);
    StepConf(h, n, m);
    if Step(n, m).Done? {
      forall r | r in Step(n, m).out && r.typ == MSG_APP ensures FromLeader(Step(n, m).node, r) {
        StepSent(n, m, r);
      }
    }
  }

  lemma LegibleHere(ms: set<int>, c: Cluster, h: History, a: Action)
    requires Inv(ms, c, h) && Confs(ms, c, h) && Actor(a) in c.nodes && (a.Receive? ==> a.m in c.net)
    requires !a.Restart? && !a.Refuse?
    ensures var n := c.nodes[Actor(a)];
            NodeConf(n) && LogShape(n.log) && n.term >= 0 && Input(a).typ != MSG_SNAP && Legible(h, n, Input(a))
  {
    var i := Actor(a);
    assert NodeShape(ms, i, c.nodes[i]) && NodeConf(c.nodes[i]) && Grounded(h, c.nodes[i].log.ents, c.nodes[i].term);
    if a.Receive? {
      assert MessageShape(ms, c, a.m) && MessageConf(h, a.m);
      assert a.m.typ == MSG_APP ==> AppendGrounded(h, a.m);
    }
  }

  lemma NextConf(ms: set<int>, c: Cluster, h: History, a: Action, c': Cluster, h': History)
    requires Inv(ms, c, h) && Confs(ms, c, h) && Enabled(c, a) && c' == Next(c, a) && Inv(ms, c', h') && Grows(h, h')
    ensures Confs(ms, c', h')
  {
    ActConf(ms, c, h, a);
    var i := Actor(a);
    var n' := Response(c, a).node;
    assert NodeShape(ms, i, c'.nodes[i]) && NodeElection(ms, c', h', i) && c'.nodes[i] == n';
    forall j | j in ms ensures NodeConf(c'.nodes[j]) {
      assert j != i ==> NodeConf(c.nodes[j]);
    }
    forall m | m in c'.net ensures MessageConf(h', m) {
      if m in c.net {
        assert MessageConf(h, m) && (m.typ == MSG_APP ==> AppendGrounded(h, m));
        MessageConfGrows(h, h', m);
      } else if m.typ == MSG_APP {
        SentConf(h', n', m);
      }
    }
  }

  lemma StartConf(ms: set<int>)
    requires ValidMembers(ms)
    ensures Start(ms).nodes.Keys == ms && Confs(ms, Start(ms), NO_HISTORY)
  {
    var c := Start(ms);
    forall i | i in ms ensures NodeConf(c.nodes[i]) {
      assert c.nodes[i].log.ents == [DUMMY_ENTRY];
    }
  }

  lemma {:induction false} RunConf(ms: set<int>, acts: seq<Action>)
    requires IsRun(ms, acts)
    ensures After(ms, acts).nodes.Keys == ms && Confs(ms, After(ms, acts), Hist(ms, acts))
    decreases |acts|
  {
    RunGood(ms, acts, false);
    if acts == [] {
      StartConf(ms);
    } else {
      var k := |acts| - 1;
      LastAction(ms, acts);
      RunConf(ms, acts[..k]);
      RunGood(ms, acts[..k], false);
      RunOwn(ms, acts[..k], Actor(acts[k]));
      NextGood(ms, After(ms, acts[..k]), Hist(ms, acts[..k]), acts[k], false);
      NextConf(ms, After(ms, acts[..k]), Hist(ms, acts[..k]), acts[k], After(ms, acts), Hist(ms, acts));
    }
  }

  /** In no run does any node have two configuration entries that it does not know to be
      committed, and a leader that has one knows that it is pending. */
  lemma AtMostOneOpen(ms: set<int>, acts: seq<Action>, i: int)
    requires IsRun(ms, acts) && i in After(ms, acts).nodes
    ensures !TwoOpenConfs(After(ms, acts).nodes[i].log)
    ensures After(ms, acts).nodes[i].role == Leader && (exists k :: OpenConf(After(ms, acts).nodes[i].log, k)) ==>
              After(ms, acts).nodes[i].pendingConf
  {
    RunConf(ms, acts);
    RunGood(ms, acts, false);
    var n := After(ms, acts).nodes[i];
    assert NodeConf(n) && NodeShape(ms, i, n);
    OpenMeans(n.log);
  }

  /** The panic over a second uncommitted configuration entry is unreachable. */
  lemma NoDoubleConf(ms: set<int>, acts: seq<Action>, a: Action)
    requires IsRun(ms, acts) && Actor(a) in After(ms, acts).nodes
    requires a.Receive? || a.Refuse? ==> a.m in After(ms, acts).net
    ensures Response(After(ms, acts), a) != Panics(DoubleConfChange)
  {
    RunConf(ms, acts);
    RunGood(ms, acts, false);
    ActConf(ms, After(ms, acts), Hist(ms, acts), a);
  }
}
