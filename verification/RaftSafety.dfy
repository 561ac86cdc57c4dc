/** The safety properties of Raft, over whole runs of a fixed set of nodes. */
module RaftSafety {
  import opened RaftTypes
  import opened RaftLogModel
  import opened RaftNodeModel
  import opened Collections
  import opened Cluster
  import opened RaftInvariants
  import opened RaftSteps
  import opened LogMatching
  import opened CommitInvariants
  import opened CommitFrames
  import opened CommitSteps
  import opened RaftSafetySteps

  /** Every acknowledgement sent in the run is faithful: the sender's last entry and
      the entry of that term's leader at the same index have the same term. */
  ghost predicate FaithfulRun(ms: set<int>, acts: seq<Action>)
    requires IsRun(ms, acts)
  {
    forall k {:trigger acts[k]} :: 0 <= k < |acts| ==>
      && IsRun(ms, acts[..k]) && Enabled(After(ms, acts[..k]), acts[k])
      && OutcomeFaithful(Hist(ms, acts[..k]), Response(After(ms, acts[..k]), acts[k]))
  }

  predicate FreshNode(ms: set<int>, i: int, n: Node) {
    && NodeShape(ms, i, n) && n.role == Follower && n.term == 0 && n.lead == NONE
    && n.log == NewLog()
  }

  ghost predicate FreshCluster(ms: set<int>, c: Cluster) {
    && ValidMembers(ms) && c.nodes.Keys == ms && c.net == {}
    && (forall i {:trigger c.nodes[i]} :: i in ms ==> FreshNode(ms, i, c.nodes[i]))
  }

  lemma NewRaftFresh(ms: set<int>, i: int)
    ensures FreshNode(ms, i, NewRaft(i, ms))
  {
    var n := NewRaft(i, ms);
    assert n.prs.Keys == ms;
  }

  lemma StartFresh(ms: set<int>)
    requires ValidMembers(ms)
    ensures FreshCluster(ms, Start(ms))
  {
    var c := Start(ms);
    assert c.nodes.Keys == ms;
    forall i | i in ms ensures FreshNode(ms, i, c.nodes[i]) {
      NewRaftFresh(ms, i);
      assert c.nodes[i] == NewRaft(i, ms);
    }
  }

  lemma FreshElections(ms: set<int>, c: Cluster)
    requires FreshCluster(ms, c)
    ensures Elections(ms, c, NO_HISTORY)
  {
  }

  lemma FreshLogs(ms: set<int>, c: Cluster)
    requires FreshCluster(ms, c)
    ensures Logs(ms, c, NO_HISTORY)
  {
  }

  lemma FreshCommits(ms: set<int>, c: Cluster)
    requires FreshCluster(ms, c)
    ensures Retention(ms, c, NO_HISTORY) && Commits(ms, c, NO_HISTORY)
  {
  }

  lemma StartGood(ms: set<int>)
    requires ValidMembers(ms)
    ensures Good(ms, Start(ms), NO_HISTORY, true)
  {
    StartFresh(ms);
    FreshElections(ms, Start(ms));
    FreshLogs(ms, Start(ms));
    FreshCommits(ms, Start(ms));
  }

  lemma LastAction(ms: set<int>, acts: seq<Action>)
    requires IsRun(ms, acts) && acts != []
    ensures var before := acts[..|acts| - 1];
            var a := acts[|acts| - 1];
            && IsRun(ms, before)
            && Enabled(After(ms, before), a)
            && After(ms, acts) == Next(After(ms, before), a)
  {
  }

  lemma FaithfulPrefix(ms: set<int>, acts: seq<Action>)
    requires IsRun(ms, acts) && acts != [] && FaithfulRun(ms, acts)
    ensures IsRun(ms, acts[..|acts| - 1]) && FaithfulRun(ms, acts[..|acts| - 1])
  {
    LastAction(ms, acts);
    var before := acts[..|acts| - 1];
    forall k | 0 <= k < |before|
      ensures IsRun(ms, before[..k]) && Enabled(After(ms, before[..k]), before[k])
      ensures OutcomeFaithful(Hist(ms, before[..k]), Response(After(ms, before[..k]), before[k]))
    {
      assert before[..k] == acts[..k] && before[k] == acts[k];
    }
  }

  // ---- A leader's log ends with an entry of its own term ----

  lemma AppendEntryOwn(n: Node, e: Entry)
    requires n.id in n.prs
    ensures LeadsOwn(AppendEntry(n, e))
  {
  }

  lemma BecomeLeaderOwn(n: Node)
    requires BecomeLeader(n).Done?
    ensures LeadsOwn(BecomeLeader(n).node)
  {
    var confs := ConfChanges(n.log.Slice(n.log.committed + 1, n.log.LastIndex() + 1));
    var l := Reset(n, n.term).(lead := n.id, role := Leader, pendingConf := confs == 1);
    assert n.id in l.prs;
    AppendEntryOwn(l, DUMMY_ENTRY);
  }

  lemma CampaignOwn(n: Node)
    requires Campaign(n).Done?
    ensures LeadsOwn(Campaign(n).node)
  {
    var c := BecomeCandidate(n);
    var c1 := c.(votes := Poll(c.votes, c.id, true));
    if Q(c1) == |Granted(c1.votes)| {
      BecomeLeaderOwn(c1);
    }
  }

  lemma LeaderOwn(n: Node, m: Message)
    requires LeadsOwn(n) && n.role == Leader && StepLeader(n, m).Done?
    ensures LeadsOwn(StepLeader(n, m).node)
  {
    if m.typ == MSG_PROP && |m.entries| == 1 && n.id in n.prs {
      var e := m.entries[0];
      AppendEntryOwn(n.(pendingConf := n.pendingConf || e.typ == ENTRY_CONF_CHANGE), e);
    }
  }

  lemma CandidateOwn(n: Node, m: Message)
    requires n.role == Candidate && StepCandidate(n, m).Done?
    ensures LeadsOwn(StepCandidate(n, m).node)
  {
    if m.typ == MSG_VOTE_RESP {
      var c := n.(votes := Poll(n.votes, m.from, !m.denied));
      if Q(c) == |Granted(c.votes)| {
        BecomeLeaderOwn(c);
      }
    }
  }

  lemma DispatchOwn(n: Node, m: Message)
    requires LeadsOwn(n) && Dispatch(n, m).Done?
    ensures LeadsOwn(Dispatch(n, m).node)
  {
    match n.role
    case Leader => LeaderOwn(n, m);
    case Candidate => CandidateOwn(n, m);
    case Follower =>
  }

  lemma StepOwn(n: Node, m: Message)
    requires LeadsOwn(n) && Step(n, m).Done?
    ensures LeadsOwn(Step(n, m).node)
  {
    if m.typ == MSG_HUP {
      CampaignOwn(n);
      var l := Campaign(n).node;
      if !Stale(l, m) {
        DispatchOwn(Observe(l, m), m);
      }
    } else if !Stale(n, m) {
      DispatchOwn(Observe(n, m), m);
    }
  }

  lemma {:induction false} RunOwn(ms: set<int>, acts: seq<Action>, i: int)
    requires IsRun(ms, acts) && i in After(ms, acts).nodes
    ensures LeadsOwn(After(ms, acts).nodes[i])
    decreases |acts|
  {
    if acts == [] {
    } else {
      LastAction(ms, acts);
      var before, a := acts[..|acts| - 1], acts[|acts| - 1];
      RunOwn(ms, before, i);
      if Actor(a) == i && !a.Refuse? && !a.Restart? {
        StepOwn(After(ms, before).nodes[i], Input(a));
      }
    }
  }

  lemma {:induction false} RunGood(ms: set<int>, acts: seq<Action>, faithful: bool)
    requires IsRun(ms, acts) && (faithful ==> FaithfulRun(ms, acts))
    ensures Good(ms, After(ms, acts), Hist(ms, acts), faithful)
    decreases |acts|
  {
    if acts == [] {
      StartGood(ms);
    } else {
      LastAction(ms, acts);
      var k := |acts| - 1;
      if faithful {
        FaithfulPrefix(ms, acts);
        assert acts[k] == acts[|acts| - 1];
      }
      RunGood(ms, acts[..k], faithful);
      RunOwn(ms, acts[..k], Actor(acts[k]));
      NextGood(ms, After(ms, acts[..k]), Hist(ms, acts[..k]), acts[k], faithful);
    }
  }

  // The network and the history only grow along a run.
  lemma {:induction false} RunGrows(ms: set<int>, acts: seq<Action>, k: nat)
    requires IsRun(ms, acts) && k <= |acts|
    ensures IsRun(ms, acts[..k])
    ensures After(ms, acts[..k]).net <= After(ms, acts).net
    ensures Grows(Hist(ms, acts[..k]), Hist(ms, acts))
    decreases |acts|
  {
    if k == |acts| {
      assert acts[..k] == acts;
    } else {
      LastAction(ms, acts);
      var before := acts[..|acts| - 1];
      RunGrows(ms, before, k);
      assert before[..k] == acts[..k];
      RunGood(ms, before, false);
      RunOwn(ms, before, Actor(acts[|acts| - 1]));
      NextGood(ms, After(ms, before), Hist(ms, before), acts[|acts| - 1], false);
      GrowsTwice(Hist(ms, acts[..k]), Hist(ms, before), Hist(ms, acts));
    }
  }

  lemma GrowsTwice(a: History, b: History, c: History)
    requires Grows(a, b) && Grows(b, c)
    ensures Grows(a, c)
  {
    forall t | t in a.llog ensures t in c.llog && a.llog[t] <= c.llog[t] {
      assert a.llog[t] <= b.llog[t] <= c.llog[t];
    }
  }

  // ---- Election safety ----

  predicate Leads(c: Cluster, i: int, term: int) {
    i in c.nodes && c.nodes[i].role == Leader && c.nodes[i].term == term
  }

  lemma LeaderRecorded(ms: set<int>, acts: seq<Action>, k: nat, a: int, term: int)
    requires IsRun(ms, acts) && k <= |acts|
    requires IsRun(ms, acts[..k]) && Leads(After(ms, acts[..k]), a, term)
    ensures IsLeaderOf(Hist(ms, acts), a, term)
  {
    RunGood(ms, acts[..k], false);
    RunGrows(ms, acts, k);
    assert NodeElection(ms, After(ms, acts[..k]), Hist(ms, acts[..k]), a);
  }

  /** At most one node ever becomes leader in a given term. */
  lemma ElectionSafety(ms: set<int>, acts: seq<Action>, j: nat, k: nat, a: int, b: int, term: int)
    requires IsRun(ms, acts) && j <= |acts| && k <= |acts|
    requires IsRun(ms, acts[..j]) && Leads(After(ms, acts[..j]), a, term)
    requires IsRun(ms, acts[..k]) && Leads(After(ms, acts[..k]), b, term)
    ensures a == b
  {
    LeaderRecorded(ms, acts, j, a, term);
    LeaderRecorded(ms, acts, k, b, term);
  }

  // ---- The history tells what happened ----

  /** Whoever the history names led its term at some moment of the run, with the
      recorded log. */
  lemma {:induction false} HistoryTrue(ms: set<int>, acts: seq<Action>, term: int) returns (k: nat)
    requires IsRun(ms, acts) && term in Hist(ms, acts).leader
    ensures k <= |acts| && IsRun(ms, acts[..k])
    ensures term in Hist(ms, acts).llog
    ensures var l := Hist(ms, acts).leader[term];
            && Leads(After(ms, acts[..k]), l, term)
            && After(ms, acts[..k]).nodes[l].log.ents == Hist(ms, acts).llog[term]
    decreases |acts|
  {
    LastAction(ms, acts);
    var before := acts[..|acts| - 1];
    var i := Actor(acts[|acts| - 1]);
    var h := Hist(ms, acts);
    RunGood(ms, acts, false);
    assert NodeElection(ms, After(ms, acts), h, i);
    if Leads(After(ms, acts), i, term) && h.leader[term] == i {
      k := |acts|;
      assert acts[..k] == acts;
    } else {
      k := HistoryTrue(ms, before, term);
      assert before[..k] == acts[..k];
    }
  }

  // ---- Leader pointer ----

  /** A node that names a leader in its term names the node elected in that term. */
  lemma LeaderPointer(ms: set<int>, acts: seq<Action>, i: int) returns (k: nat)
    requires IsRun(ms, acts) && i in ms && i in After(ms, acts).nodes && After(ms, acts).nodes[i].lead != NONE
    ensures k <= |acts| && IsRun(ms, acts[..k])
    ensures var n := After(ms, acts).nodes[i]; Leads(After(ms, acts[..k]), n.lead, n.term)
  {
    RunGood(ms, acts, false);
    assert NodeElection(ms, After(ms, acts), Hist(ms, acts), i);
    k := HistoryTrue(ms, acts, After(ms, acts).nodes[i].term);
  }

  /** Replies and forwarded proposals never carry a term above their recipient's. */
  lemma RepliesNotAhead(ms: set<int>, acts: seq<Action>, m: Message)
    requires IsRun(ms, acts) && m in After(ms, acts).net && m.typ in {MSG_APP_RESP, MSG_VOTE_RESP, MSG_PROP}
    ensures m.to in After(ms, acts).nodes && m.term <= After(ms, acts).nodes[m.to].term
  {
    RunGood(ms, acts, false);
    var c, h := After(ms, acts), Hist(ms, acts);
    assert MessageElection(ms, c, h, m);
    assert m.term in h.leader ==> ElectedTerm(ms, c, h, m.term);
  }

  // ---- Log matching ----

  /** Two logs with an entry of the same index and term are identical up to it. */
  lemma LogsMatch(ms: set<int>, acts: seq<Action>, a: int, b: int, i: nat)
    requires IsRun(ms, acts) && a in ms && b in ms
    requires a in After(ms, acts).nodes && b in After(ms, acts).nodes
    requires var s, u := After(ms, acts).nodes[a].log.ents, After(ms, acts).nodes[b].log.ents;
             i < |s| && i < |u| && s[i].term == u[i].term
    ensures After(ms, acts).nodes[a].log.ents[..i + 1] == After(ms, acts).nodes[b].log.ents[..i + 1]
  {
    RunGood(ms, acts, false);
    var c, h := After(ms, acts), Hist(ms, acts);
    assert Grounded(h, c.nodes[a].log.ents, c.nodes[a].term) && Grounded(h, c.nodes[b].log.ents, c.nodes[b].term);
    GroundedPrefix(h, c.nodes[a].log.ents, c.nodes[b].log.ents, c.nodes[a].term, c.nodes[b].term, i);
  }

  /** Terms never decrease along a log, and every entry carries its position. */
  lemma LogTermsOrdered(ms: set<int>, acts: seq<Action>, a: int, i: nat, j: nat)
    requires IsRun(ms, acts) && a in After(ms, acts).nodes
    requires i <= j < |After(ms, acts).nodes[a].log.ents|
    ensures var s := After(ms, acts).nodes[a].log.ents;
            s[i].term <= s[j].term && s[i].index == i && s[j].term <= After(ms, acts).nodes[a].term
  {
    RunGood(ms, acts, false);
    var c, h := After(ms, acts), Hist(ms, acts);
    var s := c.nodes[a].log.ents;
    assert Grounded(h, s, c.nodes[a].term) && NodeShape(ms, a, c.nodes[a]);
    GroundedTerms(h, s, c.nodes[a].term, i, j);
    assert i > 0 ==> EntryGrounded(h, s, i, c.nodes[a].term);
    assert j > 0 ==> EntryGrounded(h, s, j, c.nodes[a].term);
  }

  /** A log and an append message in flight that share an entry of the same index
      and term agree on the whole message up to it, and on the entry before it. */
  lemma MessageMatches(ms: set<int>, acts: seq<Action>, a: int, m: Message, k: nat)
    requires IsRun(ms, acts) && a in After(ms, acts).nodes
    requires m in After(ms, acts).net && m.typ == MSG_APP && k < |m.entries|
    requires var s := After(ms, acts).nodes[a].log.ents;
             0 <= m.index + 1 + k < |s| && s[m.index + 1 + k].term == m.entries[k].term
    ensures var s := After(ms, acts).nodes[a].log.ents;
            && 0 <= m.index && s[m.index].term == m.logTerm
            && s[m.index + 1..m.index + k + 2] == m.entries[..k + 1]
  {
    RunGood(ms, acts, false);
    var c, h := After(ms, acts), Hist(ms, acts);
    assert AppendGrounded(h, m) && Grounded(h, c.nodes[a].log.ents, c.nodes[a].term);
    MessageAgrees(h, c.nodes[a].log.ents, c.nodes[a].term, m, k);
  }

  lemma MessageAgrees(h: History, s: seq<Entry>, top: int, m: Message, k: nat)
    requires LeaderLogs(h) && Grounded(h, s, top) && AppendGrounded(h, m)
    requires k < |m.entries| && m.index + 1 + k < |s| && s[m.index + 1 + k].term == m.entries[k].term
    ensures 0 <= m.index && s[m.index].term == m.logTerm
    ensures s[m.index + 1..m.index + k + 2] == m.entries[..k + 1]
  {
    var l := h.llog[m.term];
    assert Grounded(h, l, m.term) && m.entries[k] == l[m.index + 1 + k];
    GroundedPrefix(h, s, l, top, m.term, m.index + 1 + k);
    var hi := m.index + k + 2;
    assert s[m.index] == s[..hi][m.index] == l[..hi][m.index];
    assert s[m.index + 1..hi] == s[..hi][m.index + 1..] == l[..hi][m.index + 1..] == l[m.index + 1..hi];
    assert m.entries[..k + 1] == l[m.index + 1..hi];
  }

  // ---- State machine safety ----

  // What a node had committed at some moment is certified at the end of the run.
  lemma CertifiedAtEnd(ms: set<int>, acts: seq<Action>, k: nat, a: int)
    requires IsRun(ms, acts) && FaithfulRun(ms, acts) && k <= |acts|
    requires IsRun(ms, acts[..k]) && a in ms && a in After(ms, acts[..k]).nodes
    ensures var n := After(ms, acts[..k]).nodes[a];
            && Ext(ms, After(ms, acts), Hist(ms, acts))
            && LogShape(n.log)
            && Certified(ms, After(ms, acts), Hist(ms, acts), n.log.ents, n.log.committed, n.term)
  {
    RunGood(ms, acts, true);
    FaithfulUpTo(ms, acts, k);
    RunGood(ms, acts[..k], true);
    RunGrows(ms, acts, k);
    var c, h := After(ms, acts[..k]), Hist(ms, acts[..k]);
    var n := c.nodes[a];
    assert NodeCommit(ms, c, h, a) && NodeShape(ms, a, n);
    CertifiedGrows(ms, c, h, After(ms, acts), Hist(ms, acts), n.log.ents, n.log.ents, n.log.committed, n.term, n.term);
  }

  lemma {:induction false} FaithfulUpTo(ms: set<int>, acts: seq<Action>, k: nat)
    requires IsRun(ms, acts) && FaithfulRun(ms, acts) && k <= |acts|
    ensures IsRun(ms, acts[..k]) && FaithfulRun(ms, acts[..k])
    decreases |acts|
  {
    if k == |acts| {
      assert acts[..k] == acts;
    } else {
      FaithfulPrefix(ms, acts);
      FaithfulUpTo(ms, acts[..|acts| - 1], k);
      assert acts[..|acts| - 1][..k] == acts[..k];
    }
  }

  // Two certified logs agree on everything both certify.
  lemma CertifiedAgree(ms: set<int>, c: Cluster, h: History,
                       s: seq<Entry>, k: int, top: int, s': seq<Entry>, k': int, top': int)
    requires Ext(ms, c, h) && s != [] && s' != [] && s[0] == s'[0]
    requires 0 <= k <= k' && Certified(ms, c, h, s, k, top) && Certified(ms, c, h, s', k', top')
    ensures k < |s| && k < |s'| && s[..k + 1] == s'[..k + 1]
  {
    if k == 0 {
      if k' != 0 {
        var t', n' :| CertifiedBy(ms, c, h, s', k', top', t', n');
      }
    } else {
      var t, n :| CertifiedBy(ms, c, h, s, k, top, t, n);
      var t', n' :| CertifiedBy(ms, c, h, s', k', top', t', n');
      ShorterPrefix(s', h.llog[t'], k' + 1, k + 1);
      if t < t' {
        LeaderCompleteness(ms, c, h, t, n, t');
        ShorterPrefix(h.llog[t'], h.llog[t], n + 1, k + 1);
      } else if t' < t {
        LeaderCompleteness(ms, c, h, t', n', t);
        ShorterPrefix(h.llog[t], h.llog[t'], n' + 1, k + 1);
      }
    }
  }

  lemma CommittedAgree(ms: set<int>, c: Cluster, h: History, na: Node, nb: Node, i: nat)
    requires Ext(ms, c, h) && LogShape(na.log) && LogShape(nb.log)
    requires Certified(ms, c, h, na.log.ents, na.log.committed, na.term)
    requires Certified(ms, c, h, nb.log.ents, nb.log.committed, nb.term)
    requires i <= na.log.committed && i <= nb.log.committed
    ensures na.log.ents[..i + 1] == nb.log.ents[..i + 1]
  {
    var lo := Min(na.log.committed, nb.log.committed);
    if na.log.committed <= nb.log.committed {
      CertifiedAgree(ms, c, h, na.log.ents, na.log.committed, na.term, nb.log.ents, nb.log.committed, nb.term);
    } else {
      CertifiedAgree(ms, c, h, nb.log.ents, nb.log.committed, nb.term, na.log.ents, na.log.committed, na.term);
    }
    ShorterPrefix(na.log.ents, nb.log.ents, lo + 1, i + 1);
  }

  /** No two nodes ever differ at an index both have committed, at whatever moments
      of the run they did so. */
  lemma StateMachineSafety(ms: set<int>, acts: seq<Action>, j: nat, k: nat, a: int, b: int, i: nat)
    requires IsRun(ms, acts) && FaithfulRun(ms, acts) && j <= |acts| && k <= |acts| && a in ms && b in ms
    requires IsRun(ms, acts[..j]) && a in After(ms, acts[..j]).nodes
    requires IsRun(ms, acts[..k]) && b in After(ms, acts[..k]).nodes
    requires i <= After(ms, acts[..j]).nodes[a].log.committed && i <= After(ms, acts[..k]).nodes[b].log.committed
    ensures var s, u := After(ms, acts[..j]).nodes[a].log.ents, After(ms, acts[..k]).nodes[b].log.ents;
            i < |s| && i < |u| && s[..i + 1] == u[..i + 1]
  {
    CertifiedAtEnd(ms, acts, j, a);
    CertifiedAtEnd(ms, acts, k, b);
    var na, nb := After(ms, acts[..j]).nodes[a], After(ms, acts[..k]).nodes[b];
    CommittedAgree(ms, After(ms, acts), Hist(ms, acts), na, nb, i);
  }

  /** In a faithful run no delivery makes a node panic over a committed entry. */
  lemma CommittedConflictUnreachable(ms: set<int>, acts: seq<Action>, m: Message)
    requires IsRun(ms, acts) && FaithfulRun(ms, acts)
    requires m in After(ms, acts).net && m.to in After(ms, acts).nodes
    ensures Response(After(ms, acts), Receive(m)) != Panics(CommittedConflict)
  {
    RunGood(ms, acts, true);
    NoConflictPanic(ms, After(ms, acts), Hist(ms, acts), m);
  }

  lemma NoConflictPanic(ms: set<int>, c: Cluster, h: History, m: Message)
    requires Ext(ms, c, h) && m in c.net && m.to in c.nodes
    ensures Response(c, Receive(m)) != Panics(CommittedConflict)
  {
    var i := m.to;
    var n := c.nodes[i];
    assert MessageShape(ms, c, m) && MessageElection(ms, c, h, m);
    if m.typ == MSG_APP && m.term >= n.term {
      if m.term > n.term {
        FollowGood(ms, c, h, i, m.term, m.from, true);
        NoConflict(ms, Put(c, i, BecomeFollower(n, m.term, m.from), {}), h, i, m);
      } else {
        NoConflict(ms, c, h, i, m);
      }
    } else if m.typ != MSG_APP {
      PanicsOnAppendOnly(Observe(n, Input(Receive(m))), Input(Receive(m)));
    }
  }

  // Only an append message can meet a committed entry.
  lemma PanicsOnAppendOnly(n: Node, m: Message)
    requires m.typ != MSG_APP
    ensures Dispatch(n, m) != Panics(CommittedConflict)
  {
  }

  // ---- Votes within a term ----

  // The votes counted once m is, and whether they win or lose the election.
  predicate Decides(n: Node, m: Message) {
    var votes := Poll(n.votes, m.from, !m.denied);
    m.typ == MSG_VOTE_RESP && (Q(n) == |Granted(votes)| || Q(n) == |votes| - |Granted(votes)|)
  }

  // A message of the node's term or an older one, a proposal, or the heartbeat timer.
  predicate WithinTerm(n: Node, m: Message) {
    m.typ != MSG_HUP && (m.term == n.term || Stale(n, m) || (m.term == 0 && m.typ in {MSG_BEAT, MSG_PROP}))
  }

  /** Within its term, a vote that was given changes if and only if a candidate concedes to a
      leader, or its own election is decided. */
  lemma VoteChanges(n: Node, m: Message)
    requires n.vote != NONE && WithinTerm(n, m) && Step(n, m).Done?
    ensures Step(n, m).node.term == n.term
    ensures Step(n, m).node.vote != n.vote <==>
              !Stale(n, m) && n.role == Candidate && (m.typ == MSG_APP || m.typ == MSG_SNAP || Decides(n, m))
  {
    if !Stale(n, m) {
      match n.role {
        case Leader => LeaderKeepsVote(n, m);
        case Candidate => CandidateVote(n, m);
        case Follower =>
      }
    }
  }

  lemma LeaderKeepsVote(n: Node, m: Message)
    requires StepLeader(n, m).Done?
    ensures StepLeader(n, m).node.vote == n.vote && StepLeader(n, m).node.term == n.term
  {
  }

  lemma CandidateVote(n: Node, m: Message)
    requires n.vote != NONE && n.role == Candidate && StepCandidate(n, m).Done?
    ensures var n' := StepCandidate(n, m).node;
            && n'.vote == (if m.typ == MSG_APP || m.typ == MSG_SNAP || Decides(n, m) then NONE else n.vote)
            && n'.term == if m.typ == MSG_SNAP then m.term else n.term
  {
  }

  /** What is fixed is a vote that was answered: a node that granted its vote in its current
      term is a follower that still has it, and never granted another in that term. */
  lemma GrantedVoteFixed(ms: set<int>, acts: seq<Action>, x: int, y: int, t: int)
    requires IsRun(ms, acts) && x in After(ms, acts).nodes && GrantMsg(x, y, t) in After(ms, acts).net
    ensures After(ms, acts).nodes[x].term == t ==>
              After(ms, acts).nodes[x].role == Follower && After(ms, acts).nodes[x].vote == y
    ensures After(ms, acts).nodes[x].term >= t
    ensures forall z :: GrantMsg(x, z, t) in After(ms, acts).net ==> z == y
  {
    RunGood(ms, acts, false);
    assert MessageShape(ms, After(ms, acts), GrantMsg(x, y, t));
  }

  // ---- When acknowledgements are faithful ----

  /** An acknowledgement is faithful exactly if the sender's whole log is the
      beginning of the log of that term's leader. */
  lemma FaithfulMeansPrefix(ms: set<int>, acts: seq<Action>, a: int, term: int)
    requires IsRun(ms, acts) && a in After(ms, acts).nodes && term in Hist(ms, acts).llog
    ensures FaithfulAck(Hist(ms, acts), term, After(ms, acts).nodes[a].log.ents) <==>
            After(ms, acts).nodes[a].log.ents <= Hist(ms, acts).llog[term]
  {
    RunGood(ms, acts, false);
    var c, h := After(ms, acts), Hist(ms, acts);
    assert Grounded(h, c.nodes[a].log.ents, c.nodes[a].term) && Grounded(h, h.llog[term], term);
    FaithfulPrefixOf(h, c.nodes[a].log.ents, c.nodes[a].term, term);
  }

  lemma FaithfulPrefixOf(h: History, s: seq<Entry>, top: int, term: int)
    requires Grounded(h, s, top) && term in h.llog && Grounded(h, h.llog[term], term)
    ensures FaithfulAck(h, term, s) <==> s <= h.llog[term]
  {
    var l := h.llog[term];
    if FaithfulAck(h, term, s) {
      GroundedPrefix(h, s, l, top, term, |s| - 1);
      assert s[..|s|] == s;
    }
  }

  // The acknowledgement claims no more than the message let the follower check.
  ghost predicate ChecksWhatItClaims(o: Outcome, m: Message) {
    o.Done? ==>
      forall r :: r in o.out && r.typ == MSG_APP_RESP && !r.denied ==> r.index <= m.index + |m.entries|
  }

  // Once its previous entry matches, the message replaces the end of the follower's log, or
  // reaches at least to it.
  predicate Covers(l: Log, m: Message) {
    l.MatchTerm(m.index, m.logTerm) ==>
      l.FindConflict(m.index + 1, m.entries) != -1 || l.LastIndex() <= m.index + |m.entries|
  }

  // The node takes the append message, and does so as a follower.
  predicate TakesAppend(n: Node, m: Message) {
    m.typ == MSG_APP && m.term >= n.term && (m.term > n.term || n.role != Leader)
  }

  // An append message that is about to be taken covers the log it meets.
  ghost predicate CoveredAction(c: Cluster, a: Action)
    requires Actor(a) in c.nodes
  {
    a.Receive? && TakesAppend(c.nodes[a.m.to], a.m) ==> Covers(c.nodes[a.m.to].log, a.m)
  }

  ghost predicate CheckedRun(ms: set<int>, acts: seq<Action>)
    requires IsRun(ms, acts)
  {
    forall k {:trigger acts[k]} :: 0 <= k < |acts| ==>
      && IsRun(ms, acts[..k]) && Enabled(After(ms, acts[..k]), acts[k]) && CoveredAction(After(ms, acts[..k]), acts[k])
  }

  // The log after an accepted message ends with it if there was a conflict.
  lemma AcceptedEnd(l: Log, m: Message)
    requires LogShape(l) && l.MaybeAppend(m.index, m.logTerm, m.commit, m.entries).Accepted?
    ensures var l' := l.MaybeAppend(m.index, m.logTerm, m.commit, m.entries).log;
            l'.LastIndex() ==
            if l.FindConflict(m.index + 1, m.entries) == -1 then l.LastIndex() else m.index + |m.entries|
  {
    ConflictWithin(l, m.index + 1, m.entries);
  }

  // A node that takes an append message acknowledges the end of its log, or nothing.
  lemma AppendAnswer(n: Node, m: Message)
    requires m.term >= 1 && TakesAppend(n, m) && Deliver(n, m).Done?
    ensures var res := n.log.MaybeAppend(m.index, m.logTerm, m.commit, m.entries);
            && (res.Rejected? ==> forall r :: r in Deliver(n, m).out ==> r.denied)
            && (res.Accepted? ==> forall r :: r in Deliver(n, m).out ==>
                                    r.typ == MSG_APP_RESP && !r.denied && r.index == res.log.LastIndex())
            && Deliver(n, m).out != {} && (res.Rejected? || res.Accepted?)
  {
    assert Observe(n, m).log == n.log;
  }

  /** A follower claims only what it checked if and only if the message covers its log, which
      can be told before the message is handled. */
  lemma ClaimsAreCovered(n: Node, m: Message)
    requires LogShape(n.log) && m.term >= 1 && TakesAppend(n, m) && Deliver(n, m).Done?
    ensures ChecksWhatItClaims(Deliver(n, m), m) <==> Covers(n.log, m)
  {
    AppendAnswer(n, m);
    if n.log.MaybeAppend(m.index, m.logTerm, m.commit, m.entries).Accepted? {
      AcceptedEnd(n.log, m);
      var r := Member(Deliver(n, m).out);
    }
  }

  lemma CheckedAccept(ms: set<int>, c: Cluster, h: History, i: int, m: Message)
    requires Inv(ms, c, h) && i in ms && m in c.net && m.typ == MSG_APP
    requires c.nodes[i].log.MaybeAppend(m.index, m.logTerm, m.commit, m.entries).Accepted?
    requires
      c.nodes[i].log.MaybeAppend(m.index, m.logTerm, m.commit, m.entries).log.LastIndex() <= m.index + |m.entries|
    ensures FaithfulAck(h, m.term, c.nodes[i].log.MaybeAppend(m.index, m.logTerm, m.commit, m.entries).log.ents)
  {
    var n := c.nodes[i];
    assert NodeShape(ms, i, n) && Grounded(h, n.log.ents, n.term) && AppendGrounded(h, m);
    var log := n.log.MaybeAppend(m.index, m.logTerm, m.commit, m.entries).log;
    var l := h.llog[m.term];
    var hi := m.index + 1 + |m.entries|;
    AppendAgrees(h, n.log, n.term, m);
    var last := |log.ents| - 1;
    assert log.ents[..hi][last] == l[..hi][last];
  }

  // An acceptance is only ever the answer to an append message.
  lemma AckOrigin(n: Node, m: Message, r: Message)
    requires m.typ != MSG_SNAP && m.typ != MSG_HUP && m.typ != MSG_PROP && m.term >= 1
    requires Deliver(n, m).Done? && r in Deliver(n, m).out && r.typ == MSG_APP_RESP && !r.denied
    ensures m.typ == MSG_APP && r.term == m.term
    ensures var res := n.log.MaybeAppend(m.index, m.logTerm, m.commit, m.entries);
            res.Accepted? && Deliver(n, m).node.log == res.log && r.index == res.log.LastIndex()
  {
    DispatchAck(Observe(n, m), m, r);
  }

  lemma DispatchAck(n: Node, m: Message, r: Message)
    requires m.typ != MSG_SNAP && m.typ != MSG_HUP && m.typ != MSG_PROP && m.term == n.term
    requires Dispatch(n, m).Done? && r in Dispatch(n, m).out && r.typ == MSG_APP_RESP && !r.denied
    ensures m.typ == MSG_APP && r.term == m.term
    ensures var res := n.log.MaybeAppend(m.index, m.logTerm, m.commit, m.entries);
            res.Accepted? && Dispatch(n, m).node.log == res.log && r.index == res.log.LastIndex()
  {
  }

  lemma ProposalNoAck(n: Node, m: Message, r: Message)
    requires m.typ == MSG_PROP || m.typ == MSG_BEAT
    requires Deliver(n, m).Done? && r in Deliver(n, m).out
    ensures r.typ != MSG_APP_RESP
  {
  }

  lemma CampaignNoAck(n: Node, r: Message)
    requires Campaign(n).Done? && r in Campaign(n).out
    ensures r.typ == MSG_VOTE
  {
  }

  // Without an append message there is nothing to acknowledge.
  lemma NoAck(c: Cluster, a: Action, r: Message)
    requires Enabled(c, a) && r in Response(c, a).out
    requires a.Receive? ==> a.m.typ !in {MSG_APP, MSG_SNAP, MSG_HUP} && a.m.term >= 1
    ensures r.typ != MSG_APP_RESP || r.denied
  {
    var n := c.nodes[Actor(a)];
    if a.Refuse? || a.Restart? {
    } else if a.Hup? {
      CampaignNoAck(n, r);
    } else if a.Receive? && a.m.typ != MSG_PROP {
      if r.typ == MSG_APP_RESP && !r.denied {
        AckOrigin(n, a.m, r);
      }
    } else {
      ProposalNoAck(n, Input(a), r);
    }
  }

  // A message that is not taken is not acknowledged.
  lemma NotTaken(n: Node, m: Message)
    requires m.typ == MSG_APP && m.term >= 1 && !TakesAppend(n, m)
    ensures Deliver(n, m).Done? && Deliver(n, m).out == {}
  {
  }

  /** In every reachable state, whatever a node is about to do, it claims only what it checked
      if and only if the message it takes covers its log. */
  lemma CoveredMeansChecked(ms: set<int>, acts: seq<Action>, a: Action)
    requires IsRun(ms, acts) && Enabled(After(ms, acts), a)
    ensures ChecksWhatItClaims(Response(After(ms, acts), a), Input(a)) <==> CoveredAction(After(ms, acts), a)
  {
    RunGood(ms, acts, false);
    ClaimsInside(ms, After(ms, acts), Hist(ms, acts), a);
  }

  lemma ClaimsInside(ms: set<int>, c: Cluster, h: History, a: Action)
    requires Inv(ms, c, h) && Enabled(c, a)
    ensures ChecksWhatItClaims(Response(c, a), Input(a)) <==> CoveredAction(c, a)
  {
    var n := c.nodes[Actor(a)];
    assert NodeShape(ms, Actor(a), n);
    if a.Receive? {
      assert MessageShape(ms, c, a.m);
    }
    if a.Receive? && a.m.typ == MSG_APP {
      assert Response(c, a).out == Deliver(n, a.m).out;
      if TakesAppend(n, a.m) {
        ClaimsAreCovered(n, a.m);
      } else {
        NotTaken(n, a.m);
      }
    } else {
      forall r | r in Response(c, a).out ensures r.typ != MSG_APP_RESP || r.denied {
        NoAck(c, a, r);
      }
    }
  }

  lemma CheckedFaithful(ms: set<int>, c: Cluster, h: History, a: Action)
    requires Inv(ms, c, h) && Enabled(c, a)
    requires ChecksWhatItClaims(Response(c, a), Input(a))
    ensures OutcomeFaithful(h, Response(c, a))
  {
    var i, m, o := Actor(a), Input(a), Response(c, a);
    forall r | r in o.out && r.typ == MSG_APP_RESP && !r.denied
      ensures FaithfulAck(h, r.term, o.node.log.ents)
    {
      if a.Receive? && m.typ == MSG_APP {
        assert MessageShape(ms, c, a.m);
        AckOrigin(c.nodes[i], m, r);
        CheckedAccept(ms, c, h, i, m);
      } else {
        if a.Receive? {
          assert MessageShape(ms, c, a.m);
        }
        NoAck(c, a, r);
      }
    }
  }

  lemma CheckedActionFaithful(ms: set<int>, before: seq<Action>, a: Action)
    requires IsRun(ms, before) && Enabled(After(ms, before), a)
    requires CoveredAction(After(ms, before), a)
    ensures OutcomeFaithful(Hist(ms, before), Response(After(ms, before), a))
  {
    RunGood(ms, before, false);
    ClaimsInside(ms, After(ms, before), Hist(ms, before), a);
    CheckedFaithful(ms, After(ms, before), Hist(ms, before), a);
  }

  /** A run in which every append message covers the log it meets is faithful, so that all of
      the above holds of it. */
  lemma CheckedRunFaithful(ms: set<int>, acts: seq<Action>)
    requires IsRun(ms, acts) && CheckedRun(ms, acts)
    ensures FaithfulRun(ms, acts)
  {
    forall k | 0 <= k < |acts|
      ensures IsRun(ms, acts[..k]) && Enabled(After(ms, acts[..k]), acts[k])
      ensures OutcomeFaithful(Hist(ms, acts[..k]), Response(After(ms, acts[..k]), acts[k]))
    {
      CheckedActionFaithful(ms, acts[..k], acts[k]);
    }
  }
}
