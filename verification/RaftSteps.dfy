/** Each small step of a node keeps the election and log invariants. Every call
    of `Step` is a composition of these. */
module RaftSteps {
  import opened RaftTypes
  import opened RaftLogModel
  import opened RaftNodeModel
  import opened Quorums
  import opened Cluster
  import opened RaftInvariants
  import opened RaftFrames
  import opened LogMatching

  lemma ResetShape(ms: set<int>, i: int, n: Node, term: int)
    requires NodeShape(ms, i, n) && term >= 0
    ensures NodeShape(ms, i, Reset(n, term))
  {
    assert Reset(n, term).prs.Keys == n.prs.Keys;
  }

  // Adopting a larger term, or giving up a candidacy within a term.
  lemma FollowKeeps(ms: set<int>, c: Cluster, h: History, i: int, term: int, lead: int)
    requires Inv(ms, c, h) && i in ms
    requires term > c.nodes[i].term || (term == c.nodes[i].term && c.nodes[i].role == Candidate)
    requires lead != NONE ==> IsLeaderOf(h, lead, term)
    ensures Inv(ms, Put(c, i, BecomeFollower(c.nodes[i], term, lead), {}), h)
  {
    assert NodeShape(ms, i, c.nodes[i]);
    PlainStep(ms, c, h, i, BecomeFollower(c.nodes[i], term, lead), {});
  }

  // Starting a candidacy: a new term, a vote for oneself, and requests to the others.
  lemma CandidateKeeps(ms: set<int>, c: Cluster, h: History, i: int)
    requires Inv(ms, c, h) && i in ms && c.nodes[i].role != Leader
    ensures var n := BecomeCandidate(c.nodes[i]).(votes := map[i := true]);
            Inv(ms, Put(c, i, n, RequestVotes(n).out), h)
  {
    var n0 := c.nodes[i];
    assert NodeShape(ms, i, n0);
    ResetShape(ms, i, n0, n0.term + 1);
    var n := BecomeCandidate(n0).(votes := map[i := true]);
    var out := RequestVotes(n).out;
    var c' := Put(c, i, n, out);
    assert Grounded(h, n0.log.ents, n0.term);
    var last := n0.log.LastIndex();
    assert last > 0 ==> EntryGrounded(h, n0.log.ents, last, n0.term);
    forall m | m in out
      ensures m.typ == MSG_VOTE && MessageShape(ms, c', m)
    {
      var to :| to in Peers(n) && m == VoteRequest(n, to);
    }
    assert VotesGranted(c', i);
    PlainStep(ms, c, h, i, n, out);
  }

  // Counting an answer.
  lemma PollKeeps(ms: set<int>, c: Cluster, h: History, i: int, x: int, v: bool)
    requires Inv(ms, c, h) && i in ms && x in ms && c.nodes[i].role == Candidate
    requires v ==> GrantMsg(x, i, c.nodes[i].term) in c.net
    ensures var n := c.nodes[i];
            Inv(ms, Put(c, i, n.(votes := Poll(n.votes, x, v)), {}), h)
  {
    assert NodeShape(ms, i, c.nodes[i]) && NodeElection(ms, c, h, i);
    var n := c.nodes[i].(votes := Poll(c.nodes[i].votes, x, v));
    PlainStep(ms, c, h, i, n, {});
  }

  // ---- Messages without a change of state ----

  // A refusal, or a proposal passed on to the leader.
  lemma ReplyKeeps(ms: set<int>, c: Cluster, h: History, i: int, m: Message)
    requires Inv(ms, c, h) && i in ms
    requires m == Stamp(c.nodes[i], m) && m.term >= 1 && m.to in ms
    requires m.typ == MSG_PROP || ((m.typ == MSG_VOTE_RESP || m.typ == MSG_APP_RESP) && m.denied)
    requires MessageElection(ms, c, h, m) && (m.typ == MSG_APP_RESP ==> m.to != i)
    ensures Inv(ms, Put(c, i, c.nodes[i], {m}), h)
  {
    assert NodeShape(ms, i, c.nodes[i]) && NodeElection(ms, c, h, i);
    PlainStep(ms, c, h, i, c.nodes[i], {m});
  }

  predicate IsAppendOrBeat(n: Node, m: Message) {
    m.to in n.prs && m.to != n.id && (m == AppendMessage(n, m.to) || m == Heartbeat(n, m.to))
  }

  lemma LeaderMessageGrounded(ms: set<int>, c: Cluster, h: History, i: int, m: Message)
    requires Inv(ms, c, h) && i in ms && c.nodes[i].role == Leader
    requires IsAppendOrBeat(c.nodes[i], m)
    ensures m.typ == MSG_APP && AppendGrounded(h, m)
  {
    var n := c.nodes[i];
    assert NodeShape(ms, i, n) && NodeElection(ms, c, h, i);
    if m == AppendMessage(n, m.to) {
      var prev := n.prs[m.to].next - 1;
      if prev <= n.log.LastIndex() {
        assert m.entries == n.log.ents[prev + 1..];
      }
    }
  }

  // A leader sends entries or heartbeats.
  lemma SendKeeps(ms: set<int>, c: Cluster, h: History, i: int, out: set<Message>)
    requires Inv(ms, c, h) && i in ms && c.nodes[i].role == Leader
    requires forall m :: m in out ==> IsAppendOrBeat(c.nodes[i], m)
    ensures Inv(ms, Put(c, i, c.nodes[i], out), h)
  {
    var n := c.nodes[i];
    assert NodeShape(ms, i, n) && NodeElection(ms, c, h, i);
    var c' := Put(c, i, n, out);
    forall m | m in out
      ensures m.typ == MSG_APP && AppendGrounded(h, m)
      ensures MessageShape(ms, c', m) && MessageElection(ms, c', h, m)
    {
      LeaderMessageGrounded(ms, c, h, i, m);
      assert ElectedTerm(ms, c, h, n.term);
    }
    PlainStep(ms, c, h, i, n, out);
  }

  // ---- Voting ----

  lemma GrantKeeps(ms: set<int>, c: Cluster, h: History, i: int, m: Message)
    requires Inv(ms, c, h) && i in ms && m in c.net && m.typ == MSG_VOTE
    requires var n := c.nodes[i];
             && n.role == Follower && m.term == n.term && (n.vote == NONE || n.vote == m.from)
             && n.log.ents != [] && n.log.IsUpToDate(m.index, m.logTerm)
    ensures Inv(ms, Put(c, i, c.nodes[i].(vote := m.from), {GrantMsg(i, m.from, m.term)}), h)
  {
    var n := c.nodes[i];
    assert NodeShape(ms, i, n) && NodeElection(ms, c, h, i) && MessageShape(ms, c, m);
    assert n.term in h.leader ==> ElectedTerm(ms, c, h, n.term);
    PlainStep(ms, c, h, i, n.(vote := m.from), {GrantMsg(i, m.from, m.term)});
  }

  /** A candidate with a majority wins a term nobody has won before: two majorities
      share a voter, and no node grants two candidates its vote in one term. */
  lemma FreshTerm(ms: set<int>, c: Cluster, h: History, i: int)
    requires Inv(ms, c, h) && i in ms && c.nodes[i].role == Candidate
    requires IsMajority(Granted(c.nodes[i].votes), ms)
    ensures c.nodes[i].term !in h.leader
  {
    var n := c.nodes[i];
    assert NodeElection(ms, c, h, i);
    assert n.term in h.leader ==> ElectedTerm(ms, c, h, n.term);
    if n.term in h.leader {
      var x := MajoritiesMeet(h.voters[n.term], Granted(n.votes), ms);
    }
  }

  function LeaderNode(n: Node, pending: bool): Node {
    Reset(n, n.term).(lead := n.id, role := Leader, pendingConf := pending)
  }

  lemma ElectedNow(ms: set<int>, c: Cluster, h: History, i: int, pending: bool)
    requires Inv(ms, c, h) && i in ms && c.nodes[i].role == Candidate
    requires IsMajority(Granted(c.nodes[i].votes), ms)
    ensures var n := c.nodes[i];
            ElectedTerm(ms, Put(c, i, LeaderNode(n, pending), {}),
                        Elect(h, n.term, i, n.log.ents, Granted(n.votes)), n.term)
  {
    var n := c.nodes[i];
    assert NodeElection(ms, c, h, i);
    forall x | x in Granted(n.votes)
      ensures c.nodes[x].term >= n.term && (x == i || GrantMsg(x, i, n.term) in c.net)
    {
      if x != i {
        assert MessageShape(ms, c, GrantMsg(x, i, n.term));
      }
    }
  }

  lemma ElectKeeps(ms: set<int>, c: Cluster, h: History, i: int, pending: bool)
    requires Inv(ms, c, h) && i in ms && c.nodes[i].role == Candidate
    requires IsMajority(Granted(c.nodes[i].votes), ms)
    ensures var n := c.nodes[i];
            Inv(ms, Put(c, i, LeaderNode(n, pending), {}),
                Elect(h, n.term, i, n.log.ents, Granted(n.votes)))
    ensures c.nodes[i].term !in h.leader
  {
    var n := c.nodes[i];
    var l := LeaderNode(n, pending);
    var h' := Elect(h, n.term, i, n.log.ents, Granted(n.votes));
    ElectElections(ms, c, h, i, pending);
    assert NodeShape(ms, i, n);
    assert GrowsAt(h, h', i, n.term);
    GroundedGrows(h, h', n.log.ents, n.term, n.term);
    LogsStep(ms, c, h, i, l, {}, h');
  }

  lemma LeaderShape(ms: set<int>, c: Cluster, h: History, i: int, pending: bool)
    requires Inv(ms, c, h) && i in ms
    ensures Shape(ms, Put(c, i, LeaderNode(c.nodes[i], pending), {}))
  {
    var n := c.nodes[i];
    assert NodeShape(ms, i, n);
    ResetShape(ms, i, n, n.term);
    ShapeStep(ms, c, i, LeaderNode(n, pending), {});
  }

  lemma ElectElections(ms: set<int>, c: Cluster, h: History, i: int, pending: bool)
    requires Inv(ms, c, h) && i in ms && c.nodes[i].role == Candidate
    requires IsMajority(Granted(c.nodes[i].votes), ms)
    ensures var n := c.nodes[i];
            Elections(ms, Put(c, i, LeaderNode(n, pending), {}), Elect(h, n.term, i, n.log.ents, Granted(n.votes)))
    ensures c.nodes[i].term !in h.leader
  {
    var n := c.nodes[i];
    var l := LeaderNode(n, pending);
    var h' := Elect(h, n.term, i, n.log.ents, Granted(n.votes));
    FreshTerm(ms, c, h, i);
    ElectedNow(ms, c, h, i, pending);
    LeaderShape(ms, c, h, i, pending);
    assert NodeShape(ms, i, n);
    assert GrantsStep(c, h', i, l, {});
    assert GrowsAt(h, h', i, n.term);
    ElectionsStep(ms, c, h, i, l, {}, h');
  }

  // ---- Leading ----

  // The entry a leader makes out of a proposal, and its log with that entry.
  function Made(n: Node, e: Entry): Entry {
    e.(term := n.term, index := n.log.LastIndex() + 1)
  }

  function WithEntry(n: Node, e: Entry): Node {
    var log := n.log.Append(n.log.LastIndex(), [Made(n, e)]);
    n.(log := log, prs := n.prs[n.id := Updated(log.LastIndex())])
  }

  lemma WithEntryLog(ms: set<int>, i: int, n: Node, e: Entry)
    requires NodeShape(ms, i, n)
    ensures WithEntry(n, e).log.ents == n.log.ents + [Made(n, e)]
    ensures i in ms ==> NodeShape(ms, i, WithEntry(n, e))
  {
    var last := n.log.LastIndex();
    assert n.log.Slice(0, last + 1) == n.log.ents;
  }

  lemma LeaderAppendKeeps(ms: set<int>, c: Cluster, h: History, i: int, e: Entry)
    requires Inv(ms, c, h) && i in ms && c.nodes[i].role == Leader
    ensures var n := WithEntry(c.nodes[i], e);
            Inv(ms, Put(c, i, n, {}), Extend(h, n.term, n.log.ents))
  {
    var n0 := c.nodes[i];
    var n := WithEntry(n0, e);
    var h' := Extend(h, n.term, n.log.ents);
    assert NodeShape(ms, i, n0) && NodeElection(ms, c, h, i);
    WithEntryLog(ms, i, n0, e);
    assert n0.log.ents <= n.log.ents;
    assert GrowsAt(h, h', i, n.term);
    ShapeStep(ms, c, i, n, {});
    assert GrantsStep(c, h', i, n, {});
    ElectionsStep(ms, c, h, i, n, {}, h');
    assert ElectedTerm(ms, c, h, n.term);
    assert Grounded(h, n0.log.ents, n0.term);
    GroundedGrows(h, h', n0.log.ents, n0.term, n0.term);
    forall k | 1 <= k < |n.log.ents| ensures EntryGrounded(h', n.log.ents, k, n.term) {
      if k < |n0.log.ents| {
        assert EntryGrounded(h', n0.log.ents, k, n0.term);
        assert n.log.ents[..k + 1] == n0.log.ents[..k + 1];
      }
    }
    LogsStep(ms, c, h, i, n, {}, h');
  }

  // Bookkeeping at the leader: progress and commit index.
  lemma LeaderUpdateKeeps(ms: set<int>, c: Cluster, h: History, i: int, n: Node)
    requires Inv(ms, c, h) && i in ms && c.nodes[i].role == Leader && NodeShape(ms, i, n)
    requires var n0 := c.nodes[i];
             n == n0.(log := n0.log.(committed := n.log.committed), prs := n.prs, pendingConf := n.pendingConf)
    ensures Inv(ms, Put(c, i, n, {}), h)
  {
    assert NodeElection(ms, c, h, i);
    PlainStep(ms, c, h, i, n, {});
  }

  // Recording the commit index for stable storage.
  lemma RecordKeeps(ms: set<int>, c: Cluster, h: History, i: int, k: int)
    requires Inv(ms, c, h) && i in ms
    ensures Inv(ms, Put(c, i, c.nodes[i].(commit := k), {}), h)
  {
    assert NodeShape(ms, i, c.nodes[i]) && NodeElection(ms, c, h, i);
    PlainStep(ms, c, h, i, c.nodes[i].(commit := k), {});
  }

  // ---- Following ----

  function Followed(n: Node, lead: int, log: Log): Node { n.(lead := lead, log := log) }

  lemma AcceptKeeps(ms: set<int>, c: Cluster, h: History, i: int, m: Message)
    requires Inv(ms, c, h) && i in ms && m in c.net && m.typ == MSG_APP && m.to == i
    requires c.nodes[i].role == Follower && m.term == c.nodes[i].term
    requires c.nodes[i].log.MaybeAppend(m.index, m.logTerm, m.commit, m.entries).Accepted?
    ensures var log := c.nodes[i].log.MaybeAppend(m.index, m.logTerm, m.commit, m.entries).log;
            Inv(ms, Put(c, i, Followed(c.nodes[i], m.from, log), {AckMsg(i, m.from, m.term, log.LastIndex())}), h)
  {
    var n0 := c.nodes[i];
    var log := n0.log.MaybeAppend(m.index, m.logTerm, m.commit, m.entries).log;
    var n := Followed(n0, m.from, log);
    var out := {AckMsg(i, m.from, m.term, log.LastIndex())};
    assert NodeShape(ms, i, n0) && NodeElection(ms, c, h, i);
    assert MessageShape(ms, c, m) && MessageElection(ms, c, h, m) && AppendGrounded(h, m);
    assert Grounded(h, n0.log.ents, n0.term);
    AppendAgrees(h, n0.log, n0.term, m);
    AppendGroundsLog(h, n0.log, n0.term, m);
    ShapeStep(ms, c, i, n, out);
    assert GrantsStep(c, h, i, n, out);
    ElectionsStep(ms, c, h, i, n, out, h);
    assert m.term in h.llog ==> Grounded(h, h.llog[m.term], m.term);
    LogsStep(ms, c, h, i, n, out, h);
  }

  // ---- Starting again ----

  lemma RestartKeeps(ms: set<int>, c: Cluster, h: History, i: int)
    requires Inv(ms, c, h) && i in ms && LeadsOwn(c.nodes[i])
    ensures Inv(ms, Put(c, i, Restarted(c.nodes[i]), {}), h)
  {
    var n := c.nodes[i];
    assert NodeShape(ms, i, n) && NodeElection(ms, c, h, i);
    RestartShape(ms, i, n);
    PlainStep(ms, c, h, i, Restarted(n), {});
  }

  // A leader's log ends with an entry of its own term.
  predicate LeadsOwn(n: Node) {
    n.role == Leader ==> n.log.ents != [] && n.log.ents[|n.log.ents| - 1].term == n.term
  }

  lemma RestartShape(ms: set<int>, i: int, n: Node)
    requires NodeShape(ms, i, n)
    ensures var r := Restarted(n);
            && NodeShape(ms, i, r) && r.log.ents == n.log.ents && r.log.committed == n.log.committed
            && r.role == Follower && r.term == n.term && r.vote == n.vote && r.lead == NONE
  {
    assert Restarted(n).prs.Keys == n.prs.Keys;
  }
}
