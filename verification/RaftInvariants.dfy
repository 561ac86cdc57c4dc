/** What every reachable cluster state keeps about elections and logs.

    `Vote` is cleared whenever a candidate concedes, so "a node's vote is fixed
    within a term" is false. What is fixed is the vote a follower has answered:
    once node x has granted its vote to c in term t, x stays a follower with vote
    c for as long as it is in term t. */
module RaftInvariants {
  import opened RaftTypes
  import opened RaftLogModel
  import opened RaftNodeModel
  import opened Quorums
  import opened Cluster

  // x grants its vote to c in term t.
  function GrantMsg(x: int, c: int, t: int): Message {
    Blank(MSG_VOTE_RESP, c).(from := x, term := t)
  }

  // x tells the leader l of term t that it holds the log up to k.
  function AckMsg(x: int, l: int, t: int, k: int): Message {
    Blank(MSG_APP_RESP, l).(from := x, term := t, index := k)
  }

  // ---- Shape ----

  predicate LogShape(l: Log) {
    && l.offset == 0
    && l.ents != [] && l.ents[0] == DUMMY_ENTRY
    && 0 <= l.committed <= l.LastIndex()
  }

  predicate NodeShape(ms: set<int>, i: int, n: Node) {
    && n.id == i
    && n.prs.Keys == ms
    && n.term >= 0
    && LogShape(n.log)
    && (forall p :: p in n.prs ==> n.prs[p].next >= 1)
  }

  predicate MessageShape(ms: set<int>, c: Cluster, m: Message)
    requires c.nodes.Keys == ms
  {
    && m.from in ms && m.to in ms
    && 1 <= m.term <= c.nodes[m.from].term
    && m.typ in {MSG_PROP, MSG_APP, MSG_APP_RESP, MSG_VOTE, MSG_VOTE_RESP}
    && (m.typ == MSG_VOTE_RESP && !m.denied ==> m == GrantMsg(m.from, m.to, m.term))
    && (m.typ == MSG_APP_RESP && !m.denied ==> m == AckMsg(m.from, m.to, m.term, m.index) && m.index >= 0)
    && (m.typ == MSG_APP || m.typ == MSG_APP_RESP ==> m.from != m.to)
    && (m.typ == MSG_VOTE ==> m.logTerm < m.term)
  }

  ghost predicate Shape(ms: set<int>, c: Cluster) {
    && ValidMembers(ms)
    && c.nodes.Keys == ms
    && (forall i {:trigger NodeShape(ms, i, c.nodes[i])} :: i in ms ==> NodeShape(ms, i, c.nodes[i]))
    && (forall m {:trigger MessageShape(ms, c, m)} :: m in c.net ==> MessageShape(ms, c, m))
  }

  // ---- Elections ----

  predicate IsLeaderOf(h: History, id: int, term: int) {
    term in h.leader && h.leader[term] == id
  }

  // A leader that has started again, in the term it led: it has its whole log of that term.
  predicate Retired(n: Node, s: seq<Entry>, t: int) {
    n.role == Follower && n.log.ents == s && s != [] && s[|s| - 1].term == t
  }

  ghost predicate ElectedTerm(ms: set<int>, c: Cluster, h: History, t: int)
    requires c.nodes.Keys == ms && t in h.leader
  {
    && t in h.llog && t in h.voters
    && var l := h.leader[t];
    && l in ms
    && 1 <= t <= c.nodes[l].term
    && (c.nodes[l].term == t ==> c.nodes[l].role == Leader || Retired(c.nodes[l], h.llog[t], t))
    && IsMajority(h.voters[t], ms)
    && (forall x :: x in h.voters[t] ==>
          c.nodes[x].term >= t && (x == l || GrantMsg(x, l, t) in c.net))
    && (forall y :: GrantMsg(l, y, t) !in c.net)
  }

  ghost predicate VotesGranted(c: Cluster, i: int)
    requires i in c.nodes
  {
    var n := c.nodes[i];
    forall x :: x in n.votes && n.votes[x] ==> x == i || GrantMsg(x, i, n.term) in c.net
  }

  ghost predicate NodeElection(ms: set<int>, c: Cluster, h: History, i: int)
    requires c.nodes.Keys == ms && i in ms
  {
    var n := c.nodes[i];
    && (n.role == Leader ==> IsLeaderOf(h, i, n.term) && n.term in h.llog && h.llog[n.term] == n.log.ents)
    && (n.role == Candidate ==> n.term >= 1 && n.votes.Keys <= ms && VotesGranted(c, i))
    && (n.lead != NONE ==> IsLeaderOf(h, n.lead, n.term))
  }

  ghost predicate MessageElection(ms: set<int>, c: Cluster, h: History, m: Message)
    requires c.nodes.Keys == ms
  {
    && m.to in ms
    && (m.typ == MSG_VOTE_RESP ==> c.nodes[m.to].term >= m.term)
    && (m.typ == MSG_APP ==> IsLeaderOf(h, m.from, m.term))
    && (m.typ == MSG_APP_RESP || m.typ == MSG_PROP ==> IsLeaderOf(h, m.to, m.term))
  }

  ghost predicate GrantsFixed(ms: set<int>, c: Cluster)
    requires c.nodes.Keys == ms
  {
    && (forall x, y, z, t :: GrantMsg(x, y, t) in c.net && GrantMsg(x, z, t) in c.net ==> y == z)
    && (forall x, y, t :: x in ms && GrantMsg(x, y, t) in c.net && c.nodes[x].term == t ==>
          c.nodes[x].role == Follower && c.nodes[x].vote == y)
  }

  ghost predicate Elections(ms: set<int>, c: Cluster, h: History) {
    && Shape(ms, c)
    && h.leader.Keys == h.llog.Keys == h.voters.Keys
    && (forall t {:trigger ElectedTerm(ms, c, h, t)} :: t in h.leader ==> ElectedTerm(ms, c, h, t))
    && (forall i {:trigger NodeElection(ms, c, h, i)} :: i in ms ==> NodeElection(ms, c, h, i))
    && (forall m {:trigger MessageElection(ms, c, h, m)} :: m in c.net ==> MessageElection(ms, c, h, m))
    && GrantsFixed(ms, c)
  }

  // ---- Logs ----

  // Entry i of log s was made by the leader of its term, and the log up to there is that leader's.
  predicate EntryGrounded(h: History, s: seq<Entry>, i: int, top: int)
    requires 0 <= i < |s|
  {
    && s[i].index == i
    && 1 <= s[i].term <= top
    && s[i].term in h.llog
    && i < |h.llog[s[i].term]|
    && s[..i + 1] == h.llog[s[i].term][..i + 1]
  }

  predicate Grounded(h: History, s: seq<Entry>, top: int) {
    && s != [] && s[0] == DUMMY_ENTRY
    && (forall i {:trigger EntryGrounded(h, s, i, top)} :: 1 <= i < |s| ==> EntryGrounded(h, s, i, top))
  }

  // The entries of an append message are a piece of the log of its term's leader.
  // A leader whose peer claimed more than the leader holds sends the term -1 and no entries.
  predicate AppendGrounded(h: History, m: Message) {
    && m.term in h.llog
    && var l := h.llog[m.term];
    && ((m.logTerm == -1 && m.entries == []) ||
        (&& 0 <= m.index && m.index + |m.entries| < |l|
         && m.logTerm == l[m.index].term
         && m.entries == l[m.index + 1..m.index + 1 + |m.entries|]))
  }

  ghost predicate Logs(ms: set<int>, c: Cluster, h: History)
    requires c.nodes.Keys == ms
  {
    && (forall t {:trigger Grounded(h, h.llog[t], t)} :: t in h.llog ==> Grounded(h, h.llog[t], t))
    && (forall i {:trigger Grounded(h, c.nodes[i].log.ents, c.nodes[i].term)} :: i in ms ==>
          Grounded(h, c.nodes[i].log.ents, c.nodes[i].term))
    && (forall m {:trigger AppendGrounded(h, m)} :: m in c.net && m.typ == MSG_APP ==> AppendGrounded(h, m))
  }

  ghost predicate Inv(ms: set<int>, c: Cluster, h: History) {
    Elections(ms, c, h) && Logs(ms, c, h)
  }

  // Histories only grow: leaders and voters of a term stay, leader logs are extended.
  ghost predicate Grows(h: History, h': History) {
    && (forall t :: t in h.leader ==> t in h'.leader && h'.leader[t] == h.leader[t])
    && (forall t :: t in h.voters ==> t in h'.voters && h'.voters[t] == h.voters[t])
    && (forall t :: t in h.llog ==> t in h'.llog && h.llog[t] <= h'.llog[t])
  }

  lemma GroundedGrows(h: History, h': History, s: seq<Entry>, top: int, top': int)
    requires Grows(h, h') && Grounded(h, s, top) && top <= top'
    ensures Grounded(h', s, top')
  {
    forall i | 1 <= i < |s| ensures EntryGrounded(h', s, i, top') {
      assert EntryGrounded(h, s, i, top);
      var l, l' := h.llog[s[i].term], h'.llog[s[i].term];
      assert l[..i + 1] == l'[..i + 1];
    }
  }

  // A log and an append message agree on everything before an entry they agree on.
  lemma GroundedPrefix(h: History, s: seq<Entry>, u: seq<Entry>, top: int, top': int, i: nat)
    requires Grounded(h, s, top) && Grounded(h, u, top')
    requires i < |s| && i < |u| && s[i].term == u[i].term
    ensures s[..i + 1] == u[..i + 1]
  {
    if i > 0 {
      assert EntryGrounded(h, s, i, top) && EntryGrounded(h, u, i, top');
    }
  }

  lemma GroundedTerms(h: History, s: seq<Entry>, top: int, i: nat, j: nat)
    requires forall t :: t in h.llog ==> Grounded(h, h.llog[t], t)
    requires Grounded(h, s, top) && i <= j < |s|
    ensures 0 <= s[i].term <= s[j].term
    ensures i > 0 ==> s[i].term > 0
  {
    if 0 < i {
      assert EntryGrounded(h, s, i, top) && EntryGrounded(h, s, j, top);
      var l := h.llog[s[j].term];
      assert l[..j + 1][i] == l[i] == s[i];
      assert EntryGrounded(h, l, i, s[j].term);
    } else if j > 0 {
      assert EntryGrounded(h, s, j, top);
    }
  }
}
