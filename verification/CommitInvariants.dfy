/** What every reachable cluster state keeps about acknowledged and committed
    entries, in runs whose acknowledgements are faithful.

    An entry acknowledged by a node may be overwritten later, by a leader that
    never had it. The invariants therefore name the culprit: an acknowledged prefix
    is still in the node's log, or some later leader lacked it. The same holds of
    the logs of candidates that were granted votes and of elected leaders, with
    earlier and earlier culprits, so a prefix acknowledged by a majority has none. */
module CommitInvariants {
  import opened RaftTypes
  import opened RaftLogModel
  import opened RaftNodeModel
  import opened Quorums
  import opened Cluster
  import opened RaftInvariants

  // Entry n of the log of t's leader was made in term t.
  predicate Owned(h: History, t: int, n: int) {
    t in h.llog && 0 <= n < |h.llog[t]| && h.llog[t][n].term == t
  }

  // Log s holds everything up to entry n of t's leader.
  predicate HasPrefix(s: seq<Entry>, h: History, t: int, n: int) {
    && t in h.llog && 0 <= n < |h.llog[t]|
    && n < |s| && s[..n + 1] == h.llog[t][..n + 1]
  }

  // x has acknowledged entry n in term t; a leader holds its own entries.
  ghost predicate Acked(c: Cluster, h: History, x: int, t: int, n: int) {
    && t in h.leader && t in h.llog
    && (|| (exists k :: k >= n && AckMsg(x, h.leader[t], t, k) in c.net)
        || (x == h.leader[t] && n < |h.llog[t]|))
  }

  // Some leader elected after t, and no later than hi, lacked entry n of t's leader.
  ghost predicate Culprit(h: History, t: int, hi: int, n: int) {
    exists u :: t < u <= hi && u in h.llog && !HasPrefix(h.llog[u], h, t, n)
  }

  // ---- Acknowledged entries survive, or have a culprit ----

  ghost predicate NodeHolds(c: Cluster, h: History, x: int)
    requires x in c.nodes
  {
    forall t, n {:trigger Acked(c, h, x, t, n)} ::
      Owned(h, t, n) && Acked(c, h, x, t, n) ==>
        HasPrefix(c.nodes[x].log.ents, h, t, n) || Culprit(h, t, c.nodes[x].term, n)
  }

  // What x acknowledged before voting for candidate y is in y's log.
  ghost predicate GrantBacked(c: Cluster, h: History, y: int, x: int)
    requires y in c.nodes
  {
    var n0 := c.nodes[y];
    n0.role == Candidate && GrantMsg(x, y, n0.term) in c.net ==>
      forall t, n {:trigger Acked(c, h, x, t, n)} ::
        t < n0.term && Owned(h, t, n) && Acked(c, h, x, t, n) ==>
          HasPrefix(n0.log.ents, h, t, n) || Culprit(h, t, n0.term, n)
  }

  // What voter x acknowledged before u is in the log of u's leader.
  ghost predicate VoterBacked(c: Cluster, h: History, u: int, x: int) {
    u in h.llog && u in h.voters && x in h.voters[u] ==>
      forall t, n {:trigger Acked(c, h, x, t, n)} ::
        t < u && Owned(h, t, n) && Acked(c, h, x, t, n) ==>
          HasPrefix(h.llog[u], h, t, n) || Culprit(h, t, u - 1, n)
  }

  // An acknowledgement stays within the leader's log.
  predicate AckBounded(h: History, m: Message) {
    m.typ == MSG_APP_RESP && !m.denied ==> m.term in h.llog && m.index < |h.llog[m.term]|
  }

  // A vote request tells the last entry of a candidate that is still running.
  predicate RequestTrue(c: Cluster, m: Message) {
    m.typ == MSG_VOTE && m.from in c.nodes && c.nodes[m.from].role == Candidate && c.nodes[m.from].term == m.term ==>
      m.index == c.nodes[m.from].log.LastIndex() && m.logTerm == c.nodes[m.from].log.Term(m.index)
  }

  ghost predicate Retention(ms: set<int>, c: Cluster, h: History)
    requires c.nodes.Keys == ms
  {
    && (forall x {:trigger NodeHolds(c, h, x)} :: x in ms ==> NodeHolds(c, h, x))
    && (forall y, x {:trigger GrantBacked(c, h, y, x)} :: y in ms ==> GrantBacked(c, h, y, x))
    && (forall u, x {:trigger VoterBacked(c, h, u, x)} :: VoterBacked(c, h, u, x))
    && (forall m {:trigger AckBounded(h, m)} :: m in c.net ==> AckBounded(h, m))
    && (forall m {:trigger RequestTrue(c, m)} :: m in c.net ==> RequestTrue(c, m))
  }

  // ---- Commit indexes ----

  ghost function AckSet(ms: set<int>, c: Cluster, h: History, t: int, n: int): set<int> {
    set x | x in ms && Acked(c, h, x, t, n)
  }

  // A majority has acknowledged an entry of term t in term t.
  ghost predicate Chosen(ms: set<int>, c: Cluster, h: History, t: int, n: int) {
    Owned(h, t, n) && IsMajority(AckSet(ms, c, h, t, n), ms)
  }

  ghost predicate CertifiedBy(ms: set<int>, c: Cluster, h: History, s: seq<Entry>, k: int, top: int, t: int, n: int) {
    t <= top && k <= n && Chosen(ms, c, h, t, n) && HasPrefix(s, h, t, k)
  }

  // Log s may be committed up to k by a node in term top.
  ghost predicate Certified(ms: set<int>, c: Cluster, h: History, s: seq<Entry>, k: int, top: int) {
    k == 0 || exists t, n :: CertifiedBy(ms, c, h, s, k, top, t, n)
  }

  ghost predicate NodeCommit(ms: set<int>, c: Cluster, h: History, i: int)
    requires i in c.nodes
  {
    Certified(ms, c, h, c.nodes[i].log.ents, c.nodes[i].log.committed, c.nodes[i].term)
  }

  // An append message that can be accepted commits no more than it checks.
  ghost predicate MessageCommit(ms: set<int>, c: Cluster, h: History, m: Message) {
    m.typ == MSG_APP && m.logTerm != -1 ==>
      && m.term in h.llog
      && 0 <= m.commit <= m.index + |m.entries|
      && Certified(ms, c, h, h.llog[m.term], m.commit, m.term)
  }

  // A leader's progress only claims what was acknowledged.
  ghost predicate ProgressTrue(c: Cluster, h: History, i: int)
    requires i in c.nodes
  {
    var n := c.nodes[i];
    n.role == Leader ==>
      forall x {:trigger n.prs[x]} :: x in n.prs && n.prs[x].matched > 0 ==> Acked(c, h, x, n.term, n.prs[x].matched)
  }

  ghost predicate Commits(ms: set<int>, c: Cluster, h: History)
    requires c.nodes.Keys == ms
  {
    && (forall i {:trigger NodeCommit(ms, c, h, i)} :: i in ms ==> NodeCommit(ms, c, h, i))
    && (forall m {:trigger MessageCommit(ms, c, h, m)} :: m in c.net ==> MessageCommit(ms, c, h, m))
    && (forall i {:trigger ProgressTrue(c, h, i)} :: i in ms ==> ProgressTrue(c, h, i))
  }

  // ---- Leader completeness ----

  /** Once a majority has acknowledged an entry of its term, every later leader has it. */
  lemma {:induction false} LeaderCompleteness(ms: set<int>, c: Cluster, h: History, t: int, n: int, u: int)
    requires Inv(ms, c, h) && Retention(ms, c, h)
    requires Chosen(ms, c, h, t, n) && u in h.leader && t < u
    ensures HasPrefix(h.llog[u], h, t, n)
    decreases u
  {
    assert ElectedTerm(ms, c, h, u);
    var x := MajoritiesMeet(AckSet(ms, c, h, t, n), h.voters[u], ms);
    assert VoterBacked(c, h, u, x);
    if Culprit(h, t, u - 1, n) {
      var v :| t < v <= u - 1 && v in h.llog && !HasPrefix(h.llog[v], h, t, n);
      LeaderCompleteness(ms, c, h, t, n, v);
    }
  }
}
