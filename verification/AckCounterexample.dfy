/** Without faithful acknowledgements committed entries can differ: a run of three nodes in
    which two of them commit different entries at index 1. A follower that kept an entry of
    an old leader acknowledges its whole log when it answers a heartbeat, and the new leader
    takes that for agreement. */
module AckCounterexample {
  import opened Collections
  import opened RaftTypes
  import opened RaftLogModel
  import opened RaftNodeModel
  import opened Quorums
  import opened Cluster

  // ---- Single calls ----

  function Candidacy(n: Node): Node {
    BecomeCandidate(n).(votes := map[n.id := true], commit := n.log.committed)
  }

  // A follower among three members starts a campaign.
  lemma HupAt(n: Node, m: Message, to: int)
    requires n.role == Follower && n.term >= 0 && |n.prs| == 3 && to in n.prs && to != n.id
    requires m == Blank(MSG_HUP, NONE).(from := n.id)
    ensures Step(n, m).Done? && Step(n, m).node == Candidacy(n)
    ensures VoteRequest(Candidacy(n), to) in Step(n, m).out
  {
    var c := BecomeCandidate(n);
    assert c.prs.Keys == n.prs.Keys;
    var c1 := c.(votes := Poll(c.votes, c.id, true));
    assert c1.votes == map[n.id := true];
    assert Granted(c1.votes) == {n.id};
    assert Campaign(n) == RequestVotes(c1);
    assert to in Peers(c1) && VoteRequest(Candidacy(n), to) == VoteRequest(c1, to);
    HupSendsNothing(c1, m);
  }

  function Grant(n: Node, m: Message): Node {
    BecomeFollower(n, m.term, NONE).(vote := m.from, commit := n.log.committed)
  }

  // A vote request of a larger term with an up-to-date log is granted.
  lemma VoteAt(n: Node, m: Message)
    requires m.typ == MSG_VOTE && m.term > n.term >= 0 && n.log.ents != [] && n.log.IsUpToDate(m.index, m.logTerm)
    ensures Step(n, m).Done? && Step(n, m).node == Grant(n, m)
    ensures Stamp(Grant(n, m), Blank(MSG_VOTE_RESP, m.from)) in Step(n, m).out
  {
  }

  function Elected(n: Node): Node {
    Reset(n, n.term).(lead := n.id, role := Leader)
  }

  // The second vote makes a candidate of three the leader; it appends an entry of its own.
  lemma WinAt(n: Node, m: Message)
    requires n.role == Candidate && n.votes == map[n.id := true] && |n.prs| == 3 && n.id in n.prs && n.term >= 1
    requires m.typ == MSG_VOTE_RESP && m.term == n.term && m.from != n.id && !m.denied
    requires n.log.offset == 0 && n.log.committed == 0 && ConfChanges(n.log.Slice(1, n.log.LastIndex() + 1)) == 0
    requires n.log.LastIndex() >= 0
    ensures n.id in Elected(n).prs
    ensures Step(n, m).Done?
    ensures var l := AppendEntry(Elected(n), DUMMY_ENTRY); Step(n, m).node == l.(commit := l.log.committed)
  {
    PollAt(n, m);
    NoPanic(AppendEntry(Elected(n), DUMMY_ENTRY));
  }

  lemma PollAt(n: Node, m: Message)
    requires n.votes == map[n.id := true] && |n.prs| == 3 && n.id in n.prs && n.role == Candidate
    requires m.from != n.id && !m.denied && n.log.offset == 0 && n.log.committed == 0 && n.log.LastIndex() >= 0
    requires ConfChanges(n.log.Slice(1, n.log.LastIndex() + 1)) == 0
    ensures n.id in Elected(n).prs && CandidatePoll(n, m) == BcastAppend(AppendEntry(Elected(n), DUMMY_ENTRY))
    ensures forall i :: i in AppendEntry(Elected(n), DUMMY_ENTRY).prs ==>
              AppendEntry(Elected(n), DUMMY_ENTRY).prs[i].next >= 1
  {
    var c := n.(votes := Poll(n.votes, m.from, !m.denied));
    assert Granted(c.votes) == {n.id, m.from};
    assert Elected(n).prs.Keys == n.prs.Keys;
    var l := AppendEntry(Elected(n), DUMMY_ENTRY);
    assert Reset(c, c.term) == Reset(n, n.term);
    assert BecomeLeader(c) == Quiet(l);
  }

  lemma NoPanic(l: Node)
    requires l.log.offset == 0 && forall i :: i in l.prs ==> l.prs[i].next >= 1
    ensures BcastAppend(l).Done? && BcastAppend(l).node == l
  {
  }

  lemma BeatAt(n: Node, m: Message, to: int)
    requires n.role == Leader && n.commit == n.log.committed && n.term >= 1 && to in n.prs && to != n.id
    requires m == Blank(MSG_BEAT, NONE).(from := n.id)
    ensures Step(n, m).Done? && Step(n, m).node == n && Heartbeat(n, to) in Step(n, m).out
  {
  }

  function Deposed(n: Node, m: Message): Node {
    BecomeFollower(n, m.term, m.from).(commit := n.log.committed)
  }

  // A heartbeat of a larger term is accepted, and answered with the whole log.
  lemma HeartbeatAt(n: Node, m: Message)
    requires m.typ == MSG_APP && m.term > n.term >= 0 && m.index == 0 && m.logTerm == 0 && m.entries == [] &&
             m.commit == 0
    requires n.log.offset == 0 && n.log.ents != [] && n.log.ents[0].term == 0 && n.log.committed >= 0
    ensures Step(n, m).Done? && Step(n, m).node == Deposed(n, m)
    ensures Stamp(Deposed(n, m), Blank(MSG_APP_RESP, m.from).(index := n.log.LastIndex())) in Step(n, m).out
  {
    var f := BecomeFollower(n, m.term, m.from);
    assert f.log.MaybeAppend(0, 0, 0, []) == Accepted(n.log);
    assert Dispatch(Observe(n, m), m) == HandleAppendEntries(f, m);
  }

  function AfterAck(n: Node, from: int, index: int, q: int): Node {
    n.(prs := n.prs[from := Updated(index)], log := n.log.(committed := q), commit := q)
  }

  // An acknowledgement after which a majority has reached q, an entry of the leader's term.
  lemma AckAt(n: Node, m: Message, q: int)
    requires n.role == Leader && m.typ == MSG_APP_RESP && m.term == n.term >= 1 && !m.denied && m.from in n.prs
    requires n.log.offset == 0 && m.index >= 0 && forall i :: i in n.prs ==> n.prs[i].next >= 1
    requires IsQuorumIndex(MatchedIndexes(n.(prs := n.prs[m.from := Updated(m.index)])), q)
    requires 0 <= n.log.committed < q <= n.log.LastIndex() && n.log.ents[q].term == n.term
    ensures Step(n, m).Done? && Step(n, m).node == AfterAck(n, m.from, m.index, q)
  {
    var u := n.(prs := n.prs[m.from := Updated(m.index)]);
    assert m.from in u.prs;
    QuorumIndexUnique(MatchedIndexes(u), q, QuorumMatch(u));
    assert MaybeCommit(u) == u.(log := u.log.(committed := q));
    NoPanic(MaybeCommit(u));
  }

  // An entry appended by a leader whose majority index does not move.
  lemma AppendAt(n: Node, e: Entry, q: int)
    requires n.id in n.prs && n.log.offset == 0 && n.log.ents != []
    requires IsQuorumIndex(MatchedIndexes(n.(prs := n.prs[n.id := Updated(n.log.LastIndex() + 1)])), q)
    requires q <= n.log.committed
    ensures var last := n.log.LastIndex();
            AppendEntry(n, e) ==
            n.(log := n.log.Append(last, [e.(term := n.term, index := last + 1)]),
              prs := n.prs[n.id := Updated(last + 1)])
  {
    var last := n.log.LastIndex();
    var log := n.log.Append(last, [e.(term := n.term, index := last + 1)]);
    assert n.log.Slice(0, last + 1) == n.log.ents;
    assert log.LastIndex() == last + 1;
    var u := n.(log := log, prs := n.prs[n.id := Updated(last + 1)]);
    assert n.id in u.prs;
    assert MatchedIndexes(u) == MatchedIndexes(n.(prs := u.prs));
    QuorumIndexUnique(MatchedIndexes(u), q, QuorumMatch(u));
  }

  lemma ProposeAt(n: Node, m: Message, q: int)
    requires n.role == Leader && n.id in n.prs && n.log.offset == 0 && n.log.ents != [] && n.commit == n.log.committed
    requires m == Blank(MSG_PROP, NONE).(from := n.id, entries := [DUMMY_ENTRY]) && n.term >= 1
    requires forall i :: i in n.prs ==> n.prs[i].next >= 1
    requires IsQuorumIndex(MatchedIndexes(n.(prs := n.prs[n.id := Updated(n.log.LastIndex() + 1)])), q)
    requires q <= n.log.committed
    ensures Step(n, m).Done? && Step(n, m).node == AppendEntry(n, DUMMY_ENTRY)
  {
    AppendAt(n, DUMMY_ENTRY, q);
    assert n.(pendingConf := n.pendingConf || false) == n;
    NoPanic(AppendEntry(n, DUMMY_ENTRY));
  }

  // Of three recorded indexes the middle one is reached by a majority.
  lemma MiddleReached(ix: map<int, int>, a: int, b: int, c: int)
    requires a != b && b != c && a != c && ix.Keys == {a, b, c} && ix[a] >= ix[b] >= ix[c]
    ensures IsQuorumIndex(ix, ix[b])
  {
    assert |ix.Keys| == 3;
    var v := ix[b];
    SubsetSize({a, b}, Reached(ix, v));
    forall w | w > v ensures !IsMajority(Reached(ix, w), ix.Keys) {
      SubsetSize(Reached(ix, w), {a});
    }
  }

  // ---- The run ----

  const THREE := {1, 2, 3}

  ghost predicate RunsTo(ms: set<int>, acts: seq<Action>, c: Cluster) {
    IsRun(ms, acts) && After(ms, acts) == c
  }

  ghost predicate At(c: Cluster, n1: Node, n2: Node, n3: Node) {
    1 in c.nodes && 2 in c.nodes && 3 in c.nodes && c.nodes[1] == n1 && c.nodes[2] == n2 && c.nodes[3] == n3
  }

  lemma Take(ms: set<int>, acts: seq<Action>, c: Cluster, a: Action) returns (acts': seq<Action>, c': Cluster)
    requires RunsTo(ms, acts, c) && Enabled(c, a)
    ensures acts' == acts + [a] && c' == Next(c, a) && RunsTo(ms, acts', c')
  {
    acts' := acts + [a];
    c' := Next(c, a);
    assert acts'[..|acts'| - 1] == acts;
  }

  // One action that turns node i into n and sends, among others, the messages in out.
  lemma Fire(ms: set<int>, acts: seq<Action>, c: Cluster, a: Action, i: int, n: Node, out: set<Message>)
      returns (acts': seq<Action>, c': Cluster)
    requires RunsTo(ms, acts, c) && Actor(a) == i && i in c.nodes && (a.Receive? ==> a.m in c.net)
    requires !a.Refuse? && !a.Restart?
    requires Step(c.nodes[i], Input(a)).Done? && Step(c.nodes[i], Input(a)).node == n
    requires out <= Step(c.nodes[i], Input(a)).out
    ensures RunsTo(ms, acts', c') && c'.nodes == c.nodes[i := n] && out <= c'.net && acts' == acts + [a]
  {
    acts', c' := Take(ms, acts, c, a);
  }

  function Prs(a: Progress, b: Progress, c: Progress): map<int, Progress> { map[1 := a, 2 := b, 3 := c] }

  function LogOf(es: seq<Entry>, committed: int): Log { Log(es, 0, committed, 0, 0, EMPTY_SNAPSHOT) }

  function Own(term: int, index: int): Entry { Entry(ENTRY_NORMAL, term, index, []) }

  const D := DUMMY_ENTRY
  const ZERO := Progress(0, 1)

  // Node 1: at the start, campaigning in term 1, leading term 1, deposed by term 2,
  // campaigning in term 3, leading term 3, committed.
  const A0 := Node(1, 0, NONE, 0, LogOf([D], 0), Prs(ZERO, ZERO, ZERO), Follower, map[], NONE, false)
  const A1 := A0.(term := 1, vote := 1, role := Candidate, votes := map[1 := true])
  const A2 := Node(1, 1, NONE, 0, LogOf([D, Own(1, 1)], 0), Prs(Progress(1, 2), ZERO, ZERO), Leader, map[], 1, false)
  const A3 := Node(1, 2, NONE, 0, A2.log, Prs(Progress(1, 2), Progress(0, 2), Progress(0, 2)), Follower, map[], 2,
    false)
  const A4 := A3.(term := 3, vote := 1, role := Candidate, votes := map[1 := true], lead := NONE)
  const A5 := Node(1, 3, NONE, 0, LogOf([D, Own(1, 1), Own(3, 2)], 0),
                   Prs(Progress(2, 3), Progress(0, 2), Progress(0, 2)), Leader, map[], 1, false)
  const A6 := A5.(prs := Prs(Progress(2, 3), Progress(2, 3), Progress(0, 2)),
                  log := LogOf([D, Own(1, 1), Own(3, 2)], 2), commit := 2)

  // Node 2: at the start, having voted in term 1, campaigning in term 2, leading term 2,
  // committed, with a proposal, deposed by term 3.
  const B0 := A0.(id := 2)
  const B1 := B0.(term := 1, vote := 1)
  const B2 := B0.(term := 2, vote := 2, role := Candidate, votes := map[2 := true])
  const B3 := Node(2, 2, NONE, 0, LogOf([D, Own(2, 1)], 0), Prs(ZERO, Progress(1, 2), ZERO), Leader, map[], 2, false)
  const B4 := B3.(prs := Prs(Progress(1, 2), Progress(1, 2), ZERO), log := LogOf([D, Own(2, 1)], 1), commit := 1)
  const B5 := B4.(prs := Prs(Progress(1, 2), Progress(2, 3), ZERO), log := LogOf([D, Own(2, 1), Own(2, 2)], 1))
  const B6 := Node(2, 3, NONE, 1, B5.log, Prs(Progress(0, 3), Progress(2, 3), Progress(0, 3)), Follower, map[], 1,
    false)

  // Node 3: at the start, having voted in term 2, having voted in term 3.
  const C0 := A0.(id := 3)
  const C1 := C0.(term := 2, vote := 2)
  const C2 := C0.(term := 3, vote := 1)

  lemma NewAt(i: int)
    requires i in THREE
    ensures NewRaft(i, THREE) == A0.(id := i)
  {
    var n := Node(i, 0, NONE, 0, NewLog(), map p | p in THREE :: Progress(0, 0), Follower, map[], NONE, false);
    var prs := Reset(n, 0).prs;
    assert prs.Keys == n.prs.Keys == THREE;
    assert prs[1] == ZERO && prs[2] == ZERO && prs[3] == ZERO;
    assert prs == Prs(ZERO, ZERO, ZERO);
  }

  lemma StartNodes()
    ensures At(Start(THREE), A0, B0, C0)
  {
    var c := Start(THREE);
    NewAt(1);
    NewAt(2);
    NewAt(3);
    assert c.nodes.Keys == THREE;
  }

  lemma StartAt() returns (c: Cluster)
    ensures RunsTo(THREE, [], c) && At(c, A0, B0, C0)
  {
    c := Start(THREE);
    StartNodes();
    assert ValidMembers(THREE);
    assert Exec(THREE, []) == Just(c);
  }

  function Won(n: Node): Node
    requires n.id in n.prs
  {
    var last := n.log.LastIndex();
    Elected(n).(log := n.log.Append(last, [Own(n.term, last + 1)]), prs := Elected(n).prs[n.id := Updated(last + 1)],
      commit := 0)
  }

  // Being elected with nobody else's log known: own entry appended, nothing committed.
  lemma AppendsOwn(n: Node, b: int, c: int)
    requires n.id != b && b != c && n.id != c && n.prs.Keys == {n.id, b, c}
    requires n.log.offset == 0 && n.log.committed == 0 && n.log.ents != []
    ensures n.id in Elected(n).prs && AppendEntry(Elected(n), DUMMY_ENTRY).(commit := 0) == Won(n)
    ensures AppendEntry(Elected(n), DUMMY_ENTRY).log.committed == 0
  {
    var l, last := Elected(n), n.log.LastIndex();
    assert l.prs.Keys == n.prs.Keys;
    var ix := MatchedIndexes(l.(prs := l.prs[n.id := Updated(last + 1)]));
    assert ix.Keys == {n.id, b, c};
    MiddleReached(ix, n.id, b, c);
    AppendAt(l, DUMMY_ENTRY, 0);
  }

  lemma Wins(n: Node, m: Message, b: int, c: int)
    requires n.role == Candidate && n.votes == map[n.id := true] && n.term >= 1
    requires n.id != b && b != c && n.id != c && n.prs.Keys == {n.id, b, c} && |n.prs| == 3
    requires m.typ == MSG_VOTE_RESP && m.term == n.term && m.from != n.id && !m.denied
    requires n.log.offset == 0 && n.log.committed == 0 && ConfChanges(n.log.Slice(1, n.log.LastIndex() + 1)) == 0
    requires n.log.ents != []
    ensures Step(n, m).Done? && Step(n, m).node == Won(n)
  {
    AppendsOwn(n, b, c);
    WinAt(n, m);
  }

  // ---- Two exchanges, for any nodes ----

  ghost predicate Ready3(n: Node, b: int, c: int) {
    && n.id != b && b != c && n.id != c && n.prs.Keys == {n.id, b, c} && |n.prs| == 3 && n.term >= 0
    && n.log.offset == 0 && n.log.ents != []
  }

  ghost predicate CanWin(n: Node, v: Node, k: int) {
    && Ready3(n, v.id, k) && n.role == Follower && n.log.committed == 0
    && ConfChanges(n.log.Slice(1, n.log.LastIndex() + 1)) == 0
    && n.term + 1 > v.term >= 0 && v.log.ents != []
    && v.log.IsUpToDate(n.log.LastIndex(), n.log.Term(n.log.LastIndex()))
  }

  // Node n campaigns and node v votes for it.
  lemma Voting(ms: set<int>, acts: seq<Action>, c: Cluster, n: Node, v: Node, k: int, d: Node, g: Node)
      returns (acts': seq<Action>, c': Cluster)
    requires RunsTo(ms, acts, c) && n.id in c.nodes && c.nodes[n.id] == n && v.id in c.nodes && c.nodes[v.id] == v
    requires CanWin(n, v, k) && d == Candidacy(n) && g == Grant(v, VoteRequest(d, v.id))
    ensures RunsTo(ms, acts', c') && c'.nodes == c.nodes[n.id := d][v.id := g]
    ensures Stamp(g, Blank(MSG_VOTE_RESP, n.id)) in c'.net
  {
    var request := VoteRequest(d, v.id);
    HupAt(n, Input(Hup(n.id)), v.id);
    VoteAt(v, request);
    acts', c' := Fire(ms, acts, c, Hup(n.id), n.id, d, {request});
    acts', c' := Fire(ms, acts', c', Receive(request), v.id, g, {Stamp(g, Blank(MSG_VOTE_RESP, n.id))});
  }

  // Elected by v, node n becomes w and v becomes g.
  ghost predicate Elects(n: Node, v: Node, k: int, w: Node, g: Node) {
    && CanWin(n, v, k) && n.id in Candidacy(n).prs
    && w == Won(Candidacy(n)) && g == Grant(v, VoteRequest(Candidacy(n), v.id))
  }

  // Node n campaigns, node v votes for it, and the vote makes it leader.
  lemma Election(ms: set<int>, acts: seq<Action>, c: Cluster, n: Node, v: Node, k: int, w: Node, g: Node)
      returns (acts': seq<Action>, c': Cluster)
    requires RunsTo(ms, acts, c) && n.id in c.nodes && c.nodes[n.id] == n && v.id in c.nodes && c.nodes[v.id] == v
    requires Elects(n, v, k, w, g)
    ensures RunsTo(ms, acts', c') && c'.nodes == c.nodes[v.id := g][n.id := w]
  {
    var d := Candidacy(n);
    var vote := Stamp(g, Blank(MSG_VOTE_RESP, n.id));
    acts', c' := Voting(ms, acts, c, n, v, k, d, g);
    assert d.prs.Keys == n.prs.Keys;
    Wins(d, vote, v.id, k);
    acts', c' := Fire(ms, acts', c', Receive(vote), n.id, w, {});
  }

  ghost predicate CanCommitBy(n: Node, f: Node, q: int) {
    && n.id != f.id && n.role == Leader && n.commit == n.log.committed && n.term > f.term >= 0 && f.id in n.prs
    && n.log.offset == 0 && (forall i :: i in n.prs ==> n.prs[i].next >= 1)
    && f.log.offset == 0 && f.log.ents != [] && f.log.ents[0].term == 0 && f.log.committed >= 0
    && IsQuorumIndex(MatchedIndexes(n.(prs := n.prs[f.id := Updated(f.log.LastIndex())])), q)
    && 0 <= n.log.committed < q <= n.log.LastIndex() && n.log.ents[q].term == n.term
  }

  // Answered by f, leader n becomes n' and f becomes f'.
  ghost predicate CommitsAfter(n: Node, f: Node, q: int, n': Node, f': Node) {
    CanCommitBy(n, f, q) && n' == AfterAck(n, f.id, f.log.LastIndex(), q) && f' == Deposed(f, Heartbeat(n, f.id))
  }

  // Leader n beats; node f answers with its whole log, and the answer makes n commit q.
  lemma BeatAndCommit(ms: set<int>, acts: seq<Action>, c: Cluster, n: Node, f: Node, q: int, n': Node, f': Node)
      returns (acts': seq<Action>, c': Cluster)
    requires RunsTo(ms, acts, c) && n.id in c.nodes && c.nodes[n.id] == n && f.id in c.nodes && c.nodes[f.id] == f
    requires CommitsAfter(n, f, q, n', f')
    ensures RunsTo(ms, acts', c') && c'.nodes == c.nodes[f.id := f'][n.id := n']
  {
    var i, j := n.id, f.id;
    var hb := Heartbeat(n, j);
    var ack := Stamp(f', Blank(MSG_APP_RESP, i).(index := f.log.LastIndex()));
    BeatAt(n, Input(Beat(i)), j);
    HeartbeatAt(f, hb);
    AckAt(n, ack, q);
    acts', c' := Fire(ms, acts, c, Beat(i), i, n, {hb});
    acts', c' := Fire(ms, acts', c', Receive(hb), j, f', {ack});
    acts', c' := Fire(ms, acts', c', Receive(ack), i, n', {});
  }

  // Taking a proposal, leader n becomes n'.
  ghost predicate Accepts(n: Node, q: int, n': Node) {
    && n.role == Leader && n.id in n.prs && n.log.offset == 0 && n.log.ents != [] && n.commit == n.log.committed
    && n.term >= 1 && (forall i :: i in n.prs ==> n.prs[i].next >= 1)
    && IsQuorumIndex(MatchedIndexes(n.(prs := n.prs[n.id := Updated(n.log.LastIndex() + 1)])), q)
    && q <= n.log.committed && n' == AppendEntry(n, D)
  }

  // A client proposes an entry at the leader; the majority index stays at q.
  lemma Proposes(ms: set<int>, acts: seq<Action>, c: Cluster, n: Node, q: int, n': Node)
      returns (acts': seq<Action>, c': Cluster)
    requires RunsTo(ms, acts, c) && n.id in c.nodes && c.nodes[n.id] == n
    requires Accepts(n, q, n')
    ensures RunsTo(ms, acts', c') && c'.nodes == c.nodes[n.id := n']
  {
    var a := Propose(n.id, D);
    ProposeAt(n, Input(a), q);
    acts', c' := Fire(ms, acts, c, a, n.id, n', {});
  }

  // ---- The steps of the run ----

  lemma TermOneReady()
    ensures CanWin(A0, B0, 3)
  {
    assert A0.prs.Keys == {1, 2, 3} && |A0.prs| == 3;
  }

  lemma TermOneNodes()
    ensures Elects(A0, B0, 3, A2, B1)
  {
    TermOneReady();
    assert Candidacy(A0) == A1;
    assert A1.log.Append(0, [Own(1, 1)]) == A2.log;
    assert Won(A1).prs == A2.prs;
    assert Grant(B0, VoteRequest(A1, 2)).prs == B1.prs;
  }

  lemma TermTwoNodes()
    ensures Elects(B1, C0, 1, B3, C1)
  {
    assert B1.prs.Keys == {2, 3, 1} && |B1.prs| == 3;
    assert Candidacy(B1) == B2;
    assert B2.log.Append(0, [Own(2, 1)]) == B3.log;
    assert Won(B2).prs == B3.prs;
    assert Grant(C0, VoteRequest(B2, 3)).prs == C1.prs;
  }

  lemma TermThreeNodes()
    ensures Elects(A3, C1, 2, A5, C2)
  {
    assert A3.prs.Keys == {1, 3, 2} && |A3.prs| == 3;
    assert Candidacy(A3).prs == A4.prs;
    assert Candidacy(A3) == A4;
    assert A4.log.Append(1, [Own(3, 2)]) == A5.log;
    assert Won(A4).prs == A5.prs;
    assert Grant(C1, VoteRequest(A4, 3)).prs == C2.prs;
  }

  lemma FirstCommitNodes()
    ensures CommitsAfter(B3, A2, 1, B4, A3)
  {
    var ix := MatchedIndexes(B3.(prs := B3.prs[1 := Updated(1)]));
    assert ix == map[1 := 1, 2 := 1, 3 := 0];
    MiddleReached(ix, 1, 2, 3);
    assert Deposed(A2, Heartbeat(B3, 1)).prs == A3.prs;
  }

  lemma ProposalNodes()
    ensures Accepts(B4, 1, B5)
  {
    var ix := MatchedIndexes(B4.(prs := B4.prs[2 := Updated(2)]));
    assert ix == map[1 := 1, 2 := 2, 3 := 0];
    MiddleReached(ix, 2, 1, 3);
    AppendAt(B4, D, 1);
  }

  lemma SecondCommitNodes()
    ensures CommitsAfter(A5, B5, 2, A6, B6)
  {
    var ix := MatchedIndexes(A5.(prs := A5.prs[2 := Updated(2)]));
    assert ix == map[1 := 2, 2 := 2, 3 := 0];
    MiddleReached(ix, 1, 2, 3);
    assert Deposed(B5, Heartbeat(A5, 2)).prs == B6.prs;
  }

  // ---- The parts of the run ----

  // Node 2 elects node 1, node 3 node 2, node 3 node 1.
  lemma TermOne(ms: set<int>, acts: seq<Action>, c: Cluster, n: Node, v: Node, o: Node, w: Node, g: Node)
      returns (acts': seq<Action>, c': Cluster)
    requires RunsTo(ms, acts, c) && At(c, n, v, o) && n.id == 1 && v.id == 2 && Elects(n, v, 3, w, g)
    ensures RunsTo(ms, acts', c') && At(c', w, g, o)
  {
    acts', c' := Election(ms, acts, c, n, v, 3, w, g);
  }

  lemma TermTwo(ms: set<int>, acts: seq<Action>, c: Cluster, n: Node, v: Node, o: Node, w: Node, g: Node)
      returns (acts': seq<Action>, c': Cluster)
    requires RunsTo(ms, acts, c) && At(c, o, n, v) && n.id == 2 && v.id == 3 && Elects(n, v, 1, w, g)
    ensures RunsTo(ms, acts', c') && At(c', o, w, g)
  {
    acts', c' := Election(ms, acts, c, n, v, 1, w, g);
  }

  lemma TermThree(ms: set<int>, acts: seq<Action>, c: Cluster, n: Node, v: Node, o: Node, w: Node, g: Node)
      returns (acts': seq<Action>, c': Cluster)
    requires RunsTo(ms, acts, c) && At(c, n, o, v) && n.id == 1 && v.id == 3 && Elects(n, v, 2, w, g)
    ensures RunsTo(ms, acts', c') && At(c', w, o, g)
  {
    acts', c' := Election(ms, acts, c, n, v, 2, w, g);
  }

  // Node 1 answers node 2, and node 2 node 1.
  lemma FirstCommit(ms: set<int>, acts: seq<Action>, c: Cluster, n: Node, f: Node, o: Node, n': Node, f': Node)
      returns (acts': seq<Action>, c': Cluster)
    requires RunsTo(ms, acts, c) && At(c, f, n, o) && n.id == 2 && f.id == 1 && CommitsAfter(n, f, 1, n', f')
    ensures RunsTo(ms, acts', c') && At(c', f', n', o)
  {
    acts', c' := BeatAndCommit(ms, acts, c, n, f, 1, n', f');
  }

  lemma SecondCommit(ms: set<int>, acts: seq<Action>, c: Cluster, n: Node, f: Node, o: Node, n': Node, f': Node)
      returns (acts': seq<Action>, c': Cluster)
    requires RunsTo(ms, acts, c) && At(c, n, f, o) && n.id == 1 && f.id == 2 && CommitsAfter(n, f, 2, n', f')
    ensures RunsTo(ms, acts', c') && At(c', n', f', o)
  {
    acts', c' := BeatAndCommit(ms, acts, c, n, f, 2, n', f');
  }

  // Node 2 takes a proposal.
  lemma Proposal(ms: set<int>, acts: seq<Action>, c: Cluster, n: Node, o: Node, o': Node, n': Node)
      returns (acts': seq<Action>, c': Cluster)
    requires RunsTo(ms, acts, c) && At(c, o, n, o') && n.id == 2 && Accepts(n, 1, n')
    ensures RunsTo(ms, acts', c') && At(c', o, n', o')
  {
    acts', c' := Proposes(ms, acts, c, n, 1, n');
  }

  lemma FirstHalf(ms: set<int>, acts: seq<Action>, c: Cluster) returns (acts': seq<Action>, c': Cluster)
    requires RunsTo(ms, acts, c) && At(c, A0, B0, C0)
    ensures RunsTo(ms, acts', c') && At(c', A3, B4, C1)
  {
    TermOneNodes();
    acts', c' := TermOne(ms, acts, c, A0, B0, C0, A2, B1);
    TermTwoNodes();
    acts', c' := TermTwo(ms, acts', c', B1, C0, A2, B3, C1);
    FirstCommitNodes();
    acts', c' := FirstCommit(ms, acts', c', B3, A2, C1, B4, A3);
  }

  lemma SecondHalf(ms: set<int>, acts: seq<Action>, c: Cluster) returns (acts': seq<Action>, c': Cluster)
    requires RunsTo(ms, acts, c) && At(c, A3, B4, C1)
    ensures RunsTo(ms, acts', c') && At(c', A6, B6, C2)
  {
    ProposalNodes();
    acts', c' := Proposal(ms, acts, c, B4, A3, C1, B5);
    TermThreeNodes();
    acts', c' := TermThree(ms, acts', c', A3, C1, B5, A5, C2);
    SecondCommitNodes();
    acts', c' := SecondCommit(ms, acts', c', A5, B5, C2, A6, B6);
  }

  /** A run in which nodes 1 and 2 have both committed index 1, with different entries. Node
      1 is elected in term 1 by node 2; node 2 in term 2 by node 3, which has seen nothing of
      term 1. Node 1 answers a heartbeat of node 2 with its own index 1, and node 2 commits
      its entry there. Node 2 takes a proposal. Node 1 is elected in term 3 by node 3. Node 2
      answers its heartbeat with index 2, and node 1 commits up to there. */
  lemma CommittedEntriesDiffer(ms: set<int>) returns (acts: seq<Action>)
    requires ms == THREE
    ensures IsRun(ms, acts)
    ensures var c := After(ms, acts);
            && 1 in c.nodes && 2 in c.nodes
            && var a, b := c.nodes[1].log, c.nodes[2].log;
               && 1 <= a.committed < |a.ents| && 1 <= b.committed < |b.ents| && a.ents[1] != b.ents[1]
  {
    var c := StartAt();
    acts, c := FirstHalf(ms, [], c);
    acts, c := SecondHalf(ms, acts, c);
    assert A6.log.ents[1] == Own(1, 1) && B6.log.ents[1] == Own(2, 1);
  }
}
