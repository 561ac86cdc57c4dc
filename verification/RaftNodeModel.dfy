/** One Raft node as a value, and what one call of `Step` does to it.

    A call either ends normally, with the new node and the messages it queued, or
    panics. Messages are collected as a set: ranging over the peer map in the
    source gives them no order, and messages to different peers differ.
    Membership is fixed: configuration entries travel through the log but are not
    applied, and nobody is ever removed. */
module RaftNodeModel {
  import opened Collections
  import opened RaftTypes
  import opened RaftLogModel
  import opened Quorums

  datatype Role = Follower | Candidate | Leader

  datatype Progress = Progress(matched: int, next: int)
  {
    function Decr(): Progress { this.(next := if next - 1 < 1 then 1 else next - 1) }
  }

  // progress.update
  function Updated(n: int): Progress { Progress(n, n + 1) }

  datatype PanicReason =
    | NoLeader            // a proposal reached a node that knows no leader
    | ProposalLength      // a proposal must hold exactly one entry
    | LeaderCampaigns     // leader -> candidate
    | FollowerWins        // follower -> leader
    | DoubleConfChange    // two uncommitted configuration entries
    | FirstEntry          // the offset slot was asked for
    | NeedSnapshot        // a peer is behind the offset and there is no snapshot
    | CommittedConflict   // a committed entry would be overwritten
    | UnknownPeer         // no progress is kept for the peer
    | EmptyLog            // the log holds no slot at all

  datatype Node = Node(
    id: int, term: int, vote: int, commit: int, log: Log,
    prs: map<int, Progress>, role: Role, votes: map<int, bool>,
    lead: int, pendingConf: bool)

  datatype Outcome = Done(node: Node, out: set<Message>) | Panics(why: PanicReason)

  function Quiet(n: Node): Outcome { Done(n, {}) }

  function Reset(n: Node, term: int): Node {
    var last := n.log.LastIndex();
    n.(term := term, lead := NONE, vote := NONE, votes := map[], pendingConf := false,
       prs := map i | i in n.prs :: Progress(if i == n.id then last else 0, last + 1))
  }

  function BecomeFollower(n: Node, term: int, lead: int): Node {
    Reset(n, term).(lead := lead, role := Follower)
  }

  function NewRaft(id: int, peers: set<int>): Node {
    BecomeFollower(
      Node(id, 0, NONE, 0, NewLog(), map p | p in peers :: Progress(0, 0), Follower, map[], NONE, false),
      0, NONE)
  }

  // Everything send stamps onto a message.
  function Stamp(n: Node, m: Message): Message { m.(from := n.id, term := n.term) }

  function Q(n: Node): nat { QuorumSize(|n.prs|) }

  function Granted(votes: map<int, bool>): set<int> { set i | i in votes && votes[i] }

  // ---- Sending ----

  predicate NeedsSnapshot(n: Node, i: int) { i < n.log.offset }

  predicate SendPanics(n: Node, to: int)
    requires to in n.prs
  {
    NeedsSnapshot(n, n.prs[to].next - 1) && n.log.snapshot.term == 0
  }

  function AppendMessage(n: Node, to: int): Message
    requires to in n.prs
  {
    var prev := n.prs[to].next - 1;
    if NeedsSnapshot(n, prev) then
      Stamp(n, Blank(MSG_SNAP, to).(index := prev, snapshot := n.log.snapshot))
    else
      Stamp(n, Blank(MSG_APP, to).(index := prev, logTerm := n.log.Term(prev),
               entries := n.log.Slice(prev + 1, n.log.LastIndex() + 1), commit := n.log.committed))
  }

  function Heartbeat(n: Node, to: int): Message { Stamp(n, Blank(MSG_APP, to)) }

  function SendAppend(n: Node, to: int): Outcome
    requires to in n.prs
  {
    if SendPanics(n, to) then Panics(NeedSnapshot) else Done(n, {AppendMessage(n, to)})
  }

  function Peers(n: Node): set<int> { n.prs.Keys - {n.id} }

  function BcastAppend(n: Node): Outcome {
    if exists i :: i in Peers(n) && SendPanics(n, i) then Panics(NeedSnapshot)
    else Done(n, set i | i in Peers(n) :: AppendMessage(n, i))
  }

  function BcastHeartbeat(n: Node): Outcome {
    Done(n, set i | i in Peers(n) :: Heartbeat(n, i))
  }

  function Reply(n: Node, m: Message): Outcome { Done(n, {Stamp(n, m)}) }

  // ---- Committing and appending at the leader ----

  function MatchedIndexes(n: Node): map<int, int> { map i | i in n.prs :: n.prs[i].matched }

  ghost function QuorumMatch(n: Node): int
    requires n.prs != map[]
  {
    assert n.prs.Keys == MatchedIndexes(n).Keys;
    QuorumIndex(MatchedIndexes(n))
  }

  ghost function MaybeCommit(n: Node): Node
    requires n.prs != map[]
  {
    n.(log := n.log.MaybeCommit(QuorumMatch(n), n.term))
  }

  ghost function AppendEntry(n: Node, e: Entry): Node
    requires n.id in n.prs
  {
    var last := n.log.LastIndex();
    var log := n.log.Append(last, [e.(term := n.term, index := last + 1)]);
    var prs := n.prs[n.id := Updated(log.LastIndex())];
    assert n.id in prs;
    MaybeCommit(n.(log := log, prs := prs))
  }

  // ---- Elections ----

  function ConfChanges(es: seq<Entry>): nat {
    if es == [] then 0
    else (if es[0].typ == ENTRY_CONF_CHANGE then 1 else 0) + ConfChanges(es[1..])
  }

  ghost function BecomeLeader(n: Node): Outcome {
    if n.role == Follower then Panics(FollowerWins)
    else if n.log.committed + 1 == n.log.offset then Panics(FirstEntry)
    else
      var confs := ConfChanges(n.log.Slice(n.log.committed + 1, n.log.LastIndex() + 1));
      if confs > 1 then Panics(DoubleConfChange)
      else if n.id !in n.prs then Panics(UnknownPeer)
      else
        var l := Reset(n, n.term).(lead := n.id, role := Leader, pendingConf := confs == 1);
        Quiet(AppendEntry(l, DUMMY_ENTRY))
  }

  function BecomeCandidate(n: Node): Node {
    Reset(n, n.term + 1).(vote := n.id, role := Candidate)
  }

  function Poll(votes: map<int, bool>, id: int, v: bool): map<int, bool> {
    if id in votes then votes else votes[id := v]
  }

  function VoteRequest(n: Node, to: int): Message {
    Stamp(n, Blank(MSG_VOTE, to).(index := n.log.LastIndex(), logTerm := n.log.Term(n.log.LastIndex())))
  }

  function RequestVotes(n: Node): Outcome {
    Done(n, set i | i in Peers(n) :: VoteRequest(n, i))
  }

  ghost function Campaign(n: Node): Outcome {
    if n.role == Leader then Panics(LeaderCampaigns)
    else
      var c := BecomeCandidate(n);
      var c1 := c.(votes := Poll(c.votes, c.id, true));
      if Q(c1) == |Granted(c1.votes)| then
        var l := BecomeLeader(c1);
        if l.Panics? then l else RequestVotes(l.node)
      else RequestVotes(c1)
  }

  // ---- Following ----

  function HandleAppendEntries(n: Node, m: Message): Outcome {
    match n.log.MaybeAppend(m.index, m.logTerm, m.commit, m.entries)
    case Rejected => Reply(n, Blank(MSG_APP_RESP, m.from).(denied := true))
    case Conflict => Panics(CommittedConflict)
    case Accepted(log) =>
      Reply(n.(log := log), Blank(MSG_APP_RESP, m.from).(index := log.LastIndex()))
  }

  predicate CanRestore(n: Node, s: Snapshot) { s.index > n.log.committed }

  function Restore(n: Node, s: Snapshot): Node {
    var log := RestoreLog(s);
    var last := log.LastIndex();
    n.(log := log, prs := map i | i in s.nodes :: Progress(if i == n.id then last else 0, last + 1))
  }

  function HandleSnapshot(n: Node, m: Message): Outcome {
    if CanRestore(n, m.snapshot) then
      var r := Restore(n, m.snapshot);
      Reply(r, Blank(MSG_APP_RESP, m.from).(index := r.log.LastIndex()))
    else
      Reply(n, Blank(MSG_APP_RESP, m.from).(index := n.log.committed))
  }

  // ---- The three step functions ----

  ghost function LeaderProposal(n: Node, m: Message): Outcome {
    if |m.entries| != 1 then Panics(ProposalLength)
    else
      var e := m.entries[0];
      if e.typ == ENTRY_CONF_CHANGE && n.pendingConf then Quiet(n)
      else if n.id !in n.prs then Panics(UnknownPeer)
      else BcastAppend(AppendEntry(n.(pendingConf := n.pendingConf || e.typ == ENTRY_CONF_CHANGE), e))
  }

  ghost function LeaderAck(n: Node, m: Message): Outcome {
    if m.from !in n.prs then Panics(UnknownPeer)
    else if m.denied then
      SendAppend(n.(prs := n.prs[m.from := n.prs[m.from].Decr()]), m.from)
    else
      var u := n.(prs := n.prs[m.from := Updated(m.index)]);
      assert m.from in u.prs;
      if u.log.CanCommit(QuorumMatch(u), u.term) then BcastAppend(MaybeCommit(u)) else Quiet(u)
  }

  ghost function StepLeader(n: Node, m: Message): Outcome {
    if m.typ == MSG_BEAT then BcastHeartbeat(n)
    else if m.typ == MSG_PROP then LeaderProposal(n, m)
    else if m.typ == MSG_APP_RESP then LeaderAck(n, m)
    else if m.typ == MSG_VOTE then Reply(n, Blank(MSG_VOTE_RESP, m.from).(denied := true))
    else Quiet(n)
  }

  ghost function CandidatePoll(n: Node, m: Message): Outcome {
    var c := n.(votes := Poll(n.votes, m.from, !m.denied));
    var granted := |Granted(c.votes)|;
    if Q(c) == granted then
      var l := BecomeLeader(c);
      if l.Panics? then l else BcastAppend(l.node)
    else if Q(c) == |c.votes| - granted then Quiet(BecomeFollower(c, c.term, NONE))
    else Quiet(c)
  }

  ghost function StepCandidate(n: Node, m: Message): Outcome {
    if m.typ == MSG_PROP then Panics(NoLeader)
    else if m.typ == MSG_APP then HandleAppendEntries(BecomeFollower(n, n.term, m.from), m)
    else if m.typ == MSG_SNAP then HandleSnapshot(BecomeFollower(n, m.term, m.from), m)
    else if m.typ == MSG_VOTE then Reply(n, Blank(MSG_VOTE_RESP, m.from).(denied := true))
    else if m.typ == MSG_VOTE_RESP then CandidatePoll(n, m)
    else Quiet(n)
  }

  function FollowerVote(n: Node, m: Message): Outcome {
    if n.vote == NONE || n.vote == m.from then
      if n.log.ents == [] then Panics(EmptyLog)
      else if n.log.IsUpToDate(m.index, m.logTerm) then
        Reply(n.(vote := m.from), Blank(MSG_VOTE_RESP, m.from))
      else Reply(n, Blank(MSG_VOTE_RESP, m.from).(denied := true))
    else Reply(n, Blank(MSG_VOTE_RESP, m.from).(denied := true))
  }

  function StepFollower(n: Node, m: Message): Outcome {
    if m.typ == MSG_PROP then
      if n.lead == NONE then Panics(NoLeader) else Reply(n, m.(to := n.lead))
    else if m.typ == MSG_APP then HandleAppendEntries(n.(lead := m.from), m)
    else if m.typ == MSG_SNAP then HandleSnapshot(n, m)
    else if m.typ == MSG_VOTE then FollowerVote(n, m)
    else Quiet(n)
  }

  ghost function Dispatch(n: Node, m: Message): Outcome {
    match n.role
    case Leader => StepLeader(n, m)
    case Candidate => StepCandidate(n, m)
    case Follower => StepFollower(n, m)
  }

  // ---- Step ----

  // The node that handles m once a larger term in it has been adopted.
  function Observe(n: Node, m: Message): Node {
    if m.term > n.term && m.term != 0 then
      BecomeFollower(n, m.term, if m.typ == MSG_VOTE then NONE else m.from)
    else n
  }

  // Messages from older terms are dropped.
  predicate Stale(n: Node, m: Message) { m.term != 0 && m.term < n.term }

  function Recorded(o: Outcome): Outcome {
    if o.Panics? then o else o.(node := o.node.(commit := o.node.log.committed))
  }

  ghost function Deliver(n: Node, m: Message): Outcome {
    if Stale(n, m) then Quiet(n) else Dispatch(Observe(n, m), m)
  }

  ghost function Step(n: Node, m: Message): Outcome {
    if m.typ == MSG_HUP then
      var c := Campaign(n);
      if c.Panics? then c
      else
        var d := Deliver(c.node, m);
        if d.Panics? then d else Recorded(Done(d.node, c.out + d.out))
    else Recorded(Deliver(n, m))
  }

  // ---- What the run loop does to a node besides Step ----

  // raft.compact: the snapshot is taken at the applied index; the nodes come in any order.
  function CompactNode(n: Node, data: Bytes, nodes: seq<int>): Node {
    var i := n.log.applied;
    n.(log := n.log.Snap(data, i, n.log.Term(i), nodes).Compact(i))
  }

  // What is reset when a Ready is delivered.
  function HandOver(n: Node): Node {
    n.(log := n.log.ResetNextEnts().ResetUnstable())
  }

  function LoadState(n: Node, st: HardState): Node {
    n.(log := n.log.(committed := st.commit), term := st.term, vote := st.vote, commit := st.commit)
  }

  // RestartNode: a new node, restored from the snapshot if there is one, then loaded.
  function RestartNode(id: int, peers: set<int>, snapshot: Option<Snapshot>, st: HardState, ents: seq<Entry>): Node {
    var n := NewRaft(id, peers);
    var restored := if snapshot.Just? && CanRestore(n, snapshot.value) then Restore(n, snapshot.value) else n;
    var loaded := LoadState(restored, st);
    loaded.(log := loaded.log.Load(ents))
  }

  // After the campaign it starts, a timer message has no further effect but the term's.
  lemma HupSendsNothing(n: Node, m: Message)
    requires m.typ == MSG_HUP
    ensures Deliver(n, m).Done? && Deliver(n, m).out == {}
  {
  }
}
