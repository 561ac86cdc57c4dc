/** Runs of a fixed set of nodes in which logs are also compacted and restored from
    snapshots: a leader can always serve every peer, from its log or by a snapshot
    that stands exactly at the log's offset. */
module SendSafety {
  import opened RaftTypes
  import opened RaftLogModel
  import opened RaftNodeModel
  import opened Compaction
  import opened Collections
  import opened Cluster

  // ---- One node ----

  // Entries carry real terms; only the slot of a log that was never compacted has term 0.
  predicate TermsPositive(log: Log) {
    && (forall k :: 1 <= k < |log.ents| ==> log.ents[k].term > 0)
    && (log.offset > 0 ==> log.ents != [] && log.ents[0].term > 0)
  }

  ghost predicate Enumerates(nodes: seq<int>, ms: set<int>) {
    forall i :: i in nodes <==> i in ms
  }

  ghost predicate SnapshotAtOffset(ms: set<int>, log: Log) {
    log.offset > 0 ==>
      && log.ents != []
      && log.snapshot.index == log.offset && log.snapshot.term == log.ents[0].term
      && Enumerates(log.snapshot.nodes, ms)
  }

  ghost predicate LogValid(ms: set<int>, log: Log) {
    log.Valid() && TermsPositive(log) && SnapshotAtOffset(ms, log)
  }

  predicate ProgressValid(ms: set<int>, prs: map<int, Progress>) {
    prs.Keys == ms && forall p :: p in prs ==> prs[p].next >= 1
  }

  ghost predicate NodeValid(ms: set<int>, n: Node) {
    && n.id in ms && n.term >= 0 && (n.role != Follower ==> n.term >= 1)
    && LogValid(ms, n.log) && ProgressValid(ms, n.prs)
  }

  // What peers send to each other.
  ghost predicate MessageValid(ms: set<int>, m: Message) {
    && m.from in ms && m.term >= 0
    && (m.typ == MSG_APP ==> m.index >= 0 && forall k :: 0 <= k < |m.entries| ==> m.entries[k].term > 0)
    && (m.typ == MSG_APP_RESP ==> m.index >= 0)
    && (m.typ == MSG_SNAP ==> m.snapshot.term > 0 && Enumerates(m.snapshot.nodes, ms))
  }

  // The panics that do not come from sending: proposals and campaigns a caller should not have
  // made, a second configuration entry, and an append that meets a committed entry.
  predicate NotFromSending(why: PanicReason) {
    why in {NoLeader, ProposalLength, LeaderCampaigns, DoubleConfChange, CommittedConflict}
  }

  ghost predicate Fine(ms: set<int>, o: Outcome) {
    match o
    case Panics(why) => NotFromSending(why)
    case Done(n, out) => NodeValid(ms, n) && forall m :: m in out ==> MessageValid(ms, m)
  }

  lemma ResetValid(ms: set<int>, n: Node, t: int)
    requires NodeValid(ms, n) && t >= 0
    ensures var r := Reset(n, t);
            r.id == n.id && r.log == n.log && r.term == t && r.role == n.role && ProgressValid(ms, r.prs)
  {
    assert Reset(n, t).prs.Keys == n.prs.Keys;
  }

  // ---- Sending ----

  /** Every peer can be served: the entries asked for are never the offset slot, and a
      snapshot that is needed exists and stands at the offset. */
  lemma ServesPeer(ms: set<int>, n: Node, to: int)
    requires NodeValid(ms, n) && to in ms
    ensures !SendPanics(n, to)
    ensures MessageValid(ms, AppendMessage(n, to))
    ensures var m := AppendMessage(n, to);
            && (m.typ == MSG_SNAP ==> m.snapshot.index == n.log.offset && n.prs[to].next - 1 < n.log.offset)
            && (m.typ == MSG_APP ==> n.log.offset < n.prs[to].next)
  {
    var m := AppendMessage(n, to);
    if m.typ == MSG_APP {
      forall k | 0 <= k < |m.entries| ensures m.entries[k].term > 0 {
        var lo := n.prs[to].next;
        assert m.entries[k] == n.log.ents[lo - n.log.offset + k];
      }
    }
  }

  lemma BcastFine(ms: set<int>, n: Node)
    requires NodeValid(ms, n)
    ensures Fine(ms, BcastAppend(n)) && BcastAppend(n).Done?
  {
    forall i | i in Peers(n) ensures !SendPanics(n, i) && MessageValid(ms, AppendMessage(n, i)) {
      ServesPeer(ms, n, i);
    }
  }

  // ---- Handlers ----

  lemma CommitValid(ms: set<int>, n: Node)
    requires NodeValid(ms, n) && n.role == Leader
    ensures n.prs != map[] && NodeValid(ms, MaybeCommit(n))
  {
    assert n.id in n.prs;
    PerformKeepsMarks(n.log, MaybeCommitOp(QuorumMatch(n), n.term));
  }

  lemma AppendLogValid(ms: set<int>, log: Log, e: Entry)
    requires LogValid(ms, log) && e.term > 0
    ensures LogValid(ms, log.Append(log.LastIndex(), [e]))
  {
    PerformKeepsMarks(log, AppendOp(e));
    assert log.Slice(log.offset, log.LastIndex() + 1) == log.ents;
  }

  lemma AppendEntryValid(ms: set<int>, n: Node, e: Entry)
    requires NodeValid(ms, n) && n.role == Leader
    ensures n.id in n.prs && NodeValid(ms, AppendEntry(n, e))
    ensures AppendEntry(n, e).role == Leader
  {
    var last := n.log.LastIndex();
    var e' := e.(term := n.term, index := last + 1);
    var log := n.log.Append(last, [e']);
    AppendLogValid(ms, n.log, e');
    CommitValid(ms, n.(log := log, prs := n.prs[n.id := Updated(log.LastIndex())]));
  }

  lemma BecomeLeaderFine(ms: set<int>, n: Node)
    requires NodeValid(ms, n) && n.role == Candidate
    ensures Fine(ms, BecomeLeader(n))
    ensures BecomeLeader(n).Done? ==> BecomeLeader(n).node.role == Leader
  {
    ResetValid(ms, n, n.term);
    var confs := ConfChanges(n.log.Slice(n.log.committed + 1, n.log.LastIndex() + 1));
    var l := Reset(n, n.term).(lead := n.id, role := Leader, pendingConf := confs == 1);
    assert NodeValid(ms, l);
    AppendEntryValid(ms, l, DUMMY_ENTRY);
    BecomeLeaderCases(n, l);
  }

  lemma BecomeLeaderCases(n: Node, l: Node)
    requires n.role == Candidate && n.id in n.prs && n.log.committed + 1 != n.log.offset
    requires var confs := ConfChanges(n.log.Slice(n.log.committed + 1, n.log.LastIndex() + 1));
             l == Reset(n, n.term).(lead := n.id, role := Leader, pendingConf := confs == 1)
    ensures l.id in l.prs
    ensures BecomeLeader(n) == Panics(DoubleConfChange) || BecomeLeader(n) == Quiet(AppendEntry(l, DUMMY_ENTRY))
  {
  }

  lemma CampaignFine(ms: set<int>, n: Node)
    requires NodeValid(ms, n)
    ensures Fine(ms, Campaign(n))
  {
    ResetValid(ms, n, n.term + 1);
    var c := BecomeCandidate(n);
    var c1 := c.(votes := Poll(c.votes, c.id, true));
    assert NodeValid(ms, c1);
    BecomeLeaderFine(ms, c1);
    var l := BecomeLeader(c1);
    RequestsValid(ms, if l.Done? then l.node else c1);
    RequestsValid(ms, c1);
  }

  lemma RequestsValid(ms: set<int>, n: Node)
    requires NodeValid(ms, n)
    ensures Fine(ms, RequestVotes(n))
  {
  }

  lemma HandleAppendFine(ms: set<int>, n: Node, m: Message)
    requires NodeValid(ms, n) && MessageValid(ms, m) && m.typ == MSG_APP
    ensures Fine(ms, HandleAppendEntries(n, m))
  {
    var log := n.log;
    if log.MatchTerm(m.index, m.logTerm) && !log.Overwrites(m.index, m.entries) {
      PerformKeepsMarks(log, MaybeAppendOp(m.index, m.logTerm, m.commit, m.entries));
      AppendedTerms(ms, log, m);
    }
  }

  lemma AppendedTerms(ms: set<int>, log: Log, m: Message)
    requires LogValid(ms, log) && MessageValid(ms, m) && m.typ == MSG_APP
    requires log.MatchTerm(m.index, m.logTerm) && !log.Overwrites(m.index, m.entries)
    ensures TermsPositive(log.Appended(m.index, m.entries)) && SnapshotAtOffset(ms, log.Appended(m.index, m.entries))
  {
    var ci := log.FindConflict(m.index + 1, m.entries);
    var a := AppendedAt(log, m.index, m.entries, ci);
    if ci != -1 {
      ConflictWithin(log, m.index + 1, m.entries);
      JoinedTerms(ms, log, ci - 1, m.entries, ci - (m.index + 1));
    }
  }

  lemma JoinedTerms(ms: set<int>, log: Log, after: int, es: seq<Entry>, k: nat)
    requires LogValid(ms, log) && log.offset <= after <= log.LastIndex() && k <= |es|
    requires forall j :: 0 <= j < |es| ==> es[j].term > 0
    ensures var l := log.Append(after, es[k..]);
            TermsPositive(l) && SnapshotAtOffset(ms, l)
  {
    var l := log.Append(after, es[k..]);
    var kept := log.ents[..after + 1 - log.offset];
    assert log.Slice(log.offset, after + 1) == kept;
    forall j | 1 <= j < |l.ents| ensures l.ents[j].term > 0 {
      if j < |kept| {
        assert l.ents[j] == log.ents[j];
      } else {
        assert l.ents[j] == es[k..][j - |kept|] == es[k + (j - |kept|)];
      }
    }
    assert l.ents[0] == log.ents[0];
  }

  lemma HandleSnapshotFine(ms: set<int>, n: Node, m: Message)
    requires NodeValid(ms, n) && MessageValid(ms, m) && m.typ == MSG_SNAP
    ensures Fine(ms, HandleSnapshot(n, m))
  {
    if CanRestore(n, m.snapshot) {
      var r := Restore(n, m.snapshot);
      assert forall i :: i in r.prs.Keys <==> i in m.snapshot.nodes;
      SameMembers(r.prs.Keys, ms);
    }
  }

  lemma StepLeaderFine(ms: set<int>, n: Node, m: Message)
    requires NodeValid(ms, n) && MessageValid(ms, m) && n.role == Leader
    ensures Fine(ms, StepLeader(n, m))
  {
    if m.typ == MSG_PROP {
      if |m.entries| == 1 {
        var e := m.entries[0];
        var n1 := n.(pendingConf := n.pendingConf || e.typ == ENTRY_CONF_CHANGE);
        AppendEntryValid(ms, n1, e);
        BcastFine(ms, AppendEntry(n1, e));
      }
    } else if m.typ == MSG_APP_RESP {
      var u := n.(prs := n.prs[m.from := if m.denied then n.prs[m.from].Decr() else Updated(m.index)]);
      assert NodeValid(ms, u);
      ServesPeer(ms, u, m.from);
      CommitValid(ms, u);
      BcastFine(ms, MaybeCommit(u));
    }
  }

  lemma StepCandidateFine(ms: set<int>, n: Node, m: Message)
    requires NodeValid(ms, n) && MessageValid(ms, m) && n.role == Candidate
    ensures Fine(ms, StepCandidate(n, m))
  {
    if m.typ == MSG_APP {
      ResetValid(ms, n, n.term);
      HandleAppendFine(ms, BecomeFollower(n, n.term, m.from), m);
    } else if m.typ == MSG_SNAP {
      ResetValid(ms, n, m.term);
      HandleSnapshotFine(ms, BecomeFollower(n, m.term, m.from), m);
    } else if m.typ == MSG_VOTE_RESP {
      CandidatePollFine(ms, n, m);
    }
  }

  lemma CandidatePollFine(ms: set<int>, n: Node, m: Message)
    requires NodeValid(ms, n) && n.role == Candidate
    ensures Fine(ms, CandidatePoll(n, m))
  {
    var c := n.(votes := Poll(n.votes, m.from, !m.denied));
    WinFine(ms, c);
    ResetValid(ms, c, c.term);
    assert NodeValid(ms, BecomeFollower(c, c.term, NONE));
  }

  lemma WinFine(ms: set<int>, c: Node)
    requires NodeValid(ms, c) && c.role == Candidate
    ensures var l := BecomeLeader(c);
            Fine(ms, if l.Panics? then l else BcastAppend(l.node))
  {
    BecomeLeaderFine(ms, c);
    var l := BecomeLeader(c);
    if l.Done? {
      BcastFine(ms, l.node);
    }
  }

  lemma StepFollowerFine(ms: set<int>, n: Node, m: Message)
    requires NodeValid(ms, n) && MessageValid(ms, m) && n.role == Follower
    ensures Fine(ms, StepFollower(n, m))
  {
    if m.typ == MSG_APP {
      HandleAppendFine(ms, n.(lead := m.from), m);
    } else if m.typ == MSG_SNAP {
      HandleSnapshotFine(ms, n, m);
    }
  }

  lemma DispatchFine(ms: set<int>, n: Node, m: Message)
    requires NodeValid(ms, n) && MessageValid(ms, m)
    ensures Fine(ms, Dispatch(n, m))
  {
    match n.role
    case Leader => StepLeaderFine(ms, n, m);
    case Candidate => StepCandidateFine(ms, n, m);
    case Follower => StepFollowerFine(ms, n, m);
  }

  /** Whatever valid message a node handles, it does not panic while sending, and the
      node and its messages stay valid. */
  lemma StepFine(ms: set<int>, n: Node, m: Message)
    requires NodeValid(ms, n) && MessageValid(ms, m)
    ensures Fine(ms, Step(n, m))
  {
    if m.typ == MSG_HUP {
      CampaignFine(ms, n);
      var o := Campaign(n);
      if o.Done? {
        HupSendsNothing(o.node, m);
        DeliverFine(ms, o.node, m);
      }
    } else {
      DeliverFine(ms, n, m);
    }
  }

  lemma DeliverFine(ms: set<int>, n: Node, m: Message)
    requires NodeValid(ms, n) && MessageValid(ms, m)
    ensures Fine(ms, Deliver(n, m))
  {
    if !Stale(n, m) {
      if m.term > n.term {
        ResetValid(ms, n, m.term);
      }
      DispatchFine(ms, Observe(n, m), m);
    }
  }

  // ---- Compaction and hand-over ----

  lemma CompactValid(ms: set<int>, n: Node, data: Bytes, nodes: seq<int>)
    requires NodeValid(ms, n) && Enumerates(nodes, ms)
    ensures n.log.CanCompact(n.log.applied)
    ensures NodeValid(ms, CompactNode(n, data, nodes))
  {
    var i := n.log.applied;
    CompactLogValid(ms, n.log, n.log.Snap(data, i, n.log.Term(i), nodes), i);
  }

  lemma CompactLogValid(ms: set<int>, log: Log, snapped: Log, i: int)
    requires LogValid(ms, log) && log.offset <= i <= log.applied && snapped == log.(snapshot := snapped.snapshot)
    requires snapped.snapshot.index == i && snapped.snapshot.term == log.Term(i)
    requires Enumerates(snapped.snapshot.nodes, ms)
    ensures LogValid(ms, snapped.Compact(i))
  {
    PerformKeepsMarks(snapped, CompactOp(i));
    assert snapped.Slice(i, snapped.LastIndex() + 1) == log.ents[i - log.offset..];
  }

  lemma HandOverValid(ms: set<int>, n: Node)
    requires NodeValid(ms, n)
    ensures NodeValid(ms, HandOver(n))
  {
    PerformKeepsMarks(n.log, ReadyOp);
  }

  // ---- Whole runs ----

  datatype Event =
    | Handle(id: int, m: Message)                            // a local message, or one from the network
    | ReadyTaken(id: int)                                    // a Ready is delivered
    | CompactAt(id: int, data: Bytes, nodes: seq<int>)       // the server takes a snapshot

  predicate Local(id: int, m: Message) {
    m.term == 0 && m.from == id && m.typ in {MSG_HUP, MSG_BEAT, MSG_PROP}
  }

  ghost predicate Possible(ms: set<int>, s: Cluster, v: Event) {
    && v.id in s.nodes
    && match v
       case Handle(id, m) => (m in s.net || Local(id, m)) && Step(s.nodes[id], m).Done?
       case ReadyTaken(id) => true
       case CompactAt(id, data, nodes) => Enumerates(nodes, ms)
  }

  ghost function Happens(ms: set<int>, s: Cluster, v: Event): Cluster
    requires Possible(ms, s, v)
  {
    var n := s.nodes[v.id];
    match v
    case Handle(id, m) => Put(s, id, Step(n, m).node, Step(n, m).out)
    case ReadyTaken(id) => s.(nodes := s.nodes[id := HandOver(n)])
    case CompactAt(id, data, nodes) => s.(nodes := s.nodes[id := CompactNode(n, data, nodes)])
  }

  ghost predicate Reachable(ms: set<int>, events: seq<Event>, s: Cluster)
    decreases |events|
  {
    if events == [] then s == Start(ms)
    else
      var v := events[|events| - 1];
      exists s0 :: Reachable(ms, events[..|events| - 1], s0) && Possible(ms, s0, v) && s == Happens(ms, s0, v)
  }

  ghost predicate ClusterValid(ms: set<int>, s: Cluster) {
    && s.nodes.Keys == ms
    && (forall i {:trigger NodeValid(ms, s.nodes[i])} :: i in s.nodes ==> NodeValid(ms, s.nodes[i]))
    && (forall m {:trigger MessageValid(ms, m)} :: m in s.net ==> MessageValid(ms, m))
  }

  lemma ReplacedValid(ms: set<int>, s: Cluster, i: int, n: Node, out: set<Message>)
    requires ClusterValid(ms, s) && i in ms && NodeValid(ms, n) && forall m :: m in out ==> MessageValid(ms, m)
    ensures ClusterValid(ms, Cluster(s.nodes[i := n], s.net + out))
  {
  }

  lemma EventKeepsValid(ms: set<int>, s: Cluster, v: Event)
    requires ClusterValid(ms, s) && Possible(ms, s, v)
    ensures ClusterValid(ms, Happens(ms, s, v))
  {
    var n := s.nodes[v.id];
    assert s.net + {} == s.net;
    match v
    case Handle(id, m) =>
      AnsweredFine(ms, s, id, m);
      ReplacedValid(ms, s, id, Step(n, m).node, Step(n, m).out);
    case ReadyTaken(id) =>
      HandOverValid(ms, n);
      ReplacedValid(ms, s, id, HandOver(n), {});
    case CompactAt(id, data, nodes) =>
      CompactValid(ms, n, data, nodes);
      ReplacedValid(ms, s, id, CompactNode(n, data, nodes), {});
  }

  lemma NewRaftValid(ms: set<int>, i: int)
    requires i in ms
    ensures NodeValid(ms, NewRaft(i, ms))
  {
    assert NewRaft(i, ms).prs.Keys == ms;
  }

  lemma StartValid(ms: set<int>, s: Cluster)
    requires s == Start(ms)
    ensures ClusterValid(ms, s)
  {
    forall i | i in s.nodes ensures NodeValid(ms, s.nodes[i]) {
      NewRaftValid(ms, i);
    }
  }

  lemma {:induction false} ReachableValid(ms: set<int>, events: seq<Event>, s: Cluster)
    requires NONE !in ms && Reachable(ms, events, s)
    ensures ClusterValid(ms, s)
    decreases |events|
  {
    if events == [] {
      StartValid(ms, s);
    } else {
      var v := events[|events| - 1];
      var s0 :| Reachable(ms, events[..|events| - 1], s0) && Possible(ms, s0, v) && s == Happens(ms, s0, v);
      ReachableValid(ms, events[..|events| - 1], s0);
      EventKeepsValid(ms, s0, v);
    }
  }

  /** In every reachable state every node can serve every peer. */
  lemma SendingNeverPanics(ms: set<int>, events: seq<Event>, s: Cluster, i: int, to: int)
    requires NONE !in ms && Reachable(ms, events, s) && i in s.nodes && to in ms
    ensures var n := s.nodes[i];
            && to in n.prs && n.prs[to].next >= 1 && !SendPanics(n, to)
            && (NeedsSnapshot(n, n.prs[to].next - 1) ==>
                  n.log.snapshot.index == n.log.offset && n.log.snapshot.term > 0)
            && (!NeedsSnapshot(n, n.prs[to].next - 1) ==> n.prs[to].next != n.log.offset)
  {
    ReachableValid(ms, events, s);
    ServesPeer(ms, s.nodes[i], to);
  }

  /** Nothing a node may be given makes it panic because of a missing snapshot, the offset
      slot, an unknown peer, an empty log or a follower that wins. */
  lemma NoPanicFromSending(ms: set<int>, events: seq<Event>, s: Cluster, i: int, m: Message)
    requires NONE !in ms && Reachable(ms, events, s) && i in s.nodes && (m in s.net || Local(i, m))
    requires Step(s.nodes[i], m).Panics?
    ensures NotFromSending(Step(s.nodes[i], m).why)
  {
    ReachableValid(ms, events, s);
    AnsweredFine(ms, s, i, m);
  }

  lemma AnsweredFine(ms: set<int>, s: Cluster, i: int, m: Message)
    requires ClusterValid(ms, s) && i in s.nodes && (m in s.net || Local(i, m))
    ensures Fine(ms, Step(s.nodes[i], m))
  {
    StepFine(ms, s.nodes[i], m);
  }
}
