/** Servers joined by the network, each with its own log on disk: they handle messages, take
    Readys, compact their logs, stop and start again, and send messages only once what led to
    them is saved. Whatever happens when, what has been saved is a run of the cluster of
    `Cluster.dfy`, so that what is proved of those runs holds of what the servers apply. */
module ServerClusters {
  import opened Collections
  import opened RaftTypes
  import opened RaftLogModel
  import opened RaftNodeModel
  import opened Cluster
  import opened RaftInvariants
  import opened NodeSteps
  import opened Compaction
  import opened RaftSafety
  import opened RaftSafetySteps
  import S = ServerModel
  import SS = ServerSafety
  import WalHistory

  // ---- A compacted log against the whole log ----

  // b is the log a with the entries before its offset, which are those of base.
  predicate Whole(base: seq<Entry>, a: Log, b: Log) {
    && 0 <= a.offset <= |base| && b.offset == 0
    && b.ents == base[..a.offset] + a.ents && b.committed == a.committed
  }

  // The nodes differ at most in how much of the log they have, in what of it has been saved
  // and applied, and in what a node that does not lead thinks of its peers.
  predicate Alike(base: seq<Entry>, n: Node, f: Node) {
    && f == n.(log := f.log, prs := f.prs) && Whole(base, n.log, f.log)
    && f.prs.Keys == n.prs.Keys && (n.role == Leader ==> f.prs == n.prs)
  }

  // What the whole node sends covers what the other sends, snapshots apart.
  predicate Sends(out: set<Message>, out': set<Message>) {
    forall m :: m in out && m.typ != MSG_SNAP ==> m in out'
  }

  ghost predicate AlikeOutcome(base: seq<Entry>, o: Outcome, o': Outcome) {
    o.Done? ==> o'.Done? && Sends(o.out, o'.out) && Alike(base, o.node, o'.node)
  }

  predicate Serving(f: Node) {
    forall i :: i in f.prs ==> f.prs[i].next >= 1
  }

  lemma WholeAt(base: seq<Entry>, a: Log, b: Log, i: int)
    requires Whole(base, a, b) && a.Valid() && i >= a.offset
    ensures a.LastIndex() == b.LastIndex() && a.OutOfBounds(i) == b.OutOfBounds(i) && a.Term(i) == b.Term(i)
    ensures forall t :: a.MatchTerm(i, t) == b.MatchTerm(i, t)
  {
    assert !a.OutOfBounds(i) ==> b.ents[i] == a.ents[i - a.offset];
  }

  lemma WholeSlice(base: seq<Entry>, a: Log, b: Log, lo: int, hi: int)
    requires Whole(base, a, b) && a.Valid() && lo >= a.offset
    ensures a.Slice(lo, hi) == b.Slice(lo, hi)
  {
    WholeAt(base, a, b, lo);
    if lo < hi {
      WholeAt(base, a, b, hi - 1);
    }
  }

  lemma {:induction false} WholeConflict(base: seq<Entry>, a: Log, b: Log, from: int, es: seq<Entry>)
    requires Whole(base, a, b) && a.Valid() && from >= a.offset
    ensures a.FindConflict(from, es) == b.FindConflict(from, es)
    decreases |es|
  {
    if es != [] {
      WholeAt(base, a, b, from);
      WholeConflict(base, a, b, from + 1, es[1..]);
    }
  }

  lemma WholeAppend(base: seq<Entry>, a: Log, b: Log, after: int, es: seq<Entry>)
    requires Whole(base, a, b) && a.Valid() && a.offset <= after <= a.LastIndex()
    ensures Whole(base, a.Append(after, es), b.Append(after, es))
  {
    var k := after + 1 - a.offset;
    assert a.Slice(a.offset, after + 1) == a.ents[..k];
    assert b.Slice(0, after + 1) == b.ents[..after + 1] == base[..a.offset] + a.ents[..k];
    Assoc(base[..a.offset], a.ents[..k], es);
  }

  lemma WholeAppended(base: seq<Entry>, a: Log, b: Log, index: int, es: seq<Entry>)
    requires Whole(base, a, b) && a.Valid() && a.offset <= index <= a.LastIndex() && !a.Overwrites(index, es)
    ensures Whole(base, a.Appended(index, es), b.Appended(index, es)) && !b.Overwrites(index, es)
    ensures a.Appended(index, es).LastIndex() == b.Appended(index, es).LastIndex()
  {
    var ci := a.FindConflict(index + 1, es);
    WholeConflict(base, a, b, index + 1, es);
    var _ := AppendedAt(a, index, es, ci);
    var _ := AppendedAt(b, index, es, ci);
    if ci != -1 {
      ConflictWithin(a, index + 1, es);
      WholeFrom(base, a, b, ci, es, ci - (index + 1));
    }
  }

  lemma WholeFrom(base: seq<Entry>, a: Log, b: Log, ci: int, es: seq<Entry>, k: nat)
    requires Whole(base, a, b) && a.Valid() && a.committed < ci <= a.LastIndex() + 1 && k < |es|
    ensures Whole(base, a.Append(ci - 1, es[k..]), b.Append(ci - 1, es[k..]))
    ensures a.Append(ci - 1, es[k..]).LastIndex() == b.Append(ci - 1, es[k..]).LastIndex()
  {
    WholeAppend(base, a, b, ci - 1, es[k..]);
  }

  lemma WholeMaybeAppend(base: seq<Entry>, a: Log, b: Log, index: int, term: int, c: int, es: seq<Entry>)
    requires Whole(base, a, b) && a.Valid() && index >= a.offset
    ensures match a.MaybeAppend(index, term, c, es)
            case Accepted(l) =>
              && b.MaybeAppend(index, term, c, es).Accepted?
              && Whole(base, l, b.MaybeAppend(index, term, c, es).log)
              && l.LastIndex() == b.MaybeAppend(index, term, c, es).log.LastIndex()
            case Rejected => b.MaybeAppend(index, term, c, es).Rejected?
            case Conflict => true
  {
    WholeAt(base, a, b, index);
    if a.MatchTerm(index, term) && !a.Overwrites(index, es) {
      WholeAppended(base, a, b, index, es);
    }
  }

  // ---- Step makes no difference between the two ----

  predicate Sturdy(n: Node) { n.log.Valid() && n.term >= 0 }

  lemma AlikeSent(base: seq<Entry>, n: Node, f: Node, i: int)
    requires Alike(base, n, f) && Sturdy(n) && n.role == Leader && Serving(f) && i in n.prs
    ensures !SendPanics(f, i)
    ensures AppendMessage(n, i).typ != MSG_SNAP ==> AppendMessage(n, i) == AppendMessage(f, i)
  {
    var prev := n.prs[i].next - 1;
    if prev >= n.log.offset {
      WholeAt(base, n.log, f.log, prev);
      WholeSlice(base, n.log, f.log, prev + 1, n.log.LastIndex() + 1);
    }
  }

  lemma AlikeBcast(base: seq<Entry>, n: Node, f: Node)
    requires Alike(base, n, f) && Sturdy(n) && n.role == Leader && Serving(f)
    ensures AlikeOutcome(base, BcastAppend(n), BcastAppend(f))
  {
    forall i | i in Peers(n)
      ensures !SendPanics(f, i) && (AppendMessage(n, i).typ != MSG_SNAP ==> AppendMessage(n, i) == AppendMessage(f, i))
    {
      AlikeSent(base, n, f, i);
    }
    if BcastAppend(n).Done? {
      forall m | m in BcastAppend(n).out && m.typ != MSG_SNAP ensures m in BcastAppend(f).out {
        var i :| i in Peers(n) && m == AppendMessage(n, i);
        assert i in Peers(f) && m == AppendMessage(f, i);
      }
    }
  }

  lemma AlikeMaybeCommit(base: seq<Entry>, n: Node, f: Node)
    requires Alike(base, n, f) && Sturdy(n) && n.role == Leader && n.prs != map[]
    ensures n.log.CanCommit(QuorumMatch(n), n.term) == f.log.CanCommit(QuorumMatch(f), f.term)
    ensures Alike(base, MaybeCommit(n), MaybeCommit(f)) && Sturdy(MaybeCommit(n))
    ensures MaybeCommit(f).prs == f.prs && MaybeCommit(n).role == Leader
  {
    assert MatchedIndexes(n) == MatchedIndexes(f);
    var q := QuorumMatch(n);
    if q > n.log.committed {
      WholeAt(base, n.log, f.log, q);
    }
  }

  lemma AppendEntryIs(n: Node, e: Entry)
    requires n.id in n.prs && n.log.ents != [] && n.log.offset >= 0
    ensures var last := n.log.LastIndex();
            var log := n.log.Append(last, [e.(term := n.term, index := last + 1)]);
            var u := n.(log := log, prs := n.prs[n.id := Updated(last + 1)]);
            AppendEntry(n, e) == MaybeCommit(u) && log.ents == n.log.ents + [e.(term := n.term, index := last + 1)]
  {
    assert n.log.Slice(n.log.offset, n.log.LastIndex() + 1) == n.log.ents;
  }

  lemma AlikeAppendEntry(base: seq<Entry>, n: Node, f: Node, e: Entry)
    requires Alike(base, n, f) && Sturdy(n) && n.role == Leader && n.id in n.prs && Serving(f)
    ensures var a, b := AppendEntry(n, e), AppendEntry(f, e);
            Alike(base, a, b) && Sturdy(a) && a.role == Leader && Serving(b)
  {
    var last := n.log.LastIndex();
    WholeAt(base, n.log, f.log, last);
    AppendEntryIs(n, e);
    AppendEntryIs(f, e);
    var es, prs := [e.(term := n.term, index := last + 1)], n.prs[n.id := Updated(last + 1)];
    WholeAppend(base, n.log, f.log, last, es);
    var n1, f1 := n.(log := n.log.Append(last, es), prs := prs), f.(log := f.log.Append(last, es), prs := prs);
    assert n.id in prs;
    AlikeMaybeCommit(base, n1, f1);
  }

  lemma AlikeReset(base: seq<Entry>, n: Node, f: Node, t: int)
    requires Alike(base, n, f) && Sturdy(n)
    ensures Reset(n, t).prs == Reset(f, t).prs && Serving(Reset(f, t)) && Reset(f, t).prs.Keys == f.prs.Keys
    ensures Reset(f, t) == Reset(n, t).(log := f.log)
  {
    WholeAt(base, n.log, f.log, n.log.LastIndex());
  }

  lemma AlikeFollower(base: seq<Entry>, n: Node, f: Node, t: int, lead: int)
    requires Alike(base, n, f) && Sturdy(n)
    ensures Alike(base, BecomeFollower(n, t, lead), BecomeFollower(f, t, lead)) && Serving(BecomeFollower(f, t, lead))
  {
    AlikeReset(base, n, f, t);
  }

  lemma AlikeWinner(base: seq<Entry>, n: Node, f: Node, pending: bool)
    requires Alike(base, n, f) && Sturdy(n) && n.id in n.prs
    ensures var l := Reset(n, n.term).(lead := n.id, role := Leader, pendingConf := pending);
            var k := Reset(f, n.term).(lead := n.id, role := Leader, pendingConf := pending);
            && n.id in l.prs && n.id in k.prs
            && var a, b := AppendEntry(l, DUMMY_ENTRY), AppendEntry(k, DUMMY_ENTRY);
               Alike(base, a, b) && Sturdy(a) && a.role == Leader && Serving(b)
  {
    AlikeReset(base, n, f, n.term);
    var l := Reset(n, n.term).(lead := n.id, role := Leader, pendingConf := pending);
    var k := Reset(f, n.term).(lead := n.id, role := Leader, pendingConf := pending);
    AlikeAppendEntry(base, l, k, DUMMY_ENTRY);
  }

  lemma AlikeLeader(base: seq<Entry>, n: Node, f: Node)
    requires Alike(base, n, f) && Sturdy(n)
    ensures AlikeOutcome(base, BecomeLeader(n), BecomeLeader(f))
    ensures BecomeLeader(n).Done? ==>
              && Sturdy(BecomeLeader(n).node) && BecomeLeader(n).node.role == Leader
              && BecomeLeader(f).Done? && Serving(BecomeLeader(f).node)
  {
    if BecomeLeader(n).Done? {
      WholeAt(base, n.log, f.log, n.log.LastIndex());
      WholeSlice(base, n.log, f.log, n.log.committed + 1, n.log.LastIndex() + 1);
      var confs := ConfChanges(n.log.Slice(n.log.committed + 1, n.log.LastIndex() + 1));
      AlikeWinner(base, n, f, confs == 1);
    }
  }

  lemma AlikeRequests(base: seq<Entry>, n: Node, f: Node)
    requires Alike(base, n, f) && Sturdy(n)
    ensures AlikeOutcome(base, RequestVotes(n), RequestVotes(f))
  {
    WholeAt(base, n.log, f.log, n.log.LastIndex());
    forall i | i in Peers(n) ensures VoteRequest(n, i) == VoteRequest(f, i) {
    }
    forall m | m in RequestVotes(n).out ensures m in RequestVotes(f).out {
      var i :| i in Peers(n) && m == VoteRequest(n, i);
      assert i in Peers(f) && m == VoteRequest(f, i);
    }
  }

  lemma AlikeCampaign(base: seq<Entry>, n: Node, f: Node)
    requires Alike(base, n, f) && Sturdy(n)
    ensures AlikeOutcome(base, Campaign(n), Campaign(f))
  {
    if n.role != Leader {
      AlikeReset(base, n, f, n.term + 1);
      var c, d := BecomeCandidate(n), BecomeCandidate(f);
      var c1, d1 := c.(votes := Poll(c.votes, c.id, true)), d.(votes := Poll(d.votes, d.id, true));
      AlikeLeader(base, c1, d1);
      AlikeRequests(base, c1, d1);
      if BecomeLeader(c1).Done? {
        AlikeRequests(base, BecomeLeader(c1).node, BecomeLeader(d1).node);
      }
    }
  }

  lemma AlikeHandleAppend(base: seq<Entry>, n: Node, f: Node, m: Message)
    requires Alike(base, n, f) && Sturdy(n) && n.role == Follower && m.index >= n.log.offset
    ensures AlikeOutcome(base, HandleAppendEntries(n, m), HandleAppendEntries(f, m))
  {
    WholeMaybeAppend(base, n.log, f.log, m.index, m.logTerm, m.commit, m.entries);
  }

  // A log that no longer has the entry before the message denies it.
  lemma BelowOffset(n: Node, m: Message)
    requires m.index < n.log.offset
    ensures HandleAppendEntries(n, m) == Reply(n, Blank(MSG_APP_RESP, m.from).(denied := true))
  {
  }

  lemma AlikeProposal(base: seq<Entry>, n: Node, f: Node, m: Message)
    requires Alike(base, n, f) && Sturdy(n) && n.role == Leader && Serving(f)
    ensures AlikeOutcome(base, LeaderProposal(n, m), LeaderProposal(f, m))
  {
    if |m.entries| == 1 && n.id in n.prs {
      var e := m.entries[0];
      var p := n.pendingConf || e.typ == ENTRY_CONF_CHANGE;
      var l, k := n.(pendingConf := p), f.(pendingConf := p);
      AlikeAppendEntry(base, l, k, e);
      AlikeBcast(base, AppendEntry(l, e), AppendEntry(k, e));
    }
  }

  lemma AlikeAck(base: seq<Entry>, n: Node, f: Node, m: Message)
    requires Alike(base, n, f) && Sturdy(n) && n.role == Leader && Serving(f) && (m.denied || m.index >= 0)
    ensures AlikeOutcome(base, LeaderAck(n, m), LeaderAck(f, m))
  {
    if m.from in n.prs {
      var p := n.prs[m.from := if m.denied then n.prs[m.from].Decr() else Updated(m.index)];
      var u, v := n.(prs := p), f.(prs := p);
      assert m.from in u.prs;
      if m.denied {
        AlikeSent(base, u, v, m.from);
      } else {
        AlikeMaybeCommit(base, u, v);
        AlikeBcast(base, MaybeCommit(u), MaybeCommit(v));
      }
    }
  }

  lemma AlikeHeartbeats(base: seq<Entry>, n: Node, f: Node)
    requires Alike(base, n, f)
    ensures AlikeOutcome(base, BcastHeartbeat(n), BcastHeartbeat(f))
  {
    forall m | m in BcastHeartbeat(n).out ensures m in BcastHeartbeat(f).out {
      var i :| i in Peers(n) && m == Heartbeat(n, i);
      assert i in Peers(f) && m == Heartbeat(f, i);
    }
  }

  // What a message must be for a server to take it.
  predicate Plain(m: Message) {
    m.typ != MSG_SNAP && (m.typ == MSG_APP_RESP && !m.denied ==> m.index >= 0)
  }

  lemma AlikeStepLeader(base: seq<Entry>, n: Node, f: Node, m: Message)
    requires Alike(base, n, f) && Sturdy(n) && n.role == Leader && Serving(f) && Plain(m)
    ensures AlikeOutcome(base, StepLeader(n, m), StepLeader(f, m))
  {
    if m.typ == MSG_BEAT {
      AlikeHeartbeats(base, n, f);
    } else if m.typ == MSG_PROP {
      AlikeProposal(base, n, f, m);
    } else if m.typ == MSG_APP_RESP {
      AlikeAck(base, n, f, m);
    }
  }

  lemma AlikePoll(base: seq<Entry>, n: Node, f: Node, m: Message)
    requires Alike(base, n, f) && Sturdy(n) && n.role == Candidate
    ensures AlikeOutcome(base, CandidatePoll(n, m), CandidatePoll(f, m))
  {
    var votes := Poll(n.votes, m.from, !m.denied);
    var c, d := n.(votes := votes), f.(votes := votes);
    var granted := |Granted(votes)|;
    assert |n.prs| == |n.prs.Keys| && |f.prs| == |f.prs.Keys|;
    if Q(c) == granted {
      AlikeLeader(base, c, d);
      if BecomeLeader(c).Done? {
        AlikeBcast(base, BecomeLeader(c).node, BecomeLeader(d).node);
      }
    } else {
      AlikeFollower(base, c, d, c.term, NONE);
    }
  }

  lemma AlikeStepCandidate(base: seq<Entry>, n: Node, f: Node, m: Message)
    requires Alike(base, n, f) && Sturdy(n) && n.role == Candidate && Plain(m)
    requires m.typ == MSG_APP ==> m.index >= n.log.offset
    ensures AlikeOutcome(base, StepCandidate(n, m), StepCandidate(f, m))
  {
    if m.typ == MSG_APP {
      AlikeFollower(base, n, f, n.term, m.from);
      AlikeHandleAppend(base, BecomeFollower(n, n.term, m.from), BecomeFollower(f, n.term, m.from), m);
    } else if m.typ == MSG_VOTE_RESP {
      AlikePoll(base, n, f, m);
    }
  }

  lemma AlikeStepFollower(base: seq<Entry>, n: Node, f: Node, m: Message)
    requires Alike(base, n, f) && Sturdy(n) && n.role == Follower && Plain(m)
    requires m.typ == MSG_APP ==> m.index >= n.log.offset
    ensures AlikeOutcome(base, StepFollower(n, m), StepFollower(f, m))
  {
    if m.typ == MSG_APP {
      AlikeHandleAppend(base, n.(lead := m.from), f.(lead := m.from), m);
    } else if m.typ == MSG_VOTE {
      WholeAt(base, n.log, f.log, n.log.LastIndex());
    }
  }

  lemma AlikeDispatch(base: seq<Entry>, n: Node, f: Node, m: Message)
    requires Alike(base, n, f) && Sturdy(n) && Serving(f) && Plain(m)
    requires m.typ == MSG_APP ==> m.index >= n.log.offset
    ensures AlikeOutcome(base, Dispatch(n, m), Dispatch(f, m))
  {
    match n.role
    case Leader => AlikeStepLeader(base, n, f, m);
    case Candidate => AlikeStepCandidate(base, n, f, m);
    case Follower => AlikeStepFollower(base, n, f, m);
  }

  lemma AlikeObserve(base: seq<Entry>, n: Node, f: Node, m: Message)
    requires Alike(base, n, f) && Sturdy(n) && Serving(f)
    ensures Alike(base, Observe(n, m), Observe(f, m)) && Serving(Observe(f, m)) && Observe(n, m).log == n.log
  {
    AlikeFollower(base, n, f, m.term, if m.typ == MSG_VOTE then NONE else m.from);
  }

  lemma AlikeRecorded(base: seq<Entry>, o: Outcome, o': Outcome)
    requires AlikeOutcome(base, o, o')
    ensures AlikeOutcome(base, Recorded(o), Recorded(o'))
  {
  }

  lemma AlikeDeliver(base: seq<Entry>, n: Node, f: Node, m: Message)
    requires Alike(base, n, f) && Sturdy(n) && Serving(f) && Plain(m)
    requires m.typ == MSG_APP ==> m.index >= n.log.offset
    ensures AlikeOutcome(base, Deliver(n, m), Deliver(f, m))
  {
    AlikeObserve(base, n, f, m);
    AlikeDispatch(base, Observe(n, m), Observe(f, m), m);
  }

  lemma AlikeHup(base: seq<Entry>, n: Node, f: Node, m: Message)
    requires Alike(base, n, f) && Sturdy(n) && m.typ == MSG_HUP && m.term == 0
    ensures AlikeOutcome(base, Step(n, m), Step(f, m))
  {
    AlikeCampaign(base, n, f);
    HupIsCampaign(n, m);
    HupIsCampaign(f, m);
    AlikeRecorded(base, Campaign(n), Campaign(f));
  }

  // An append message below the offset is denied by one node and refused by the other.
  lemma AlikeRefuse(base: seq<Entry>, n: Node, f: Node, m: Message)
    requires Alike(base, n, f) && Sturdy(n) && Serving(f) && m.typ == MSG_APP && m.index < n.log.offset
    ensures AlikeOutcome(base, Step(n, m), RefuseStep(f, m))
  {
    AlikeObserve(base, n, f, m);
    RefuseDispatch(base, Observe(n, m), Observe(f, m), m);
    AlikeRecorded(base, Deliver(n, m), if Stale(f, m) then Quiet(f) else RefuseAppend(Observe(f, m), m));
  }

  lemma RefuseDispatch(base: seq<Entry>, n: Node, f: Node, m: Message)
    requires Alike(base, n, f) && Sturdy(n) && m.typ == MSG_APP && m.index < n.log.offset
    ensures AlikeOutcome(base, Dispatch(n, m), RefuseAppend(f, m))
  {
    match n.role
    case Leader =>
    case Candidate =>
      BelowOffset(BecomeFollower(n, n.term, m.from), m);
      AlikeFollower(base, n, f, n.term, m.from);
    case Follower => BelowOffset(n.(lead := m.from), m);
  }

  // What the whole node does when the other handles a.
  function Seen(n: Node, a: Action): Action {
    if a.Receive? && a.m.typ == MSG_APP && a.m.index < n.log.offset then Refuse(a.m) else a
  }

  // What may happen to a server's node; a is not a snapshot from a peer.
  predicate Ordinary(a: Action) {
    !a.Refuse? && !a.Restart? && (a.Receive? ==> Plain(a.m) && a.m.typ != MSG_HUP)
  }

  /** Whatever a node is given, snapshots from peers apart: the node with the whole log takes
      the same decision, and sends at least the same messages. */
  lemma AlikeStep(base: seq<Entry>, n: Node, f: Node, a: Action)
    requires Alike(base, n, f) && Sturdy(n) && Serving(f) && Ordinary(a)
    ensures AlikeOutcome(base, Step(n, Input(a)), Respond(f, Seen(n, a)))
  {
    var m := Input(a);
    if Seen(n, a).Refuse? {
      AlikeRefuse(base, n, f, m);
    } else if a.Hup? {
      AlikeHup(base, n, f, m);
    } else {
      AlikeDeliver(base, n, f, m);
      AlikeRecorded(base, Deliver(n, m), Deliver(f, m));
    }
  }

  // ---- Runs of the cluster ----

  lemma OneMoreAction(ms: set<int>, acts: seq<Action>, a: Action)
    requires IsRun(ms, acts)
    ensures IsRun(ms, acts + [a]) <==> Enabled(After(ms, acts), a)
    ensures Enabled(After(ms, acts), a) ==> After(ms, acts + [a]) == Next(After(ms, acts), a)
  {
    assert (acts + [a])[..|acts|] == acts;
  }

  lemma RunBefore(ms: set<int>, acts: seq<Action>, t: seq<Action>)
    requires IsRun(ms, acts + t)
    ensures IsRun(ms, acts) && After(ms, acts).net <= After(ms, acts + t).net
  {
    RunGrows(ms, acts + t, |acts|);
    assert (acts + t)[..|acts|] == acts;
  }

  predicate AllOf(t: seq<Action>, j: int) { forall k :: 0 <= k < |t| ==> Actor(t[k]) == j }

  predicate NoneOf(t: seq<Action>, j: int) { forall k :: 0 <= k < |t| ==> Actor(t[k]) != j }

  // What others do leaves node j alone.
  lemma {:induction false} Untouched(ms: set<int>, acts: seq<Action>, u: seq<Action>, j: int)
    requires IsRun(ms, acts + u) && NoneOf(u, j) && IsRun(ms, acts) && j in After(ms, acts).nodes
    ensures j in After(ms, acts + u).nodes && After(ms, acts + u).nodes[j] == After(ms, acts).nodes[j]
    decreases |u|
  {
    if u == [] {
      assert acts + u == acts;
    } else {
      var n := |u| - 1;
      var u0 := u[..n];
      SplitLast(acts, u);
      RunBefore(ms, acts + u0, [u[n]]);
      Untouched(ms, acts, u0, j);
      OneElsewhere(ms, acts + u0, u[n], j);
    }
  }

  lemma OneElsewhere(ms: set<int>, acts: seq<Action>, a: Action, j: int)
    requires IsRun(ms, acts) && IsRun(ms, acts + [a]) && Actor(a) != j && j in After(ms, acts).nodes
    ensures j in After(ms, acts + [a]).nodes && After(ms, acts + [a]).nodes[j] == After(ms, acts).nodes[j]
  {
    OneMoreAction(ms, acts, a);
  }

  lemma SplitLast(acts: seq<Action>, u: seq<Action>)
    requires u != []
    ensures acts + u == (acts + u[..|u| - 1]) + [u[|u| - 1]]
  {
  }

  /** Actions of node j can be taken after actions of others as well as before them. */
  lemma {:induction false} Independent(ms: set<int>, acts: seq<Action>, u: seq<Action>, t: seq<Action>, j: int)
    requires IsRun(ms, acts) && IsRun(ms, acts + u) && IsRun(ms, acts + t) && NoneOf(u, j) && AllOf(t, j)
    requires j in After(ms, acts).nodes
    ensures IsRun(ms, (acts + u) + t) && j in After(ms, acts + t).nodes && j in After(ms, (acts + u) + t).nodes
    ensures After(ms, (acts + u) + t).nodes[j] == After(ms, acts + t).nodes[j]
    ensures After(ms, acts + t).net <= After(ms, (acts + u) + t).net
    decreases |t|
  {
    if t == [] {
      assert acts + t == acts && (acts + u) + t == acts + u;
      Untouched(ms, acts, u, j);
      RunBefore(ms, acts, u);
    } else {
      var n := |t| - 1;
      var t0, a := t[..n], t[n];
      SplitLast(acts, t);
      SplitLast(acts + u, t);
      RunBefore(ms, acts + t0, [a]);
      Independent(ms, acts, u, t0, j);
      SameOnward(ms, acts + t0, (acts + u) + t0, a, j);
    }
  }

  lemma SameOnward(ms: set<int>, x: seq<Action>, y: seq<Action>, a: Action, j: int)
    requires IsRun(ms, x) && IsRun(ms, y) && IsRun(ms, x + [a]) && Actor(a) == j
    requires j in After(ms, x).nodes && j in After(ms, y).nodes && After(ms, x).nodes[j] == After(ms, y).nodes[j]
    requires After(ms, x).net <= After(ms, y).net
    ensures IsRun(ms, y + [a]) && j in After(ms, x + [a]).nodes && j in After(ms, y + [a]).nodes
    ensures After(ms, y + [a]).nodes[j] == After(ms, x + [a]).nodes[j]
    ensures After(ms, x + [a]).net <= After(ms, y + [a]).net
  {
    OneMoreAction(ms, x, a);
    OneMoreAction(ms, y, a);
    SameNext(After(ms, x), After(ms, y), a, j);
  }

  lemma SameNext(c: Cluster, d: Cluster, a: Action, j: int)
    requires Enabled(c, a) && Actor(a) == j && j in d.nodes && c.nodes[j] == d.nodes[j] && c.net <= d.net
    ensures Enabled(d, a) && Next(c, a).nodes[j] == Next(d, a).nodes[j] && Next(c, a).net <= Next(d, a).net
  {
  }

  // ---- Servers on a network ----

  // queued: messages of steps that are not saved yet, which are not sent. saved and todo only
  // tell what has happened: the actions whose effects are saved, and those since, by server.
  datatype Servers = Servers(
    all: map<int, S.Server>, queued: map<int, set<Message>>, net: set<Message>,
    saved: seq<Action>, todo: map<int, seq<Action>>)

  datatype Event =
    | Act(a: Action)                        // something happens to a node
    | Ready(id: int)                        // a server takes a Ready: saves, sends, applies
    | Compact(id: int, nodes: seq<int>)     // a server's node compacts its log, and the disk log is cut
    | Crash(id: int)                        // a server stops and starts again

  predicate Complete(g: Servers, i: int) { i in g.all && i in g.queued && i in g.todo }

  ghost predicate CanHappen(ms: set<int>, g: Servers, e: Event) {
    match e
    case Act(a) =>
      && Complete(g, Actor(a)) && !a.Refuse? && !a.Restart? && (a.Receive? ==> a.m in g.net && a.m.typ != MSG_SNAP)
      && Step(g.all[Actor(a)].node, Input(a)).Done?
    case Ready(i) => Complete(g, i) && S.Enabled(g.all[i], S.TakeReady)
    case Compact(i, nodes) => Complete(g, i) && g.all[i].pending.Just? && forall x :: x in nodes <==> x in ms
    case Crash(i) => Complete(g, i) && g.all[i].hist.log != []
  }

  ghost function Happen(save: S.SaveStore, snapCount: nat, ms: set<int>, g: Servers, e: Event): Servers
    requires CanHappen(ms, g, e)
  {
    match e
    case Act(a) =>
      var i := Actor(a);
      var s := g.all[i];
      var o := Step(s.node, Input(a));
      g.(all := g.all[i := s.(node := o.node)], queued := g.queued[i := g.queued[i] + o.out],
         todo := g.todo[i := g.todo[i] + [Seen(s.node, a)]])
    case Ready(i) =>
      g.(all := g.all[i := S.Taken(save, snapCount, g.all[i])], queued := g.queued[i := {}],
         net := g.net + g.queued[i], saved := g.saved + g.todo[i], todo := g.todo[i := []])
    case Compact(i, nodes) => g.(all := g.all[i := S.Compacted(g.all[i], nodes)])
    case Crash(i) =>
      g.(all := g.all[i := S.Recovered(g.all[i], ms)], queued := g.queued[i := {}],
         saved := g.saved + [Restart(i)], todo := g.todo[i := []])
  }

  ghost function StartAll(ms: set<int>): Servers {
    Servers(map i | i in ms :: S.Start(i, ms), map i | i in ms :: {}, {}, [], map i | i in ms :: [])
  }

  // The servers after the events, if all of them can happen in turn.
  ghost function RunAll(save: S.SaveStore, snapCount: nat, ms: set<int>, events: seq<Event>): Option<Servers> {
    if events == [] then Just(StartAll(ms))
    else
      var before := RunAll(save, snapCount, ms, events[..|events| - 1]);
      var e := events[|events| - 1];
      if before.Just? && CanHappen(ms, before.value, e) then Just(Happen(save, snapCount, ms, before.value, e))
      else Nothing
  }

  // ---- What is saved is a run of the cluster ----

  ghost predicate OfMembers(ms: set<int>, s: Snapshot) {
    s.index > 0 ==> forall x :: x in s.nodes <==> x in ms
  }

  ghost predicate ServerFine(save: S.SaveStore, ms: set<int>, s: S.Server, i: int) {
    S.ServerOk(save, s) && s.node.id == i && OfMembers(ms, s.node.log.snapshot) && OfMembers(ms, s.snap)
  }

  // The node with the whole log is like the server's, and queued messages are among those sent.
  ghost predicate Follows(ms: set<int>, acts: seq<Action>, s: S.Server, queued: set<Message>, i: int) {
    && IsRun(ms, acts) && i in After(ms, acts).nodes
    && Alike(s.hist.log, s.node, After(ms, acts).nodes[i]) && Sends(queued, After(ms, acts).net)
  }

  // What is on the server's disk is what the node has after the saved actions.
  ghost predicate OnDisk(ms: set<int>, saved: seq<Action>, s: S.Server, i: int) {
    && IsRun(ms, saved) && i in After(ms, saved).nodes
    && var d := After(ms, saved).nodes[i];
       s.hist.log != [] ==> d.log.ents == s.hist.log && HardState(d.term, d.vote, d.log.committed) == s.hist.state
  }

  ghost predicate Tracked(save: S.SaveStore, ms: set<int>, g: Servers, i: int) {
    && Complete(g, i) && ServerFine(save, ms, g.all[i], i) && AllOf(g.todo[i], i)
    && Follows(ms, g.saved + g.todo[i], g.all[i], g.queued[i], i) && OnDisk(ms, g.saved, g.all[i], i)
  }

  ghost predicate Tracks(save: S.SaveStore, ms: set<int>, g: Servers) {
    && IsRun(ms, g.saved) && After(ms, g.saved).nodes.Keys == ms && g.all.Keys == ms
    && Sends(g.net, After(ms, g.saved).net)
    && forall i {:trigger Tracked(save, ms, g, i)} :: i in ms ==> Tracked(save, ms, g, i)
  }

  /** Every message of a run is one the servers can take: entries carry the indexes at which
      they are placed. */
  lemma MessagesDeliverable(ms: set<int>, acts: seq<Action>, a: Action)
    requires IsRun(ms, acts) && Actor(a) in After(ms, acts).nodes && (a.Receive? ==> a.m in After(ms, acts).net)
    requires !a.Refuse?
    ensures Deliverable(Input(a)) && (a.Receive? ==> Plain(a.m) && a.m.typ != MSG_HUP)
  {
    RunGood(ms, acts, false);
    if a.Receive? {
      var c, h := After(ms, acts), Hist(ms, acts);
      assert MessageShape(ms, c, a.m);
      if a.m.typ == MSG_APP {
        assert AppendGrounded(h, a.m) && Grounded(h, h.llog[a.m.term], a.m.term);
        EntriesIndexed(h, a.m);
      }
    }
  }

  lemma EntriesIndexed(h: History, m: Message)
    requires AppendGrounded(h, m) && Grounded(h, h.llog[m.term], m.term)
    ensures forall k :: 0 <= k < |m.entries| ==> m.entries[k].index == m.index + 1 + k
  {
    var l := h.llog[m.term];
    forall k | 0 <= k < |m.entries| ensures m.entries[k].index == m.index + 1 + k {
      assert EntryGrounded(h, l, m.index + 1 + k, m.term);
      assert m.entries[k] == l[m.index + 1 + k];
    }
  }

  lemma RunNode(ms: set<int>, acts: seq<Action>, i: int)
    requires IsRun(ms, acts) && i in ms
    ensures After(ms, acts).nodes.Keys == ms && NodeShape(ms, i, After(ms, acts).nodes[i])
    ensures Serving(After(ms, acts).nodes[i])
  {
    RunGood(ms, acts, false);
    assert NodeShape(ms, i, After(ms, acts).nodes[i]);
  }

  // ---- A message, a timer, a proposal ----

  lemma ActFollows(save: S.SaveStore, ms: set<int>, acts: seq<Action>, s: S.Server, queued: set<Message>, a: Action)
    requires Actor(a) in ms && ServerFine(save, ms, s, Actor(a)) && Follows(ms, acts, s, queued, Actor(a))
    requires !a.Refuse? && !a.Restart?
    requires (a.Receive? ==> a.m in After(ms, acts).net) && Step(s.node, Input(a)).Done?
    ensures Deliverable(Input(a))
    ensures var o := Step(s.node, Input(a));
            && Actor(Seen(s.node, a)) == Actor(a)
            && Follows(ms, acts + [Seen(s.node, a)], s.(node := o.node), queued + o.out, Actor(a))
  {
    var i, x := Actor(a), Seen(s.node, a);
    var c := After(ms, acts);
    RunNode(ms, acts, i);
    MessagesDeliverable(ms, acts, a);
    AlikeStep(s.hist.log, s.node, c.nodes[i], a);
    assert Enabled(c, x);
    OneMoreAction(ms, acts, x);
  }

  lemma ActTracked(save: S.SaveStore, snapCount: nat, ms: set<int>, g: Servers, a: Action)
    requires Tracks(save, ms, g) && CanHappen(ms, g, Act(a)) && Actor(a) in ms
    ensures Tracked(save, ms, Happen(save, snapCount, ms, g, Act(a)), Actor(a))
  {
    var i := Actor(a);
    var s, t, q := g.all[i], g.todo[i], g.queued[i];
    assert Tracked(save, ms, g, i);
    RunBefore(ms, g.saved, t);
    ActFollows(save, ms, g.saved + t, s, q, a);
    SS.HandleGood(save, s, Input(a));
    StepMoves(s.node, Input(a));
    Assoc(g.saved, t, [Seen(s.node, a)]);
  }

  // ---- A Ready ----

  // What a Ready saves is the whole log of the node.
  lemma SavedWhole(s: S.Server, h: WalHistory.Journal, f: Node)
    requires SS.SavedAs(s, h) && Alike(s.hist.log, s.node, f) && s.node.commit == s.node.log.committed
    requires s.node.log.applied == 0 || s.node.log.applied < s.node.log.unstable
    ensures f.log.ents == h.log && HardState(f.term, f.vote, f.log.committed) == h.state
    ensures Whole(h.log, s.node.log, f.log)
  {
    var off := s.node.log.offset;
    assert |f.log.ents| == |h.log|;
    forall k | 0 <= k < |h.log| ensures f.log.ents[k] == h.log[k] {
      assert k < off ==> f.log.ents[k] == s.hist.log[k];
    }
    assert h.log[..off] == s.hist.log[..off];
  }

  lemma ReadyFollows(save: S.SaveStore, snapCount: nat, ms: set<int>, acts: seq<Action>, s: S.Server,
                     queued: set<Message>, i: int)
    requires ServerFine(save, ms, s, i) && Follows(ms, acts, s, queued, i) && S.Enabled(s, S.TakeReady)
    ensures var s' := S.Taken(save, snapCount, s);
            ServerFine(save, ms, s', i) && Follows(ms, acts, s', {}, i) && OnDisk(ms, acts, s', i)
  {
    var h := SS.ReadySaved(save, s);
    SS.TakenGood(save, snapCount, s);
    SavedWhole(s, h, After(ms, acts).nodes[i]);
  }

  lemma ReadyTracked(save: S.SaveStore, snapCount: nat, ms: set<int>, g: Servers, i: int)
    requires Tracks(save, ms, g) && CanHappen(ms, g, Ready(i)) && i in ms
    ensures Tracked(save, ms, Happen(save, snapCount, ms, g, Ready(i)), i)
  {
    assert Tracked(save, ms, g, i);
    ReadyFollows(save, snapCount, ms, g.saved + g.todo[i], g.all[i], g.queued[i], i);
    assert (g.saved + g.todo[i]) + [] == g.saved + g.todo[i];
  }

  // The others, when u is saved of what somebody else did.
  lemma OthersTracked(save: S.SaveStore, ms: set<int>, g: Servers, u: seq<Action>, g': Servers, j: int)
    requires Tracks(save, ms, g) && j in ms && NoneOf(u, j) && IsRun(ms, g.saved + u) && g'.saved == g.saved + u
    requires Complete(g, j) && Complete(g', j)
    requires g'.all[j] == g.all[j] && g'.queued[j] == g.queued[j] && g'.todo[j] == g.todo[j]
    ensures Tracked(save, ms, g', j)
  {
    assert Tracked(save, ms, g, j);
    Independent(ms, g.saved, u, g.todo[j], j);
    Untouched(ms, g.saved, u, j);
  }

  // ---- A compaction ----

  lemma CompactWhole(save: S.SaveStore, s: S.Server, nodes: seq<int>, f: Node)
    requires S.ServerOk(save, s) && s.pending.Just? && Alike(s.hist.log, s.node, f)
    ensures Alike(s.hist.log, CompactNode(s.node, s.pending.value, nodes), f)
  {
    SS.CompactLog(save, s, nodes);
    var log := s.node.log;
    var k := log.applied - log.offset;
    forall j | log.offset <= j < log.applied ensures s.hist.log[j] == log.ents[j - log.offset] && j < |s.hist.log| {
      assert S.Saved(s, j);
    }
    assert S.Saved(s, log.applied);
    assert s.hist.log[..log.applied] == s.hist.log[..log.offset] + log.ents[..k];
    CutAt(log.ents, k);
    Assoc(s.hist.log[..log.offset], log.ents[..k], log.ents[k..]);
  }

  lemma CompactTracked(save: S.SaveStore, snapCount: nat, ms: set<int>, g: Servers, i: int, nodes: seq<int>)
    requires Tracks(save, ms, g) && CanHappen(ms, g, Compact(i, nodes)) && i in ms
    ensures Tracked(save, ms, Happen(save, snapCount, ms, g, Compact(i, nodes)), i)
  {
    assert Tracked(save, ms, g, i);
    var s := g.all[i];
    SS.CompactedGood(save, s, nodes);
    SS.CutGrows(s.hist);
    SS.CompactLog(save, s, nodes);
    CompactWhole(save, s, nodes, After(ms, g.saved + g.todo[i]).nodes[i]);
  }

  // ---- A restart ----

  lemma RestartWhole(save: S.SaveStore, ms: set<int>, s: S.Server, d: Node, i: int)
    requires ServerFine(save, ms, s, i) && s.hist.log != [] && NodeShape(ms, i, d)
    requires d.log.ents == s.hist.log && HardState(d.term, d.vote, d.log.committed) == s.hist.state
    requires 0 <= s.snap.index < |s.hist.log|
    ensures Alike(s.hist.log, SS.Rebuilt(s, ms), Restarted(d))
  {
    SS.RebuiltNode(save, s, ms);
    CutAt(s.hist.log, s.snap.index);
    assert Restarted(d).prs.Keys == ms;
    assert SS.Rebuilt(s, ms).prs.Keys == ms;
  }

  lemma CrashTracked(save: S.SaveStore, snapCount: nat, ms: set<int>, g: Servers, i: int)
    requires Tracks(save, ms, g) && CanHappen(ms, g, Crash(i)) && i in ms
    ensures IsRun(ms, g.saved + [Restart(i)])
    ensures Tracked(save, ms, Happen(save, snapCount, ms, g, Crash(i)), i)
  {
    assert Tracked(save, ms, g, i);
    var s := g.all[i];
    RunNode(ms, g.saved, i);
    OneMoreAction(ms, g.saved, Restart(i));
    SS.RecoveredGood(save, s, ms);
    SS.RecoveredIs(save, s, ms);
    SS.RebuiltNode(save, s, ms);
    RestartWhole(save, ms, s, After(ms, g.saved).nodes[i], i);
    assert (g.saved + [Restart(i)]) + [] == g.saved + [Restart(i)];
  }

  // ---- Whole runs ----

  lemma StartRun(ms: set<int>) returns (acts: seq<Action>)
    requires ValidMembers(ms)
    ensures acts == [] && IsRun(ms, acts) && After(ms, acts) == Start(ms)
  {
    acts := [];
  }

  lemma StartOne(save: S.SaveStore, ms: set<int>, acts: seq<Action>, g: Servers, i: int)
    requires i in ms && i != NONE && IsRun(ms, acts) && After(ms, acts) == Start(ms) && g.saved == acts
    requires Complete(g, i) && g.all[i] == S.Start(i, ms) && g.queued[i] == {} && g.todo[i] == []
    ensures Tracked(save, ms, g, i)
  {
    SS.StartGood(save, i, ms);
    assert g.saved + g.todo[i] == acts;
    assert After(ms, acts).nodes[i] == NewRaft(i, ms);
  }

  lemma TracksStart(save: S.SaveStore, ms: set<int>, acts: seq<Action>, g: Servers)
    requires ValidMembers(ms) && IsRun(ms, acts) && After(ms, acts) == Start(ms)
    requires g.saved == acts && g.net == {} && g.all.Keys == ms
    requires forall i :: i in ms ==>
               Complete(g, i) && g.all[i] == S.Start(i, ms) && g.queued[i] == {} && g.todo[i] == []
    ensures Tracks(save, ms, g)
  {
    forall i | i in ms ensures Tracked(save, ms, g, i) {
      StartOne(save, ms, acts, g, i);
    }
  }

  lemma StartTracked(save: S.SaveStore, ms: set<int>, g: Servers)
    requires ValidMembers(ms) && g == StartAll(ms)
    ensures Tracks(save, ms, g)
  {
    var acts := StartRun(ms);
    TracksStart(save, ms, acts, g);
  }

  lemma EventTracked(save: S.SaveStore, snapCount: nat, ms: set<int>, g: Servers, e: Event, i: int)
    requires Tracks(save, ms, g) && CanHappen(ms, g, e) && i == (if e.Act? then Actor(e.a) else e.id) && i in ms
    ensures var g' := Happen(save, snapCount, ms, g, e);
            Tracked(save, ms, g', i) && IsRun(ms, g'.saved) && Sends(g'.net, After(ms, g'.saved).net)
  {
    assert Tracked(save, ms, g, i);
    match e
    case Act(a) => ActTracked(save, snapCount, ms, g, a);
    case Ready(_) =>
      ReadyTracked(save, snapCount, ms, g, i);
      RunBefore(ms, g.saved, g.todo[i]);
    case Compact(_, nodes) => CompactTracked(save, snapCount, ms, g, i, nodes);
    case Crash(_) =>
      CrashTracked(save, snapCount, ms, g, i);
      RunBefore(ms, g.saved, [Restart(i)]);
  }

  // What the event adds to the saved actions, all of them of the server it happens to.
  lemma EventSaves(save: S.SaveStore, snapCount: nat, ms: set<int>, g: Servers, e: Event, i: int)
      returns (u: seq<Action>)
    requires CanHappen(ms, g, e) && i == (if e.Act? then Actor(e.a) else e.id) && i in g.todo && AllOf(g.todo[i], i)
    ensures Happen(save, snapCount, ms, g, e).saved == g.saved + u && AllOf(u, i)
  {
    u := if e.Ready? then g.todo[i] else if e.Crash? then [Restart(i)] else [];
  }

  // Nothing happens to the servers other than i.
  ghost predicate OnlyAt(ms: set<int>, g: Servers, g': Servers, i: int) {
    && g'.all.Keys == ms
    && forall j {:trigger Complete(g', j)} :: j in ms && j != i ==>
         && Complete(g, j) && Complete(g', j)
         && g'.all[j] == g.all[j] && g'.queued[j] == g.queued[j] && g'.todo[j] == g.todo[j]
  }

  lemma EventOnly(save: S.SaveStore, snapCount: nat, ms: set<int>, g: Servers, e: Event, i: int)
    requires CanHappen(ms, g, e) && i == (if e.Act? then Actor(e.a) else e.id) && g.all.Keys == ms
    requires forall j {:trigger Complete(g, j)} :: j in ms ==> Complete(g, j)
    ensures OnlyAt(ms, g, Happen(save, snapCount, ms, g, e), i)
  {
    forall j | j in ms ensures Complete(g, j) {
    }
  }

  lemma TracksNext(save: S.SaveStore, ms: set<int>, g: Servers, g': Servers, u: seq<Action>, i: int)
    requires Tracks(save, ms, g) && i in ms && Tracked(save, ms, g', i) && g'.saved == g.saved + u && AllOf(u, i)
    requires IsRun(ms, g'.saved) && Sends(g'.net, After(ms, g'.saved).net) && OnlyAt(ms, g, g', i)
    ensures Tracks(save, ms, g')
  {
    RunNode(ms, g'.saved, i);
    forall j | j in ms ensures Tracked(save, ms, g', j) {
      if j != i {
        assert Complete(g', j);
        OthersTracked(save, ms, g, u, g', j);
      }
    }
  }

  lemma NextTracks(save: S.SaveStore, snapCount: nat, ms: set<int>, g: Servers, e: Event, g': Servers)
    requires Tracks(save, ms, g) && CanHappen(ms, g, e) && g' == Happen(save, snapCount, ms, g, e)
    ensures Tracks(save, ms, g')
  {
    var i := if e.Act? then Actor(e.a) else e.id;
    AllComplete(save, ms, g);
    assert Tracked(save, ms, g, i);
    EventTracked(save, snapCount, ms, g, e, i);
    var u := EventSaves(save, snapCount, ms, g, e, i);
    EventOnly(save, snapCount, ms, g, e, i);
    TracksNext(save, ms, g, g', u, i);
  }

  lemma AllComplete(save: S.SaveStore, ms: set<int>, g: Servers)
    requires Tracks(save, ms, g)
    ensures forall j {:trigger Complete(g, j)} :: j in ms ==> Complete(g, j)
  {
    forall j | j in ms ensures Complete(g, j) {
      assert Tracked(save, ms, g, j);
    }
  }

  /** Whatever the servers go through, what they have saved is a run of the cluster, and the
      node of each server is what that run, and what it has done since, makes of it. */
  lemma {:induction false} ServersTracked(save: S.SaveStore, snapCount: nat, ms: set<int>, events: seq<Event>,
                                          g: Servers)
    requires ValidMembers(ms) && RunAll(save, snapCount, ms, events) == Just(g)
    ensures Tracks(save, ms, g)
  {
    if events == [] {
      StartTracked(save, ms, g);
    } else {
      var before := events[..|events| - 1];
      var g0 := RunAll(save, snapCount, ms, before).value;
      ServersTracked(save, snapCount, ms, before, g0);
      NextTracks(save, snapCount, ms, g0, events[|events| - 1], g);
    }
  }

  lemma SavedNext(save: S.SaveStore, snapCount: nat, ms: set<int>, g: Servers, e: Event)
    requires CanHappen(ms, g, e)
    ensures g.saved <= Happen(save, snapCount, ms, g, e).saved
  {
  }

  // What is saved grows along a run.
  lemma {:induction false} SavedGrows(save: S.SaveStore, snapCount: nat, ms: set<int>, events: seq<Event>, j: nat,
                                      g: Servers, gj: Servers)
    requires RunAll(save, snapCount, ms, events) == Just(g)
    requires j <= |events| && RunAll(save, snapCount, ms, events[..j]) == Just(gj)
    ensures gj.saved <= g.saved
    decreases |events|
  {
    if j == |events| {
      CutAt(events, j);
    } else {
      var n := |events| - 1;
      TakeTake(events, n, j);
      var g0 := RunAll(save, snapCount, ms, events[..n]).value;
      SavedGrows(save, snapCount, ms, events[..n], j, g0, gj);
      SavedNext(save, snapCount, ms, g0, events[n]);
    }
  }

  // ---- What the servers apply ----

  // What a server has applied is committed in what it has saved.
  lemma AppliedIsCommitted(save: S.SaveStore, ms: set<int>, g: Servers, i: int, k: nat)
    requires Tracks(save, ms, g) && i in ms && i in g.all && k < |g.all[i].delivered|
    ensures i in After(ms, g.saved).nodes
    ensures var log := After(ms, g.saved).nodes[i].log;
            k + 1 <= log.committed && k + 1 < |log.ents| && g.all[i].delivered[k] == log.ents[k + 1]
  {
    assert Tracked(save, ms, g, i);
    assert S.DeliveredAt(g.all[i], k);
  }

  lemma SameEntry(save: S.SaveStore, ms: set<int>, g: Servers, h: Servers, acts: seq<Action>, a: int, b: int, k: nat)
    requires Tracks(save, ms, g) && Tracks(save, ms, h) && a in ms && b in ms && a in g.all && b in h.all
    requires IsRun(ms, acts) && FaithfulRun(ms, acts) && g.saved <= acts && h.saved <= acts
    requires k < |g.all[a].delivered| && k < |h.all[b].delivered|
    ensures g.all[a].delivered[k] == h.all[b].delivered[k]
  {
    AppliedIsCommitted(save, ms, g, a, k);
    AppliedIsCommitted(save, ms, h, b, k);
    PrefixTake(g.saved, acts);
    PrefixTake(h.saved, acts);
    StateMachineSafety(ms, acts, |g.saved|, |h.saved|, a, b, k + 1);
    SameAt(After(ms, g.saved).nodes[a].log.ents, After(ms, h.saved).nodes[b].log.ents, k + 2, k + 1);
  }

  /** Servers on a network that may lose, repeat and delay messages, that compact their logs
      and stop and start again at any time: in a faithful run, what two servers have applied,
      each at any moment, is the same as far as both have got. */
  lemma AppliedAlike(save: S.SaveStore, snapCount: nat, ms: set<int>, events: seq<Event>, g: Servers,
                     j: nat, k: nat, gj: Servers, gk: Servers, a: int, b: int)
    requires ValidMembers(ms) && RunAll(save, snapCount, ms, events) == Just(g)
    requires IsRun(ms, g.saved) && FaithfulRun(ms, g.saved)
    requires j <= |events| && RunAll(save, snapCount, ms, events[..j]) == Just(gj) && a in gj.all
    requires k <= |events| && RunAll(save, snapCount, ms, events[..k]) == Just(gk) && b in gk.all
    ensures gj.all[a].delivered <= gk.all[b].delivered || gk.all[b].delivered <= gj.all[a].delivered
  {
    SavedGrows(save, snapCount, ms, events, j, g, gj);
    SavedGrows(save, snapCount, ms, events, k, g, gk);
    ServersTracked(save, snapCount, ms, events[..j], gj);
    ServersTracked(save, snapCount, ms, events[..k], gk);
    forall i: nat | i < |gj.all[a].delivered| && i < |gk.all[b].delivered|
      ensures gj.all[a].delivered[i] == gk.all[b].delivered[i]
    {
      SameEntry(save, ms, gj, gk, g.saved, a, b, i);
    }
  }

  /** Snapshots of the same index hold the same store, whichever servers saved them, and when. */
  lemma SnapshotsAlike(save: S.SaveStore, snapCount: nat, ms: set<int>, events: seq<Event>, g: Servers,
                       j: nat, k: nat, gj: Servers, gk: Servers, a: int, b: int)
    requires ValidMembers(ms) && RunAll(save, snapCount, ms, events) == Just(g)
    requires IsRun(ms, g.saved) && FaithfulRun(ms, g.saved)
    requires j <= |events| && RunAll(save, snapCount, ms, events[..j]) == Just(gj) && a in gj.all
    requires k <= |events| && RunAll(save, snapCount, ms, events[..k]) == Just(gk) && b in gk.all
    requires gj.all[a].snap.index == gk.all[b].snap.index > 0
    ensures gj.all[a].snap.data == gk.all[b].snap.data
  {
    AppliedAlike(save, snapCount, ms, events, g, j, k, gj, gk, a, b);
    ServersTracked(save, snapCount, ms, events[..j], gj);
    ServersTracked(save, snapCount, ms, events[..k], gk);
    assert Tracked(save, ms, gj, a) && Tracked(save, ms, gk, b);
    SameTake(gj.all[a].delivered, gk.all[b].delivered, gj.all[a].snap.index);
  }
}
