/** A Raft node as the source keeps it: an object whose handlers update its fields
    and its log in place and queue messages. Each method is proved against the
    value-level function of the same name; a method that can panic says so in its
    result, and what it leaves behind is then not specified. */
module RaftNodes {
  import opened RaftTypes
  import opened RaftLogModel
  import opened RaftLogs
  import opened RaftNodeModel
  import opened Quorums
  import opened Collections

  datatype Ending = Normal | Panicked(why: PanicReason)

  // The call ended as outcome o says: the same panic, or the same node and messages.
  predicate EndsAs(o: Outcome, e: Ending, node: Node, sent0: multiset<Message>, sent1: multiset<Message>) {
    match o
    case Panics(why) => e == Panicked(why)
    case Done(n, out) => e == Normal && node == n && sent1 == sent0 + multiset(out)
  }

  class Raft {
    const id: int
    const raftLog: RaftLog
    var term: int
    var vote: int
    var commit: int
    var prs: map<int, Progress>
    var role: Role
    var votes: map<int, bool>
    var msgs: seq<Message>
    var lead: int
    var pendingConf: bool

    function View(): Node
      reads this, raftLog
    {
      Node(id, term, vote, commit, raftLog.View(), prs, role, votes, lead, pendingConf)
    }

    constructor (id: int, peers: set<int>)
      requires id != NONE
      ensures View() == NewRaft(id, peers) && msgs == [] && fresh(raftLog)
    {
      this.id := id;
      raftLog := new RaftLog();
      term, vote, commit, lead, pendingConf, role := 0, NONE, 0, NONE, false, Follower;
      votes, msgs := map[], [];
      prs := map p | p in peers :: Progress(0, 0);
      new;
      BecomeFollower(0, NONE);
    }

    // ---- Sending ----

    method Send(m: Message)
      modifies this`msgs
      ensures msgs == old(msgs) + [Stamp(View(), m)]
    {
      msgs := msgs + [m.(from := id, term := term)];
    }

    method SendAppend(to: int) returns (e: Ending)
      requires to in prs
      modifies this`msgs
      ensures EndsAs(RaftNodeModel.SendAppend(View(), to), e, View(), old(multiset(msgs)), multiset(msgs))
    {
      var prev := prs[to].next - 1;
      if prev < raftLog.offset {
        if raftLog.snapshot.term == 0 {
          return Panicked(NeedSnapshot);
        }
        Send(Blank(MSG_SNAP, to).(index := prev, snapshot := raftLog.snapshot));
      } else {
        var l := raftLog.View();
        Send(Blank(MSG_APP, to).(index := prev, logTerm := l.Term(prev),
             entries := l.Slice(prev + 1, l.LastIndex() + 1), commit := raftLog.committed));
      }
      return Normal;
    }

    method BcastAppend() returns (e: Ending)
      modifies this`msgs
      ensures EndsAs(RaftNodeModel.BcastAppend(View()), e, View(), old(multiset(msgs)), multiset(msgs))
    {
      var todo := prs.Keys - {id};
      ghost var n := View();
      ghost var sent: set<Message> := {};
      while todo != {}
        invariant todo <= Peers(n)
        invariant forall i :: i in Peers(n) && i !in todo ==> !SendPanics(n, i)
        invariant forall m :: m in sent <==> m.to in Peers(n) && m.to !in todo && m == AppendMessage(n, m.to)
        invariant multiset(msgs) == old(multiset(msgs)) + multiset(sent)
      {
        var to := TakeAny(todo);
        e := SendAppend(to);
        if e.Panicked? {
          return;
        }
        AddOne(sent, AppendMessage(n, to));
        sent := sent + {AppendMessage(n, to)};
        todo := todo - {to};
      }
      assert sent == set i | i in Peers(n) :: AppendMessage(n, i);
      return Normal;
    }

    method BcastHeartbeat()
      modifies this`msgs
      ensures multiset(msgs) == old(multiset(msgs)) + multiset(RaftNodeModel.BcastHeartbeat(View()).out)
    {
      var todo := prs.Keys - {id};
      ghost var n := View();
      ghost var sent: set<Message> := {};
      while todo != {}
        invariant todo <= Peers(n)
        invariant forall m :: m in sent <==> m.to in Peers(n) && m.to !in todo && m == Heartbeat(n, m.to)
        invariant multiset(msgs) == old(multiset(msgs)) + multiset(sent)
      {
        var to := TakeAny(todo);
        Send(Blank(MSG_APP, to));
        AddOne(sent, Heartbeat(n, to));
        sent := sent + {Heartbeat(n, to)};
        todo := todo - {to};
      }
      assert sent == set i | i in Peers(n) :: Heartbeat(n, i);
    }

    method RequestVotes()
      modifies this`msgs
      ensures multiset(msgs) == old(multiset(msgs)) + multiset(RaftNodeModel.RequestVotes(View()).out)
    {
      var todo := prs.Keys - {id};
      ghost var n := View();
      ghost var sent: set<Message> := {};
      while todo != {}
        invariant todo <= Peers(n)
        invariant forall m :: m in sent <==> m.to in Peers(n) && m.to !in todo && m == VoteRequest(n, m.to)
        invariant multiset(msgs) == old(multiset(msgs)) + multiset(sent)
      {
        var to := TakeAny(todo);
        var l := raftLog.View();
        Send(Blank(MSG_VOTE, to).(index := l.LastIndex(), logTerm := l.Term(l.LastIndex())));
        AddOne(sent, VoteRequest(n, to));
        sent := sent + {VoteRequest(n, to)};
        todo := todo - {to};
      }
      assert sent == set i | i in Peers(n) :: VoteRequest(n, i);
    }

    // ---- Committing and appending ----

    method CollectMatches() returns (mis: seq<int>, ghost keys: seq<int>)
      ensures Lists(mis, keys, MatchedIndexes(View()))
      ensures forall i :: i in prs.Keys <==> i in keys
      ensures |keys| == |prs.Keys|
      ensures |mis| == |prs| && forall v :: CountAtLeast(mis, v) == |Reached(MatchedIndexes(View()), v)|
    {
      mis, keys := [], [];
      var todo := prs.Keys;
      ghost var matched := MatchedIndexes(View());
      while todo != {}
        invariant todo <= prs.Keys
        invariant Lists(mis, keys, matched)
        invariant forall i :: i in prs.Keys <==> i in todo || i in keys
        invariant forall i :: i in keys ==> i !in todo
        invariant |keys| + |todo| == |prs.Keys|
      {
        var i := TakeAny(todo);
        mis := mis + [prs[i].matched];
        keys := keys + [i];
        todo := todo - {i};
      }
      forall v ensures CountAtLeast(mis, v) == |Reached(matched, v)| {
        ReachedCount(mis, keys, matched, v);
      }
    }

    /** Collects the match indexes, sorts them in descending order and commits the
        one a quorum has reached. */
    method MaybeCommit() returns (advanced: bool)
      requires prs != map[]
      modifies raftLog
      ensures View() == RaftNodeModel.MaybeCommit(old(View()))
      ensures advanced == old(raftLog.View().CanCommit(QuorumMatch(View()), term))
    {
      ghost var matched := MatchedIndexes(View());
      assert matched.Keys == prs.Keys;
      var mis, keys := CollectMatches();
      SortedPosition(mis, keys, matched);
      assert |prs| == |prs.Keys| && |matched| == |matched.Keys|;
      var sorted := SortDescending(mis);
      var mci := sorted[QuorumSize(|prs|) - 1];
      QuorumIndexUnique(matched, mci, QuorumMatch(View()));
      advanced := raftLog.MaybeCommit(mci, term);
    }

    method AppendEntry(e: Entry)
      requires id in prs
      modifies this`prs, raftLog
      ensures View() == RaftNodeModel.AppendEntry(old(View()), e)
    {
      var last := raftLog.View().LastIndex();
      last := raftLog.Append(last, [e.(term := term, index := last + 1)]);
      prs := prs[id := Updated(last)];
      assert id in prs;
      var _ := MaybeCommit();
    }

    // ---- Elections ----

    method Reset(t: int)
      modifies this`term, this`lead, this`vote, this`votes, this`prs, this`pendingConf
      ensures View() == RaftNodeModel.Reset(old(View()), t)
    {
      term := t;
      lead := NONE;
      vote := NONE;
      votes := map[];
      var last := raftLog.View().LastIndex();
      var todo := prs.Keys;
      ghost var prs0 := prs;
      while todo != {}
        invariant todo <= prs0.Keys == prs.Keys
        invariant forall i :: i in prs0 && i !in todo ==> prs[i] == Progress(if i == id then last else 0, last + 1)
        modifies this`prs
      {
        var i := TakeAny(todo);
        prs := prs[i := Progress(if i == id then last else 0, last + 1)];
        todo := todo - {i};
      }
      pendingConf := false;
      assert prs == RaftNodeModel.Reset(old(View()), t).prs;
    }

    method BecomeFollower(t: int, l: int)
      modifies this`term, this`lead, this`vote, this`votes, this`prs, this`pendingConf, this`role
      ensures View() == RaftNodeModel.BecomeFollower(old(View()), t, l)
    {
      Reset(t);
      lead := l;
      role := Follower;
    }

    method BecomeCandidate() returns (e: Ending)
      modifies this`term, this`lead, this`vote, this`votes, this`prs, this`pendingConf, this`role
      ensures e == if old(role) == Leader then Panicked(LeaderCampaigns) else Normal
      ensures e.Normal? ==> View() == RaftNodeModel.BecomeCandidate(old(View()))
    {
      if role == Leader {
        return Panicked(LeaderCampaigns);
      }
      Reset(term + 1);
      vote := id;
      role := Candidate;
      return Normal;
    }

    // Notes a pending configuration entry among es; the source panics at a second one.
    method NoteConfChanges(es: seq<Entry>) returns (twice: bool)
      requires !pendingConf
      modifies this`pendingConf
      ensures twice == (ConfChanges(es) > 1) && (!twice ==> pendingConf == (ConfChanges(es) == 1))
    {
      var i := 0;
      while i < |es|
        invariant 0 <= i <= |es|
        invariant ConfChanges(es) == (if pendingConf then 1 else 0) + ConfChanges(es[i..])
      {
        assert es[i..][1..] == es[i + 1..];
        if es[i].typ == ENTRY_CONF_CHANGE {
          if pendingConf {
            return true;
          }
          pendingConf := true;
        }
        i := i + 1;
      }
      return false;
    }

    method BecomeLeader() returns (e: Ending)
      modifies this`term, this`lead, this`vote, this`votes, this`prs, this`pendingConf, this`role, raftLog
      ensures var o := RaftNodeModel.BecomeLeader(old(View()));
              && (o.Panics? ==> e == Panicked(o.why))
              && (o.Done? ==> e == Normal && View() == o.node)
    {
      if role == Follower {
        return Panicked(FollowerWins);
      }
      Reset(term);
      lead := id;
      role := Leader;
      var l := raftLog.View();
      if l.committed + 1 == l.offset {
        return Panicked(FirstEntry);
      }
      var twice := NoteConfChanges(l.Slice(l.committed + 1, l.LastIndex() + 1));
      if twice {
        return Panicked(DoubleConfChange);
      }
      ghost var start :=
        RaftNodeModel.Reset(old(View()), old(term)).(lead := id, role := Leader, pendingConf := pendingConf);
      assert View() == start;
      if id !in prs {
        return Panicked(UnknownPeer);
      }
      AppendEntry(DUMMY_ENTRY);
      return Normal;
    }

    // Records the first answer of a peer and counts the granted ones.
    method Poll(peer: int, v: bool) returns (granted: nat)
      modifies this`votes
      ensures votes == RaftNodeModel.Poll(old(votes), peer, v)
      ensures granted == |Granted(votes)|
    {
      if peer !in votes {
        votes := votes[peer := v];
      }
      granted := 0;
      var todo := votes.Keys;
      while todo != {}
        invariant todo <= votes.Keys
        invariant granted == |set i | i in votes && i !in todo && votes[i]|
        modifies {}
      {
        var i := TakeAny(todo);
        ghost var before := set i | i in votes && i !in todo && votes[i];
        if votes[i] {
          granted := granted + 1;
        }
        todo := todo - {i};
        ghost var now := set i | i in votes && i !in todo && votes[i];
        assert now == if votes[i] then before + {i} else before;
      }
      assert Granted(votes) == set i | i in votes && i !in todo && votes[i];
    }

    method Campaign() returns (e: Ending)
      modifies this, raftLog
      ensures EndsAs(RaftNodeModel.Campaign(old(View())), e, View(), old(multiset(msgs)), multiset(msgs))
    {
      e := BecomeCandidate();
      if e.Panicked? {
        return;
      }
      var granted := Poll(id, true);
      if QuorumSize(|prs|) == granted {
        e := BecomeLeader();
        if e.Panicked? {
          return;
        }
      }
      RequestVotes();
    }

    // ---- Following ----

    method HandleAppendEntries(m: Message) returns (e: Ending)
      modifies this`msgs, raftLog
      ensures EndsAs(RaftNodeModel.HandleAppendEntries(old(View()), m), e, View(), old(multiset(msgs)), multiset(msgs))
    {
      var ok, panicked := raftLog.MaybeAppend(m.index, m.logTerm, m.commit, m.entries);
      if panicked {
        return Panicked(CommittedConflict);
      }
      if ok {
        Send(Blank(MSG_APP_RESP, m.from).(index := raftLog.View().LastIndex()));
      } else {
        Send(Blank(MSG_APP_RESP, m.from).(denied := true));
      }
      return Normal;
    }

    method Restore(s: Snapshot) returns (ok: bool)
      modifies this`prs, raftLog
      ensures ok == CanRestore(old(View()), s)
      ensures View() == if ok then RaftNodeModel.Restore(old(View()), s) else old(View())
    {
      if s.index <= raftLog.committed {
        return false;
      }
      raftLog.Restore(s);
      var last := raftLog.View().LastIndex();
      prs := map[];
      var k := 0;
      while k < |s.nodes|
        invariant 0 <= k <= |s.nodes|
        invariant prs == map i | i in s.nodes[..k] :: Progress(if i == id then last else 0, last + 1)
        modifies this`prs
      {
        var i := s.nodes[k];
        prs := prs[i := Progress(if i == id then last else 0, last + 1)];
        k := k + 1;
      }
      assert s.nodes[..k] == s.nodes;
      return true;
    }

    method HandleSnapshot(m: Message)
      modifies this`msgs, this`prs, raftLog
      ensures EndsAs(RaftNodeModel.HandleSnapshot(old(View()), m), Normal, View(), old(multiset(msgs)), multiset(msgs))
    {
      var ok := Restore(m.snapshot);
      if ok {
        Send(Blank(MSG_APP_RESP, m.from).(index := raftLog.View().LastIndex()));
      } else {
        Send(Blank(MSG_APP_RESP, m.from).(index := raftLog.committed));
      }
    }

    // ---- The three step functions ----

    method LeaderProposal(m: Message) returns (e: Ending)
      modifies this, raftLog
      ensures EndsAs(RaftNodeModel.LeaderProposal(old(View()), m), e, View(), old(multiset(msgs)), multiset(msgs))
    {
      if |m.entries| != 1 {
        return Panicked(ProposalLength);
      }
      var entry := m.entries[0];
      if entry.typ == ENTRY_CONF_CHANGE {
        if pendingConf {
          return Normal;
        }
        pendingConf := true;
      }
      if id !in prs {
        return Panicked(UnknownPeer);
      }
      AppendEntry(entry);
      e := BcastAppend();
    }

    method LeaderAck(m: Message) returns (e: Ending)
      modifies this, raftLog
      ensures EndsAs(RaftNodeModel.LeaderAck(old(View()), m), e, View(), old(multiset(msgs)), multiset(msgs))
    {
      if m.from !in prs {
        return Panicked(UnknownPeer);
      }
      if m.denied {
        prs := prs[m.from := prs[m.from].Decr()];
        e := SendAppend(m.from);
      } else {
        prs := prs[m.from := Updated(m.index)];
        assert m.from in prs;
        var advanced := MaybeCommit();
        if advanced {
          e := BcastAppend();
        } else {
          e := Normal;
        }
      }
    }

    method StepLeader(m: Message) returns (e: Ending)
      modifies this, raftLog
      ensures EndsAs(RaftNodeModel.StepLeader(old(View()), m), e, View(), old(multiset(msgs)), multiset(msgs))
    {
      e := Normal;
      if m.typ == MSG_BEAT {
        BcastHeartbeat();
      } else if m.typ == MSG_PROP {
        e := LeaderProposal(m);
      } else if m.typ == MSG_APP_RESP {
        e := LeaderAck(m);
      } else if m.typ == MSG_VOTE {
        Send(Blank(MSG_VOTE_RESP, m.from).(denied := true));
      }
    }

    method StepCandidate(m: Message) returns (e: Ending)
      modifies this, raftLog
      ensures EndsAs(RaftNodeModel.StepCandidate(old(View()), m), e, View(), old(multiset(msgs)), multiset(msgs))
    {
      e := Normal;
      if m.typ == MSG_PROP {
        return Panicked(NoLeader);
      } else if m.typ == MSG_APP {
        BecomeFollower(term, m.from);
        e := HandleAppendEntries(m);
      } else if m.typ == MSG_SNAP {
        BecomeFollower(m.term, m.from);
        HandleSnapshot(m);
      } else if m.typ == MSG_VOTE {
        Send(Blank(MSG_VOTE_RESP, m.from).(denied := true));
      } else if m.typ == MSG_VOTE_RESP {
        var granted := Poll(m.from, !m.denied);
        if QuorumSize(|prs|) == granted {
          e := BecomeLeader();
          if e.Normal? {
            e := BcastAppend();
          }
        } else if QuorumSize(|prs|) == |votes| - granted {
          BecomeFollower(term, NONE);
        }
      }
    }

    method StepFollower(m: Message) returns (e: Ending)
      modifies this, raftLog
      ensures EndsAs(RaftNodeModel.StepFollower(old(View()), m), e, View(), old(multiset(msgs)), multiset(msgs))
    {
      e := Normal;
      if m.typ == MSG_PROP {
        if lead == NONE {
          return Panicked(NoLeader);
        }
        Send(m.(to := lead));
      } else if m.typ == MSG_APP {
        lead := m.from;
        e := HandleAppendEntries(m);
      } else if m.typ == MSG_SNAP {
        HandleSnapshot(m);
      } else if m.typ == MSG_VOTE {
        if vote == NONE || vote == m.from {
          if raftLog.ents == [] {
            return Panicked(EmptyLog);
          }
          if raftLog.View().IsUpToDate(m.index, m.logTerm) {
            vote := m.from;
            Send(Blank(MSG_VOTE_RESP, m.from));
            return;
          }
        }
        Send(Blank(MSG_VOTE_RESP, m.from).(denied := true));
      }
    }

    method Deliver(m: Message) returns (e: Ending)
      modifies this, raftLog
      ensures EndsAs(RaftNodeModel.Deliver(old(View()), m), e, View(), old(multiset(msgs)), multiset(msgs))
    {
      if m.term == 0 {
      } else if m.term > term {
        BecomeFollower(m.term, if m.typ == MSG_VOTE then NONE else m.from);
      } else if m.term < term {
        return Normal;
      }
      match role
      case Leader => e := StepLeader(m);
      case Candidate => e := StepCandidate(m);
      case Follower => e := StepFollower(m);
    }

    method Hup(m: Message) returns (e: Ending)
      requires m.typ == MSG_HUP
      modifies this, raftLog
      ensures EndsAs(RaftNodeModel.Step(old(View()), m), e, View().(commit := raftLog.committed), old(multiset(msgs)),
              multiset(msgs))
    {
      e := Campaign();
      if e.Panicked? {
        return;
      }
      HupSendsNothing(View(), m);
      ghost var c := RaftNodeModel.Campaign(old(View()));
      ghost var d := RaftNodeModel.Deliver(View(), m);
      assert c.out + d.out == c.out;
      e := Deliver(m);
      assert multiset(msgs) == old(multiset(msgs)) + multiset(c.out);
    }

    /** Handles one message, local or received. */
    method Step(m: Message) returns (e: Ending)
      modifies this, raftLog
      ensures EndsAs(RaftNodeModel.Step(old(View()), m), e, View(), old(multiset(msgs)), multiset(msgs))
    {
      if m.typ == MSG_HUP {
        e := Hup(m);
      } else {
        e := Deliver(m);
      }
      commit := raftLog.committed;
    }

    // ---- Compaction and restart ----

    method Nodes() returns (ns: seq<int>)
      ensures (forall i :: i in ns <==> i in prs) && |ns| == |prs|
    {
      ns := [];
      var todo := prs.Keys;
      while todo != {}
        invariant todo <= prs.Keys && forall i :: i in prs <==> i in todo || i in ns
        invariant |ns| + |todo| == |prs.Keys|
      {
        var i := TakeAny(todo);
        ns := ns + [i];
        todo := todo - {i};
      }
    }

    // Panics when the log does not hold its applied index.
    method Compact(data: Bytes) returns (panicked: bool, ghost nodes: seq<int>)
      modifies raftLog
      ensures panicked == !old(View()).log.CanCompact(old(View()).log.applied)
      ensures !panicked ==> View() == CompactNode(old(View()), data, nodes) && forall i :: i in nodes <==> i in prs
    {
      var ns := Nodes();
      nodes := ns;
      var i := raftLog.applied;
      raftLog.Snap(data, i, raftLog.View().Term(i), ns);
      var _, outside := raftLog.Compact(i);
      panicked := outside;
    }

    method LoadState(st: HardState)
      modifies this`term, this`vote, this`commit, raftLog`committed
      ensures View() == RaftNodeModel.LoadState(old(View()), st)
    {
      raftLog.committed := st.commit;
      term, vote, commit := st.term, st.vote, st.commit;
    }

    method LoadEnts(es: seq<Entry>)
      modifies raftLog
      ensures View() == old(View()).(log := old(View()).log.Load(es))
    {
      raftLog.Load(es);
    }
  }

  /** RestartNode, up to starting the run loop. */
  method RestartNode(id: int, peers: set<int>, snapshot: Option<Snapshot>, st: HardState, es: seq<Entry>)
    returns (r: Raft)
    requires id != NONE
    ensures fresh(r) && fresh(r.raftLog) && r.View() == RaftNodeModel.RestartNode(id, peers, snapshot, st, es)
  {
    r := new Raft(id, peers);
    if snapshot.Just? {
      var _ := r.Restore(snapshot.value);
    }
    r.LoadState(st);
    r.LoadEnts(es);
  }
}
