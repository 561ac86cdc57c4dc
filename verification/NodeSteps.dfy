/** What one call of Step does to a node's log, seen from the outside: nothing committed and
    nothing still marked stable is touched, and entries sit at the index they carry. */
module NodeSteps {
  import opened RaftTypes
  import opened RaftLogModel
  import opened RaftNodeModel
  import opened Compaction

  ghost predicate Indexed(log: Log) {
    forall k :: 0 <= k < |log.ents| ==> log.ents[k].index == log.offset + k
  }

  // Slot k survives from log to log'.
  ghost predicate Kept(log: Log, log': Log, k: int) {
    0 <= k < |log.ents| && k < |log'.ents| && log'.ents[k] == log.ents[k]
  }

  ghost predicate Advances(log: Log, log': Log) {
    && log'.offset == log.offset && log'.applied == log.applied && log'.snapshot == log.snapshot
    && log.committed <= log'.committed && log'.Valid() && Indexed(log')
    && Min(log.unstable, log.committed + 1) <= log'.unstable <= log.unstable
    && (log'.unstable == log'.LastIndex() + 1 ==> log'.ents == log.ents && log'.unstable == log.unstable)
    && (forall k {:trigger Kept(log, log', k)} ::
          0 <= k && (log.offset + k < log'.unstable || log.offset + k <= log.committed) ==> Kept(log, log', k))
  }

  lemma AdvancesSelf(log: Log)
    requires log.Valid() && Indexed(log)
    ensures Advances(log, log)
  {
  }

  lemma AdvancesThen(a: Log, b: Log, c: Log)
    requires Advances(a, b) && Advances(b, c)
    ensures Advances(a, c)
  {
    forall k | 0 <= k && (a.offset + k < c.unstable || a.offset + k <= a.committed) ensures Kept(a, c, k) {
      assert Kept(a, b, k);
      assert Kept(b, c, k);
    }
  }

  lemma AppendAdvances(log: Log, after: int, es: seq<Entry>)
    requires log.Valid() && Indexed(log) && log.committed <= after <= log.LastIndex() && es != []
    requires forall j :: 0 <= j < |es| ==> es[j].index == after + 1 + j
    ensures Advances(log, log.Append(after, es))
  {
    var l := log.Append(after, es);
    var kept := log.ents[..after + 1 - log.offset];
    assert log.Slice(log.offset, after + 1) == kept;
    assert l.ents == kept + es;
    forall k | 0 <= k < |l.ents| ensures l.ents[k].index == l.offset + k {
      if k >= |kept| {
        assert l.ents[k] == es[k - |kept|];
      }
    }
  }

  lemma CommitAdvances(log: Log, c: int)
    requires log.Valid() && Indexed(log) && log.committed <= c <= log.LastIndex()
    ensures Advances(log, log.(committed := c))
  {
  }

  // ---- Nodes ----

  predicate Steady0(n: Node) {
    n.term >= 0 && (n.role != Follower ==> n.term >= 1) && (n.term == 0 ==> n.vote == NONE && n.log.committed == 0)
  }

  ghost predicate Steady(n: Node) {
    n.log.Valid() && Indexed(n.log) && Steady0(n)
  }

  ghost predicate Moves(n: Node, n': Node) {
    Steady(n') && n'.id == n.id && n.term <= n'.term && Advances(n.log, n'.log)
  }

  ghost predicate MovesTo(n: Node, o: Outcome) {
    o.Done? ==> Moves(n, o.node)
  }

  // What the network or the node's own timers and clients hand to Step, without snapshots.
  ghost predicate Deliverable(m: Message) {
    && m.typ != MSG_SNAP && m.term >= 0
    && (m.typ in {MSG_HUP, MSG_BEAT} ==> m.term == 0)
    && (m.typ !in {MSG_HUP, MSG_BEAT, MSG_PROP} ==> m.term >= 1)
    && (m.typ == MSG_APP ==> forall k :: 0 <= k < |m.entries| ==> m.entries[k].index == m.index + 1 + k)
  }

  lemma MovesThen(a: Node, b: Node, c: Node)
    requires Moves(a, b) && Moves(b, c)
    ensures Moves(a, c)
  {
    AdvancesThen(a.log, b.log, c.log);
  }

  lemma SameLogMoves(n: Node, n': Node)
    requires Steady(n) && n'.id == n.id && n'.log == n.log && n.term <= n'.term && Steady0(n')
    ensures Moves(n, n')
  {
    AdvancesSelf(n.log);
  }

  lemma MaybeCommitMoves(n: Node)
    requires Steady(n) && n.prs != map[] && n.term >= 1
    ensures Moves(n, MaybeCommit(n))
  {
    var i := QuorumMatch(n);
    if n.log.CanCommit(i, n.term) {
      CommitAdvances(n.log, i);
    } else {
      AdvancesSelf(n.log);
    }
  }

  lemma AppendEntryMoves(n: Node, e: Entry)
    requires Steady(n) && n.id in n.prs && n.term >= 1
    ensures Moves(n, AppendEntry(n, e))
  {
    var last := n.log.LastIndex();
    var es := [e.(term := n.term, index := last + 1)];
    AppendAdvances(n.log, last, es);
    var log := n.log.Append(last, es);
    var u := n.(log := log, prs := n.prs[n.id := Updated(log.LastIndex())]);
    assert n.id in u.prs;
    MaybeCommitMoves(u);
    MovesThen(n, u, MaybeCommit(u));
  }

  lemma BecomeLeaderMoves(n: Node)
    requires Steady(n) && n.term >= 1
    ensures MovesTo(n, BecomeLeader(n))
    ensures BecomeLeader(n).Done? ==> BecomeLeader(n).node.term >= 1
  {
    if BecomeLeader(n).Done? {
      var confs := ConfChanges(n.log.Slice(n.log.committed + 1, n.log.LastIndex() + 1));
      var l := Reset(n, n.term).(lead := n.id, role := Leader, pendingConf := confs == 1);
      assert n.id in l.prs;
      SameLogMoves(n, l);
      AppendEntryMoves(l, DUMMY_ENTRY);
      MovesThen(n, l, AppendEntry(l, DUMMY_ENTRY));
    }
  }

  lemma CampaignMoves(n: Node)
    requires Steady(n)
    ensures MovesTo(n, Campaign(n))
  {
    var c := BecomeCandidate(n);
    var c1 := c.(votes := Poll(c.votes, c.id, true));
    SameLogMoves(n, c1);
    BecomeLeaderMoves(c1);
    var l := BecomeLeader(c1);
    if l.Done? {
      MovesThen(n, c1, l.node);
    }
  }

  lemma HandleAppendMoves(n: Node, m: Message)
    requires Steady(n) && Deliverable(m) && m.typ == MSG_APP && n.term >= 1
    ensures MovesTo(n, HandleAppendEntries(n, m))
  {
    var log := n.log;
    AdvancesSelf(log);
    if log.MatchTerm(m.index, m.logTerm) && !log.Overwrites(m.index, m.entries) {
      AppendedAdvances(log, m);
      var base := log.Appended(m.index, m.entries);
      CommitToAdvances(base, m.commit);
      AdvancesThen(log, base, base.CommitTo(m.commit));
    }
  }

  lemma CommitToAdvances(log: Log, c: int)
    requires log.Valid() && Indexed(log)
    ensures Advances(log, log.CommitTo(c))
  {
    if log.committed < c {
      CommitAdvances(log, Min(c, log.LastIndex()));
    } else {
      AdvancesSelf(log);
    }
  }

  lemma AppendedAdvances(log: Log, m: Message)
    requires log.Valid() && Indexed(log) && Deliverable(m) && m.typ == MSG_APP
    requires log.MatchTerm(m.index, m.logTerm) && !log.Overwrites(m.index, m.entries)
    ensures Advances(log, log.Appended(m.index, m.entries))
  {
    var from := m.index + 1;
    var ci := log.FindConflict(from, m.entries);
    var a := AppendedAt(log, m.index, m.entries, ci);
    ConflictWithin(log, from, m.entries);
    if ci == -1 {
      AdvancesSelf(log);
    } else {
      SuffixAdvances(log, ci - 1, m.entries, ci - from);
    }
  }

  // Placing the entries from k on, each at the index it carries.
  lemma SuffixAdvances(log: Log, after: int, es: seq<Entry>, k: nat)
    requires log.Valid() && Indexed(log) && log.committed <= after <= log.LastIndex() && k < |es|
    requires forall j :: 0 <= j < |es| ==> es[j].index == after + 1 - k + j
    ensures Advances(log, log.Append(after, es[k..]))
  {
    AppendAdvances(log, after, es[k..]);
  }

  lemma StepLeaderMoves(n: Node, m: Message)
    requires Steady(n) && Deliverable(m) && n.role == Leader
    ensures MovesTo(n, StepLeader(n, m))
  {
    SameLogMoves(n, n);
    if m.typ == MSG_PROP {
      if |m.entries| == 1 && n.id in n.prs {
        var e := m.entries[0];
        var n1 := n.(pendingConf := n.pendingConf || e.typ == ENTRY_CONF_CHANGE);
        SameLogMoves(n, n1);
        AppendEntryMoves(n1, e);
        MovesThen(n, n1, AppendEntry(n1, e));
      }
    } else if m.typ == MSG_APP_RESP && m.from in n.prs {
      var u := n.(prs := n.prs[m.from := if m.denied then n.prs[m.from].Decr() else Updated(m.index)]);
      assert m.from in u.prs;
      SameLogMoves(n, u);
      MaybeCommitMoves(u);
      MovesThen(n, u, MaybeCommit(u));
    }
  }

  lemma CandidatePollMoves(n: Node, m: Message)
    requires Steady(n) && n.role == Candidate
    ensures MovesTo(n, CandidatePoll(n, m))
  {
    var c := n.(votes := Poll(n.votes, m.from, !m.denied));
    SameLogMoves(n, c);
    SameLogMoves(n, BecomeFollower(c, c.term, NONE));
    BecomeLeaderMoves(c);
    var l := BecomeLeader(c);
    if l.Done? {
      MovesThen(n, c, l.node);
    }
  }

  lemma StepCandidateMoves(n: Node, m: Message)
    requires Steady(n) && Deliverable(m) && n.role == Candidate
    ensures MovesTo(n, StepCandidate(n, m))
  {
    SameLogMoves(n, n);
    if m.typ == MSG_APP {
      var f := BecomeFollower(n, n.term, m.from);
      SameLogMoves(n, f);
      HandleAppendMoves(f, m);
      var o := HandleAppendEntries(f, m);
      if o.Done? {
        MovesThen(n, f, o.node);
      }
    } else if m.typ == MSG_VOTE_RESP {
      CandidatePollMoves(n, m);
    }
  }

  lemma StepFollowerMoves(n: Node, m: Message)
    requires Steady(n) && Deliverable(m) && n.role == Follower && m.term <= n.term
    ensures MovesTo(n, StepFollower(n, m))
  {
    SameLogMoves(n, n);
    if m.typ == MSG_APP {
      var f := n.(lead := m.from);
      SameLogMoves(n, f);
      HandleAppendMoves(f, m);
      var o := HandleAppendEntries(f, m);
      if o.Done? {
        MovesThen(n, f, o.node);
      }
    } else if m.typ == MSG_VOTE {
      SameLogMoves(n, n.(vote := m.from));
    }
  }

  lemma DispatchMoves(n: Node, m: Message)
    requires Steady(n) && Deliverable(m) && m.term <= n.term
    ensures MovesTo(n, Dispatch(n, m))
  {
    match n.role
    case Leader => StepLeaderMoves(n, m);
    case Candidate => StepCandidateMoves(n, m);
    case Follower => StepFollowerMoves(n, m);
  }

  lemma DeliverMoves(n: Node, m: Message)
    requires Steady(n) && Deliverable(m)
    ensures MovesTo(n, Deliver(n, m))
  {
    SameLogMoves(n, n);
    if !Stale(n, m) {
      var seen := Observe(n, m);
      SameLogMoves(n, seen);
      DispatchMoves(seen, m);
      var o := Dispatch(seen, m);
      if o.Done? {
        MovesThen(n, seen, o.node);
      }
    }
  }

  lemma RecordedMoves(n: Node, o: Outcome)
    requires MovesTo(n, o)
    ensures MovesTo(n, Recorded(o))
    ensures Recorded(o).Done? ==> Recorded(o).node.commit == Recorded(o).node.log.committed
  {
  }

  /** One call of Step, whatever the message: the log only grows behind its commit index,
      stable entries stay what they are, and the recorded commit index is the log's. */
  lemma StepMoves(n: Node, m: Message)
    requires Steady(n) && Deliverable(m)
    ensures MovesTo(n, Step(n, m))
    ensures Step(n, m).Done? ==> Step(n, m).node.commit == Step(n, m).node.log.committed
  {
    if m.typ == MSG_HUP {
      CampaignMoves(n);
      var c := Campaign(n);
      if c.Done? {
        DeliverMoves(c.node, m);
        var d := Deliver(c.node, m);
        if d.Done? {
          MovesThen(n, c.node, d.node);
          RecordedMoves(n, Done(d.node, c.out + d.out));
        }
      }
    } else {
      DeliverMoves(n, m);
      RecordedMoves(n, Deliver(n, m));
    }
  }
}
