/** What a node does with a message, said by the fields of the node and of the messages it
    sends, without the functions that compute them. */
module StepLaws {
  import opened Collections
  import opened RaftTypes
  import opened RaftLogModel
  import opened RaftNodeModel
  import opened Quorums

  // The log has a slot, and what is committed lies in it.
  predicate InLog(log: Log) { 0 <= log.offset <= log.committed < log.offset + |log.ents| }

  // ---- What a leader sends ----

  // r tells a follower everything behind index r.index: the term there, and all entries after it.
  predicate CarriesRest(log: Log, r: Message) {
    && r.typ == MSG_APP && r.commit == log.committed && !r.denied
    && if r.index <= log.offset + |log.ents| - 1 then
         && 0 <= r.index - log.offset < |log.ents|
         && r.logTerm == log.ents[r.index - log.offset].term && r.entries == log.ents[r.index - log.offset + 1..]
       else r.logTerm == -1 && r.entries == []
  }

  // r brings a peer whose next index is next up to date: with entries, or with the snapshot if
  // the log no longer has the one before.
  predicate Serves(n: Node, to: int, next: int, r: Message) {
    && r.to == to && r.from == n.id && r.term == n.term && r.index == next - 1
    && if r.index < n.log.offset then r.typ == MSG_SNAP && r.snapshot == n.log.snapshot else CarriesRest(n.log, r)
  }

  lemma AppendServes(n: Node, to: int)
    requires to in n.prs && n.log.ents != []
    ensures Serves(n, to, n.prs[to].next, AppendMessage(n, to))
  {
    var log, prev := n.log, n.prs[to].next - 1;
    if log.offset <= prev < log.LastIndex() {
      assert log.Slice(prev + 1, log.LastIndex() + 1) == log.ents[prev - log.offset + 1..];
    }
  }

  /** A leader answers a denial by stepping back one entry for that peer, never below the first,
      and sending from there. Nothing else changes. */
  lemma DenialAnswered(n: Node, m: Message) returns (r: Message)
    requires n.role == Leader && m.typ == MSG_APP_RESP && m.denied && m.term == n.term >= 1
    requires m.from in n.prs && n.log.ents != []
    ensures var was := n.prs[m.from];
            var next := if was.next >= 2 then was.next - 1 else 1;
            && Serves(n, m.from, next, r)
            && Step(n, m) ==
               if next - 1 < n.log.offset && n.log.snapshot.term == 0 then Panics(NeedSnapshot)
               else Done(n.(prs := n.prs[m.from := Progress(was.matched, next)], commit := n.log.committed), {r})
  {
    var was := n.prs[m.from];
    var n' := n.(prs := n.prs[m.from := was.Decr()]);
    AppendServes(n', m.from);
    r := AppendMessage(n', m.from);
  }

  // ---- What a follower does with entries ----

  // The message is of the node's term or a later one, and finds the node no leader of its term.
  predicate Takes(n: Node, m: Message) {
    m.term >= 1 && (m.term > n.term || (m.term == n.term && n.role != Leader))
  }

  // Index i is in the log, with an entry of the given term.
  predicate HasTerm(log: Log, i: int, term: int) {
    0 <= i - log.offset < |log.ents| && log.ents[i - log.offset].term == term
  }

  // Entry k of the message is not the one in the log.
  predicate Differs(log: Log, m: Message, k: int) {
    0 <= k < |m.entries| && !HasTerm(log, m.index + 1 + k, m.entries[k].term)
  }

  // l is the log after the message: everything it had up to the first entry that differs, and
  // the message from there on.
  ghost predicate Merges(log: Log, m: Message, l: Log) {
    && l.offset == log.offset && l.applied == log.applied && l.snapshot == log.snapshot
    && ((&& (forall k :: 0 <= k < |m.entries| ==> !Differs(log, m, k))
         && l.ents == log.ents && l.unstable == log.unstable)
        || exists k :: First(log, m, k) && Cut(log, m, k, l))
    && l.committed == Max(log.committed, Min(m.commit, log.offset + |l.ents| - 1))
  }

  ghost predicate First(log: Log, m: Message, k: int) {
    Differs(log, m, k) && forall j :: 0 <= j < k ==> !Differs(log, m, j)
  }

  predicate Cut(log: Log, m: Message, k: int, l: Log) {
    && 0 <= k < |m.entries| && 0 <= m.index + 1 + k - log.offset <= |log.ents|
    && l.ents == log.ents[..m.index + 1 + k - log.offset] + m.entries[k..]
    && l.unstable == Min(log.unstable, m.index + 1 + k)
  }

  lemma MaybeAppendMerges(log: Log, m: Message)
    requires InLog(log) && HasTerm(log, m.index, m.logTerm)
    ensures var res := log.MaybeAppend(m.index, m.logTerm, m.commit, m.entries);
            && (res.Conflict? <==> exists k :: Differs(log, m, k) && m.index + 1 + k <= log.committed)
            && (res.Accepted? <==> !res.Conflict?) && (res.Accepted? ==> Merges(log, m, res.log))
  {
    var ci := log.FindConflict(m.index + 1, m.entries);
    var k := ConflictDiffers(log, m, ci);
    if ci == -1 {
      Outcomes(log, m, ci, 0, log);
      MergesNothing(log, m);
    } else {
      var l := log.Append(m.index + k, m.entries[k..]);
      Outcomes(log, m, ci, k, l);
      if ci > log.committed {
        NoneCommitted(log, m, k);
        MergesFrom(log, m, k, l);
      } else {
        assert Differs(log, m, k) && m.index + 1 + k <= log.committed;
      }
    }
  }

  lemma Outcomes(log: Log, m: Message, ci: int, k: nat, l: Log)
    requires ci == log.FindConflict(m.index + 1, m.entries) && HasTerm(log, m.index, m.logTerm)
    requires ci != -1 ==> ci == m.index + 1 + k && k < |m.entries| && l == log.Append(m.index + k, m.entries[k..])
    requires ci == -1 ==> l == log
    ensures log.MaybeAppend(m.index, m.logTerm, m.commit, m.entries) ==
            if ci != -1 && ci <= log.committed then Conflict else Accepted(l.CommitTo(m.commit))
  {
  }

  lemma NoneCommitted(log: Log, m: Message, k: nat)
    requires First(log, m, k) && m.index + 1 + k > log.committed
    ensures !exists j :: Differs(log, m, j) && m.index + 1 + j <= log.committed
  {
  }

  lemma MergesNothing(log: Log, m: Message)
    requires InLog(log) && forall j :: !Differs(log, m, j)
    ensures Merges(log, m, log.CommitTo(m.commit))
  {
  }

  lemma MergesFrom(log: Log, m: Message, k: nat, l: Log)
    requires InLog(log) && First(log, m, k) && log.committed < m.index + 1 + k <= log.LastIndex() + 1
    requires l == log.Append(m.index + k, m.entries[k..])
    ensures Merges(log, m, l.CommitTo(m.commit))
  {
    CutHere(log, m, m.index + 1 + k, k);
    assert Cut(log, m, k, l.CommitTo(m.commit));
  }

  // The conflict found is the first entry that differs.
  lemma ConflictDiffers(log: Log, m: Message, ci: int) returns (k: nat)
    requires InLog(log) && HasTerm(log, m.index, m.logTerm) && ci == log.FindConflict(m.index + 1, m.entries)
    ensures ci == -1 ==> forall j :: !Differs(log, m, j)
    ensures ci != -1 ==> First(log, m, k) && ci == m.index + 1 + k <= log.LastIndex() + 1
  {
    FindConflictFirst(log, m.index + 1, m.entries);
    ConflictWithin(log, m.index + 1, m.entries);
    k := if ci == -1 then |m.entries| else ci - (m.index + 1);
    forall j | 0 <= j < k ensures !Differs(log, m, j) {
      assert log.MatchTerm(m.index + 1 + j, m.entries[j].term);
    }
  }

  lemma CutHere(log: Log, m: Message, ci: int, k: nat)
    requires InLog(log) && k < |m.entries| && ci == m.index + 1 + k && log.committed < ci <= log.LastIndex() + 1
    ensures Cut(log, m, k, log.Append(ci - 1, m.entries[k..]))
  {
    assert log.Slice(log.offset, ci) == log.ents[..ci - log.offset];
  }

  // The answer to an append message.
  predicate Answers(n: Node, m: Message, r: Message) {
    r.typ == MSG_APP_RESP && r.to == m.from && r.from == n.id && r.term == m.term
  }

  // The node has the sender for its leader, and has lost its vote if it did not follow before.
  predicate Obeys(n: Node, m: Message, n': Node) {
    && n'.id == n.id && n'.term == m.term && n'.role == Follower && n'.lead == m.from
    && n'.commit == n'.log.committed && n'.prs.Keys == n.prs.Keys
    && n'.vote == if m.term == n.term && n.role == Follower then n.vote else NONE
  }

  /** An append message that a node takes is denied if and only if the node does not have the
      entry it builds on. Otherwise it panics if and only if an entry it has committed differs
      from the message's, and else merges the message and acknowledges its last index. */
  lemma AppendAnswered(n: Node, m: Message) returns (r: Message)
    requires m.typ == MSG_APP && Takes(n, m) && InLog(n.log)
    ensures Answers(n, m, r)
    ensures !HasTerm(n.log, m.index, m.logTerm) ==>
              Step(n, m).Done? && Step(n, m).out == {r} && r.denied && Obeys(n, m, Step(n, m).node) &&
              Step(n, m).node.log == n.log
    ensures HasTerm(n.log, m.index, m.logTerm) ==>
              && (Step(n, m).Panics? <==> exists k :: Differs(n.log, m, k) && m.index + 1 + k <= n.log.committed)
              && (Step(n, m).Panics? ==> Step(n, m).why == CommittedConflict)
              && (Step(n, m).Done? ==>
                    var n' := Step(n, m).node;
                    && Step(n, m).out == {r} && !r.denied && r.index == n'.log.offset + |n'.log.ents| - 1
                    && Obeys(n, m, n') && Merges(n.log, m, n'.log))
  {
    var res := n.log.MaybeAppend(m.index, m.logTerm, m.commit, m.entries);
    if HasTerm(n.log, m.index, m.logTerm) {
      MaybeAppendMerges(n.log, m);
    }
    AppendHandled(n, m);
    r := Blank(MSG_APP_RESP, m.from).(from := n.id, term := m.term);
    r := r.(denied := res.Rejected?, index := if res.Accepted? then res.log.LastIndex() else 0);
  }

  lemma AppendHandled(n: Node, m: Message)
    requires m.typ == MSG_APP && Takes(n, m)
    ensures var res := n.log.MaybeAppend(m.index, m.logTerm, m.commit, m.entries);
            var r := Blank(MSG_APP_RESP, m.from).(from := n.id, term := m.term);
            match Step(n, m)
            case Panics(why) => res.Conflict? && why == CommittedConflict
            case Done(n', out) =>
              && Obeys(n, m, n')
              && (res.Rejected? ==> n'.log == n.log && out == {r.(denied := true)})
              && (res.Accepted? ==> n'.log == res.log && out == {r.(index := res.log.LastIndex())})
              && !res.Conflict?
  {
    var f := if m.term > n.term || n.role == Candidate then BecomeFollower(n, m.term, m.from) else n.(lead := m.from);
    assert f.log == n.log && f.prs.Keys == n.prs.Keys && f.lead == m.from;
    assert Deliver(n, m) == HandleAppendEntries(f, m);
  }

  // ---- What a leader does with an acknowledgement ----

  // More than half of the peers are known to have the log up to v.
  predicate MostHave(prs: map<int, Progress>, v: int) {
    2 * |set i | i in prs && prs[i].matched >= v| > |prs|
  }

  // v is the largest index that most peers have.
  ghost predicate LargestCommon(prs: map<int, Progress>, v: int) {
    MostHave(prs, v) && forall w :: w > v ==> !MostHave(prs, w)
  }

  lemma QuorumIsCommon(n: Node)
    requires n.prs != map[]
    ensures LargestCommon(n.prs, QuorumMatch(n))
  {
    var indexes := MatchedIndexes(n);
    assert indexes.Keys == n.prs.Keys;
    assert |indexes.Keys| == |n.prs|;
    forall w ensures MostHave(n.prs, w) <==> IsMajority(Reached(indexes, w), indexes.Keys) {
      assert Reached(indexes, w) == set i | i in n.prs && n.prs[i].matched >= w;
    }
  }

  // out holds one message for every peer of n but n itself, which serves it.
  ghost predicate ServesAll(n: Node, out: set<Message>) {
    && (forall i :: i in n.prs && i != n.id ==> exists r :: r in out && Serves(n, i, n.prs[i].next, r))
    && (forall r :: r in out ==> r.to in n.prs && r.to != n.id && Serves(n, r.to, n.prs[r.to].next, r))
  }

  ghost predicate CanServeAll(n: Node) {
    n.log.snapshot.term != 0 || forall i :: i in n.prs && i != n.id ==> n.prs[i].next > n.log.offset
  }

  lemma BcastServes(n: Node)
    requires n.log.ents != []
    ensures BcastAppend(n).Done? <==> CanServeAll(n)
    ensures BcastAppend(n).Done? ==> BcastAppend(n).node == n && ServesAll(n, BcastAppend(n).out)
  {
    forall i | i in n.prs && i != n.id ensures Serves(n, i, n.prs[i].next, AppendMessage(n, i)) {
      AppendServes(n, i);
    }
    if BcastAppend(n).Done? {
      forall i | i in n.prs && i != n.id
        ensures exists r :: r in BcastAppend(n).out && Serves(n, i, n.prs[i].next, r) {
        assert i in Peers(n);
        assert AppendMessage(n, i) in BcastAppend(n).out;
      }
    } else {
      var i :| i in Peers(n) && SendPanics(n, i);
    }
  }

  // q may be committed: it is further than what is, and an entry of the leader's term.
  predicate Committable(n: Node, q: int) {
    q > n.log.committed && HasTerm(n.log, q, n.term)
  }

  /** An acknowledgement records what the peer has. The leader then commits the largest index
      that most peers have if and only if that is further than what is committed and of its
      own term, and if so tells everybody; otherwise it sends nothing. */
  lemma AckCounted(n: Node, m: Message) returns (q: int)
    requires n.role == Leader && m.typ == MSG_APP_RESP && !m.denied && m.term == n.term >= 1
    requires m.from in n.prs && n.log.ents != []
    ensures var u := n.(prs := n.prs[m.from := Progress(m.index, m.index + 1)], commit := n.log.committed);
            && LargestCommon(u.prs, q)
            && (!Committable(n, q) ==> Step(n, m) == Done(u, {}))
            && (Committable(n, q) ==>
                  var n' := u.(log := n.log.(committed := q), commit := q);
                  && (Step(n, m).Done? <==> CanServeAll(n'))
                  && (Step(n, m).Done? ==> Step(n, m).node == n' && ServesAll(n', Step(n, m).out)))
  {
    var u := n.(prs := n.prs[m.from := Progress(m.index, m.index + 1)]);
    assert m.from in u.prs;
    q := QuorumMatch(u);
    QuorumIsCommon(u);
    if Committable(n, q) {
      var c := u.(log := n.log.(committed := q));
      assert c == MaybeCommit(u);
      BcastServes(c);
      ServesRecorded(c);
    }
  }

  // The recorded commit index has no part in serving.
  lemma ServesRecorded(n: Node)
    ensures forall out :: ServesAll(n, out) ==> ServesAll(n.(commit := n.log.committed), out)
    ensures CanServeAll(n) <==> CanServeAll(n.(commit := n.log.committed))
  {
    var n' := n.(commit := n.log.committed);
    forall out | ServesAll(n, out) ensures ServesAll(n', out) {
      forall i | i in n'.prs && i != n'.id ensures exists r :: r in out && Serves(n', i, n'.prs[i].next, r) {
        var r :| r in out && Serves(n, i, n.prs[i].next, r);
        assert Serves(n', i, n'.prs[i].next, r);
      }
    }
  }

  // ---- Votes ----

  // The candidate's log, which ends at index i with term t, is as far as this one: a later
  // last term, or the same and no shorter.
  predicate AsFar(log: Log, i: int, t: int)
    requires log.ents != []
  {
    var last := log.ents[|log.ents| - 1].term;
    t > last || (t == last && i >= log.offset + |log.ents| - 1)
  }

  // The node may give the sender its vote: it has given none in that term, or that one.
  predicate MayVoteFor(n: Node, m: Message) {
    m.term > n.term || (n.role == Follower && (n.vote == NONE || n.vote == m.from))
  }

  /** A request for a vote is granted if and only if the node is free to give it and the
      candidate's log is as far as its own. Every request of the node's term or a later one is
      answered, and a later term is taken over. */
  lemma VoteAnswered(n: Node, m: Message) returns (r: Message)
    requires m.typ == MSG_VOTE && m.term >= 1 && m.term >= n.term && n.log.ents != []
    ensures r == Blank(MSG_VOTE_RESP, m.from).(from := n.id, term := m.term, denied := r.denied)
    ensures !r.denied <==> MayVoteFor(n, m) && AsFar(n.log, m.index, m.logTerm)
    ensures Step(n, m).Done? && Step(n, m).out == {r}
    ensures var n' := Step(n, m).node;
            && n'.id == n.id && n'.term == m.term && n'.log == n.log && n'.commit == n.log.committed
            && n'.vote == (if !r.denied then m.from else if m.term > n.term then NONE else n.vote)
            && n'.role == (if m.term > n.term then Follower else n.role)
            && n'.lead == (if m.term > n.term then NONE else n.lead)
  {
    r := Blank(MSG_VOTE_RESP, m.from).(from := n.id, term := m.term,
           denied := !(MayVoteFor(n, m) && AsFar(n.log, m.index, m.logTerm)));
  }

  // ---- Standing for election ----

  // c is n standing in the next term, with its own vote.
  predicate Stands(n: Node, c: Node) {
    && c.id == n.id && c.term == n.term + 1 && c.role == Candidate && c.vote == n.id && c.lead == NONE
    && c.votes == map[n.id := true] && c.log == n.log && c.commit == n.log.committed && c.prs.Keys == n.prs.Keys
  }

  // out asks every peer of c for its vote, and says where the candidate's log ends.
  ghost predicate AsksAll(c: Node, out: set<Message>)
    requires c.log.ents != []
  {
    var last := c.log.offset + |c.log.ents| - 1;
    var term := c.log.ents[|c.log.ents| - 1].term;
    && (forall i :: i in c.prs && i != c.id ==>
          Blank(MSG_VOTE, i).(from := c.id, term := c.term, index := last, logTerm := term) in out)
    && (forall r :: r in out ==>
          && r.to in c.prs && r.to != c.id
          && r == Blank(MSG_VOTE, r.to).(from := c.id, term := c.term, index := last, logTerm := term))
  }

  /** When its election timer fires, a node that does not lead stands in the next term, votes
      for itself and asks all others. A leader panics. */
  lemma HupStands(n: Node, m: Message)
    requires m.typ == MSG_HUP && m.term == 0 && n.log.ents != [] && |n.prs| >= 2
    ensures n.role == Leader ==> Step(n, m) == Panics(LeaderCampaigns)
    ensures n.role != Leader ==>
              Step(n, m).Done? && Stands(n, Step(n, m).node) && AsksAll(Step(n, m).node, Step(n, m).out)
  {
    if n.role != Leader {
      var c := CampaignAsks(n);
      CandidateWaits(c, m);
      RequestsAsk(c, c.(commit := n.log.committed));
    }
  }

  lemma CampaignAsks(n: Node) returns (c: Node)
    requires n.role != Leader && |n.prs| >= 2
    ensures Campaign(n) == RequestVotes(c) && Stands(n, c.(commit := n.log.committed))
  {
    c := BecomeCandidate(n);
    assert c.prs.Keys == n.prs.Keys;
    assert |c.prs| == |c.prs.Keys| == |n.prs|;
    c := c.(votes := Poll(c.votes, c.id, true));
    assert c.votes == map[n.id := true];
    assert Granted(c.votes) == {n.id};
  }

  lemma CandidateWaits(c: Node, m: Message)
    requires c.role == Candidate && m.typ == MSG_HUP && m.term == 0
    ensures Deliver(c, m) == Done(c, {})
  {
  }

  lemma RequestsAsk(c: Node, c': Node)
    requires c.log.ents != [] && c' == c.(commit := c'.commit)
    ensures AsksAll(c', RequestVotes(c).out)
  {
    var last := c.log.offset + |c.log.ents| - 1;
    assert c.log.Term(last) == c.log.ents[|c.log.ents| - 1].term;
    forall i | i in c.prs && i != c.id ensures VoteRequest(c, i) in RequestVotes(c).out {
      assert i in Peers(c);
    }
  }

  // ---- Winning and losing ----

  // Index i holds a configuration entry that is not committed.
  predicate OpenConf(log: Log, i: int) {
    && log.committed < i && 0 <= i - log.offset < |log.ents| && log.ents[i - log.offset].typ == ENTRY_CONF_CHANGE
  }

  ghost predicate TwoOpenConfs(log: Log) {
    exists i, j :: i < j && OpenConf(log, i) && OpenConf(log, j)
  }

  // l is n leading: its log has one more entry, an empty one of its term, and it takes all
  // others to be where its log ended.
  ghost predicate LeadsNow(n: Node, l: Node) {
    var last := n.log.offset + |n.log.ents| - 1;
    && l.id == n.id && l.term == n.term && l.role == Leader && l.lead == n.id
    && l.log.ents == n.log.ents + [Entry(ENTRY_NORMAL, n.term, last + 1, [])]
    && l.log.offset == n.log.offset && l.log.applied == n.log.applied && l.log.snapshot == n.log.snapshot
    && l.log.unstable == Min(n.log.unstable, last + 1)
    && l.prs.Keys == n.prs.Keys && n.id in l.prs && l.prs[n.id] == Progress(last + 1, last + 2)
    && (forall i :: i in l.prs && i != n.id ==> l.prs[i] == Progress(0, last + 1))
    && (l.pendingConf <==> exists i :: OpenConf(n.log, i))
    && CommitsCommon(n.log.committed, l)
  }

  // The leader has committed the largest index that most peers have, if that is beyond c and of
  // its term, and else c.
  ghost predicate CommitsCommon(c: int, l: Node) {
    exists q :: LargestCommon(l.prs, q) && l.log.committed == if q > c && HasTerm(l.log, q, l.term) then q else c
  }

  lemma {:induction false} ConfsCounted(es: seq<Entry>)
    ensures ConfChanges(es) >= 1 <==> exists k :: 0 <= k < |es| && es[k].typ == ENTRY_CONF_CHANGE
    ensures ConfChanges(es) >= 2 <==>
              exists j, k :: 0 <= j < k < |es| && es[j].typ == ENTRY_CONF_CHANGE && es[k].typ == ENTRY_CONF_CHANGE
  {
    if es != [] {
      var rest := es[1..];
      ConfsCounted(rest);
      assert forall k :: 0 <= k < |rest| ==> rest[k] == es[k + 1];
      if ConfChanges(rest) >= 1 {
        var k :| 0 <= k < |rest| && rest[k].typ == ENTRY_CONF_CHANGE;
        assert es[k + 1].typ == ENTRY_CONF_CHANGE;
      }
      if ConfChanges(rest) >= 2 {
        var j, k :| 0 <= j < k < |rest| && rest[j].typ == ENTRY_CONF_CHANGE && rest[k].typ == ENTRY_CONF_CHANGE;
        assert es[j + 1].typ == ENTRY_CONF_CHANGE && es[k + 1].typ == ENTRY_CONF_CHANGE;
      }
    }
  }

  lemma OpenConfsCounted(log: Log)
    requires InLog(log)
    ensures var confs := ConfChanges(log.Slice(log.committed + 1, log.LastIndex() + 1));
            (confs >= 1 <==> exists i :: OpenConf(log, i)) && (confs >= 2 <==> TwoOpenConfs(log))
  {
    var es := log.Slice(log.committed + 1, log.LastIndex() + 1);
    var at := log.committed + 1;
    ConfsCounted(es);
    OpenSlice(log, es);
    forall i ensures OpenConf(log, i) <==> 0 <= i - at < |es| && es[i - at].typ == ENTRY_CONF_CHANGE {
    }
    if ConfChanges(es) >= 1 {
      var k :| 0 <= k < |es| && es[k].typ == ENTRY_CONF_CHANGE;
      assert OpenConf(log, at + k);
    }
    if ConfChanges(es) >= 2 {
      var j, k :| 0 <= j < k < |es| && es[j].typ == ENTRY_CONF_CHANGE && es[k].typ == ENTRY_CONF_CHANGE;
      assert OpenConf(log, at + j) && OpenConf(log, at + k);
    }
  }

  lemma OpenSlice(log: Log, es: seq<Entry>)
    requires InLog(log) && es == log.Slice(log.committed + 1, log.LastIndex() + 1)
    ensures es == log.ents[log.committed + 1 - log.offset..]
  {
  }

  // What appending an entry at the leader does.
  ghost predicate Appends(n: Node, e: Entry, l: Node) {
    var last := n.log.offset + |n.log.ents| - 1;
    && l == n.(log := l.log, prs := n.prs[n.id := Progress(last + 1, last + 2)])
    && l.log == n.log.(ents := n.log.ents + [e.(term := n.term, index := last + 1)],
                       unstable := Min(n.log.unstable, last + 1), committed := l.log.committed)
    && CommitsCommon(n.log.committed, l)
  }

  lemma EntryAppended(n: Node, e: Entry)
    requires n.id in n.prs && InLog(n.log) && n.term >= 0
    ensures Appends(n, e, AppendEntry(n, e))
  {
    var last := n.log.LastIndex();
    assert n.log.Slice(n.log.offset, last + 1) == n.log.ents;
    var l := n.(log := n.log.Append(last, [e.(term := n.term, index := last + 1)]),
                prs := n.prs[n.id := Updated(last + 1)]);
    assert n.id in l.prs;
    QuorumIsCommon(l);
    var q := QuorumMatch(l);
    assert AppendEntry(n, e) == MaybeCommit(l);
    assert AppendEntry(n, e).prs == l.prs && LargestCommon(AppendEntry(n, e).prs, q);
  }

  lemma LeadsNext(n: Node)
    requires n.role != Follower && n.id in n.prs && InLog(n.log) && n.term >= 0
    ensures TwoOpenConfs(n.log) ==> BecomeLeader(n) == Panics(DoubleConfChange)
    ensures !TwoOpenConfs(n.log) ==> BecomeLeader(n).Done? && LeadsNow(n, BecomeLeader(n).node)
  {
    OpenConfsCounted(n.log);
    var confs := ConfChanges(n.log.Slice(n.log.committed + 1, n.log.LastIndex() + 1));
    var l := Reset(n, n.term).(lead := n.id, role := Leader, pendingConf := confs == 1);
    LeaderMade(n, confs, l);
    if confs <= 1 {
      EntryAppended(l, DUMMY_ENTRY);
      FirstEntry(n, l, AppendEntry(l, DUMMY_ENTRY));
    }
  }

  lemma LeaderMade(n: Node, confs: nat, l: Node)
    requires n.role != Follower && n.id in n.prs && InLog(n.log)
    requires confs == ConfChanges(n.log.Slice(n.log.committed + 1, n.log.LastIndex() + 1))
    requires l == Reset(n, n.term).(lead := n.id, role := Leader, pendingConf := confs == 1)
    ensures l.id in l.prs && l.log == n.log
    ensures BecomeLeader(n) == if confs > 1 then Panics(DoubleConfChange) else Quiet(AppendEntry(l, DUMMY_ENTRY))
  {
  }

  lemma FirstEntry(n: Node, r: Node, l: Node)
    requires n.id in n.prs && InLog(n.log) && (r.pendingConf <==> exists i :: OpenConf(n.log, i))
    requires r == Reset(n, n.term).(lead := n.id, role := Leader, pendingConf := r.pendingConf)
    requires Appends(r, DUMMY_ENTRY, l)
    ensures LeadsNow(n, l)
  {
  }

  // The votes once the answer m is counted; a second answer of the same peer is not.
  function Tally(n: Node, m: Message): map<int, bool> {
    if m.from in n.votes then n.votes else n.votes[m.from := !m.denied]
  }

  function Voters(votes: map<int, bool>, v: bool): set<int> { set i | i in votes && votes[i] == v }

  /** An answer to its request decides a candidate's election if and only if just over half of
      the peers have now granted their vote, or have now denied it. With two configuration
      entries open the winner panics; otherwise it leads and sends to everybody. The loser
      follows nobody in the same term. */
  lemma VoteCounted(n: Node, m: Message)
    requires n.role == Candidate && m.typ == MSG_VOTE_RESP && m.term == n.term >= 1
    requires n.id in n.prs && InLog(n.log)
    ensures var votes := Tally(n, m);
            var yes, no, half := |Voters(votes, true)|, |Voters(votes, false)|, |n.prs| / 2;
            && (yes == half + 1 && TwoOpenConfs(n.log) ==> Step(n, m) == Panics(DoubleConfChange))
            && (yes == half + 1 && !TwoOpenConfs(n.log) ==>
                  && Step(n, m).Done? && LeadsNow(n, Step(n, m).node) && ServesAll(Step(n, m).node, Step(n, m).out))
            && (yes != half + 1 && no == half + 1 ==>
                  && Step(n, m).Done? && Step(n, m).out == {}
                  && var f := Step(n, m).node;
                     f.role == Follower && f.term == n.term && f.vote == NONE && f.lead == NONE && f.log == n.log)
            && (yes != half + 1 && no != half + 1 ==>
                  Step(n, m) == Done(n.(votes := votes, commit := n.log.committed), {}))
  {
    var votes := Tally(n, m);
    var c := n.(votes := votes);
    VotersSplit(votes);
    PollSplits(n, m, c);
    if |Voters(votes, true)| == |n.prs| / 2 + 1 {
      LeadsNext(c);
      if !TwoOpenConfs(n.log) {
        WinnerServes(n, c, BecomeLeader(c).node);
      }
    }
  }

  lemma PollSplits(n: Node, m: Message, c: Node)
    requires n.role == Candidate && m.typ == MSG_VOTE_RESP && m.term == n.term >= 1 && c == n.(votes := Tally(n, m))
    ensures var yes, no, half := |Voters(c.votes, true)|, |Voters(c.votes, false)|, |n.prs| / 2;
            var won := BecomeLeader(c);
            Step(n, m) == Recorded(
              if yes == half + 1 then if won.Panics? then won else BcastAppend(won.node)
              else if no == half + 1 then Quiet(BecomeFollower(c, c.term, NONE)) else Quiet(c))
  {
    VotersSplit(c.votes);
    assert Granted(c.votes) == Voters(c.votes, true);
    assert Step(n, m) == Recorded(CandidatePoll(n, m));
  }

  lemma WinnerServes(n: Node, c: Node, l: Node)
    requires c == n.(votes := c.votes) && LeadsNow(c, l) && InLog(n.log)
    ensures BcastAppend(l).Done? && BcastAppend(l).node == l
    ensures var l' := l.(commit := l.log.committed); LeadsNow(n, l') && ServesAll(l', BcastAppend(l).out)
  {
    BcastServes(l);
    ServesRecorded(l);
    LeadsAnyway(n, c, l);
  }

  /** A node without peers wins as soon as it stands. */
  lemma HupWinsAlone(n: Node, m: Message)
    requires m.typ == MSG_HUP && m.term == 0 && n.role != Leader && n.prs.Keys == {n.id} && InLog(n.log) && n.term >= 0
    ensures TwoOpenConfs(n.log) ==> Step(n, m) == Panics(DoubleConfChange)
    ensures !TwoOpenConfs(n.log) ==>
              Step(n, m).Done? && Step(n, m).out == {} && LeadsNow(n.(term := n.term + 1), Step(n, m).node)
  {
    var c := BecomeCandidate(n);
    c := c.(votes := Poll(c.votes, c.id, true));
    AloneCampaigns(n, c);
    LeadsNext(c);
    if !TwoOpenConfs(n.log) {
      var l := BecomeLeader(c).node;
      LeadsAnyway(n.(term := n.term + 1), c, l);
      assert Deliver(l, m) == Quiet(l);
    }
  }

  lemma AloneCampaigns(n: Node, c: Node)
    requires n.role != Leader && n.prs.Keys == {n.id}
    requires var b := BecomeCandidate(n); c == b.(votes := Poll(b.votes, b.id, true))
    ensures Campaign(n) == BecomeLeader(c) && c.prs.Keys == n.prs.Keys
    ensures c.role == Candidate && c.id == n.id && c.log == n.log && c.term == n.term + 1
  {
    assert c.prs.Keys == n.prs.Keys;
    assert |c.prs| == |c.prs.Keys| == 1;
    assert c.votes == map[n.id := true];
    assert Granted(c.votes) == {n.id};
    NobodyAsked(c);
  }

  lemma NobodyAsked(c: Node)
    requires c.prs.Keys == {c.id}
    ensures var o := BecomeLeader(c);
            o.Done? ==> o.out == {} && RequestVotes(o.node) == o
  {
    var o := BecomeLeader(c);
    if o.Done? {
      assert o.node.prs.Keys == {c.id} && o.node.id == c.id;
    }
  }

  // What the leader begins with depends on nothing else of the candidate.
  lemma LeadsAnyway(n: Node, c: Node, l: Node)
    requires c.id == n.id && c.term == n.term && c.log == n.log && c.prs.Keys == n.prs.Keys && LeadsNow(c, l)
    ensures LeadsNow(n, l) && LeadsNow(n, l.(commit := l.log.committed))
  {
    var q :| LargestCommon(l.prs, q) &&
             l.log.committed == if q > c.log.committed && HasTerm(l.log, q, l.term) then q else c.log.committed;
    assert CommitsCommon(n.log.committed, l.(commit := l.log.committed));
  }

  lemma VotersSplit(votes: map<int, bool>)
    ensures |votes| == |Voters(votes, true)| + |Voters(votes, false)|
  {
    assert votes.Keys == Voters(votes, true) + Voters(votes, false);
    assert |votes| == |votes.Keys|;
  }

  // ---- Proposals, snapshots and timers ----

  /** A leader appends a proposal to its log and sends it to everybody, except that it drops a
      configuration change while another is pending. A follower passes it on to its leader; a
      node that knows none panics. */
  lemma ProposalTaken(n: Node, m: Message, e: Entry)
    requires m.typ == MSG_PROP && m.term == 0 && m.entries == [e] && n.id in n.prs && InLog(n.log) && n.term >= 0
    ensures n.role == Candidate || (n.role == Follower && n.lead == NONE) ==> Step(n, m) == Panics(NoLeader)
    ensures n.role == Follower && n.lead != NONE ==>
              Step(n, m) ==
              Done(n.(commit := n.log.committed), {m.(to := n.lead, from := n.id, term := n.term)})
    ensures n.role == Leader && e.typ == ENTRY_CONF_CHANGE && n.pendingConf ==>
              Step(n, m) == Done(n.(commit := n.log.committed), {})
    ensures n.role == Leader && !(e.typ == ENTRY_CONF_CHANGE && n.pendingConf) && Step(n, m).Done? ==>
              var u := n.(pendingConf := n.pendingConf || e.typ == ENTRY_CONF_CHANGE, commit := Step(n, m).node.commit);
              var n' := Step(n, m).node;
              Appends(u, e, n') && n'.commit == n'.log.committed && ServesAll(n', Step(n, m).out)
    ensures n.role == Leader && !(e.typ == ENTRY_CONF_CHANGE && n.pendingConf) && CanServeAll(n) ==> Step(n, m).Done?
  {
    if n.role == Leader && !(e.typ == ENTRY_CONF_CHANGE && n.pendingConf) {
      var u := n.(pendingConf := n.pendingConf || e.typ == ENTRY_CONF_CHANGE);
      ProposalSent(n, m, e, u);
      EntryAppended(u, e);
      var l := AppendEntry(u, e);
      BcastServes(l);
      ServesRecorded(l);
      AppendsRecorded(u, e, l);
    }
  }

  lemma ProposalSent(n: Node, m: Message, e: Entry, u: Node)
    requires m.typ == MSG_PROP && m.term == 0 && m.entries == [e] && n.id in n.prs && n.role == Leader
    requires !(e.typ == ENTRY_CONF_CHANGE && n.pendingConf)
    requires u == n.(pendingConf := n.pendingConf || e.typ == ENTRY_CONF_CHANGE)
    ensures Step(n, m) == Recorded(BcastAppend(AppendEntry(u, e)))
  {
  }

  lemma AppendsRecorded(n: Node, e: Entry, l: Node)
    requires Appends(n, e, l)
    ensures Appends(n.(commit := l.log.committed), e, l.(commit := l.log.committed))
  {
    var q :| LargestCommon(l.prs, q) &&
             l.log.committed == if q > n.log.committed && HasTerm(l.log, q, l.term) then q else n.log.committed;
  }

  /** A snapshot is taken over if and only if it reaches beyond what is committed. The log then
      begins at its index with its term, all of it committed, and the acknowledgement says so;
      otherwise what is committed is acknowledged. */
  lemma SnapshotAnswered(n: Node, m: Message) returns (r: Message)
    requires m.typ == MSG_SNAP && Takes(n, m)
    ensures Answers(n, m, r) && !r.denied && Step(n, m).Done? && Step(n, m).out == {r}
    ensures var s, n' := m.snapshot, Step(n, m).node;
            && n'.term == m.term && n'.role == Follower && n'.commit == n'.log.committed
            && r.index == n'.log.committed == Max(n.log.committed, s.index)
            && (s.index <= n.log.committed ==> n'.log == n.log)
            && (s.index > n.log.committed ==>
                  && n'.log.offset == n'.log.applied == s.index && n'.log.unstable == s.index + 1
                  && |n'.log.ents| == 1 && HasTerm(n'.log, s.index, s.term) && n'.log.snapshot == s
                  && n'.prs == map i | i in s.nodes :: Progress(if i == n.id then s.index else 0, s.index + 1))
  {
    var f := if m.term > n.term || n.role == Candidate then BecomeFollower(n, m.term, m.from) else n;
    assert f.log == n.log && f.id == n.id;
    assert Deliver(n, m) == HandleSnapshot(f, m);
    r := Blank(MSG_APP_RESP, m.from).(from := n.id, term := m.term, index := Max(n.log.committed, m.snapshot.index));
  }

  /** A heartbeat goes to every peer, empty and at index 0; only a leader sends it. */
  lemma BeatSent(n: Node, m: Message)
    requires m.typ == MSG_BEAT && m.term == 0
    ensures Step(n, m).Done? && Step(n, m).node == n.(commit := n.log.committed)
    ensures forall r :: r in Step(n, m).out <==>
              n.role == Leader && r.to in n.prs && r.to != n.id &&
              r == Blank(MSG_APP, r.to).(from := n.id, term := n.term)
  {
    if n.role == Leader {
      var out := BcastHeartbeat(n).out;
      forall i | i in n.prs && i != n.id ensures Blank(MSG_APP, i).(from := n.id, term := n.term) in out {
        assert i in Peers(n) && Heartbeat(n, i) in out;
      }
    }
  }

  /** A message of an earlier term has no effect. */
  lemma StaleDropped(n: Node, m: Message)
    requires m.typ != MSG_HUP && m.term != 0 && m.term < n.term
    ensures Step(n, m) == Done(n.(commit := n.log.committed), {})
  {
  }

  // ---- Catching up by snapshot ----

  // The leader's snapshot stands at the beginning of its log.
  predicate SnapshotFits(n: Node) {
    InLog(n.log) && n.log.snapshot.index == n.log.offset && n.log.snapshot.term == n.log.ents[0].term != 0
  }

  /** A follower whose next entry the leader no longer has gets the snapshot instead. Once the
      leader knows that it took it, the entries it sends next are accepted, and the follower
      then has the leader's log from the snapshot on. */
  lemma CaughtUpBySnapshot(l: Node, f: Node, m: Message)
      returns (a: Message, l': Node, f': Node)
    requires l.role == Leader && l.term >= 1 && SnapshotFits(l) && f.id in l.prs && f.log.committed < l.log.offset
    requires Serves(l, f.id, l.prs[f.id].next, m) && l.prs[f.id].next <= l.log.offset && Takes(f, m)
    ensures Step(f, m) == Done(f', {a}) && Step(l, a).Done? && Step(l, a).node == l'
    ensures f'.log.committed == l.log.offset && f.id in l'.prs && l'.log.ents == l.log.ents
    ensures forall r :: Serves(l', f.id, l'.prs[f.id].next, r) ==>
              && Step(f', r).Done?
              && var log := Step(f', r).node.log;
                 log.offset == l.log.offset && log.ents == f'.log.ents + l.log.ents[1..]
  {
    a := SnapshotAnswered(f, m);
    f' := Step(f, m).node;
    l' := SnapshotCounted(l, f.id, a);
    forall r | Serves(l', f.id, l'.prs[f.id].next, r)
      ensures Step(f', r).Done?
      ensures var log := Step(f', r).node.log;
              log.offset == l.log.offset && log.ents == f'.log.ents + l.log.ents[1..]
    {
      RestAccepted(l', f', r);
    }
  }

  // The leader records the index of its snapshot, which commits nothing new.
  lemma SnapshotCounted(l: Node, f: int, a: Message) returns (l': Node)
    requires l.role == Leader && InLog(l.log) && f in l.prs && l.log.snapshot.term != 0
    requires a.typ == MSG_APP_RESP && !a.denied && a.from == f && a.index == l.log.offset && a.term == l.term >= 1
    ensures Step(l, a).Done? && Step(l, a).node == l' && f in l'.prs && l'.prs[f].next == l.log.offset + 1
    ensures l'.log == l.log.(committed := l'.log.committed) && l'.term == l.term && l'.id == l.id && InLog(l'.log)
  {
    var q := AckCounted(l, a);
    l' := Step(l, a).node;
  }

  // A log that begins at the leader's snapshot takes the rest.
  lemma RestAccepted(l: Node, f: Node, r: Message)
    requires InLog(l.log) && r.index == l.log.offset && CarriesRest(l.log, r) && r.term >= 1 && f.term == r.term
    requires f.role == Follower && InLog(f.log) && f.log.offset == l.log.offset && |f.log.ents| == 1
    requires f.log.ents[0].term == l.log.ents[0].term
    ensures Step(f, r).Done?
    ensures var log := Step(f, r).node.log;
            log.offset == l.log.offset && log.ents == f.log.ents + l.log.ents[1..]
  {
    var a := AppendAnswered(f, r);
    assert HasTerm(f.log, r.index, r.logTerm);
    if Step(f, r).Done? {
      RestMerged(l.log, f.log, r, Step(f, r).node.log);
    }
  }

  lemma RestMerged(s: Log, log: Log, r: Message, l: Log)
    requires log.offset == s.offset == r.index && |log.ents| == 1 && s.ents != [] && r.entries == s.ents[1..]
    requires Merges(log, r, l)
    ensures l.offset == s.offset && l.ents == log.ents + s.ents[1..]
  {
    if |r.entries| > 0 {
      assert Differs(log, r, 0);
    }
  }
}
