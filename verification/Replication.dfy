/** A leader and its followers: however their logs differ, the followers come to have the
    leader's log, and what is proposed to the leader is committed once a majority has it. */
module Replication {
  import opened Collections
  import opened RaftTypes
  import opened RaftLogModel
  import opened RaftNodeModel
  import opened Cluster
  import opened RaftInvariants
  import opened LogMatching
  import opened RaftSafetySteps
  import opened RaftSafety
  import opened StepLaws

  // ---- Runs, one action at a time ----

  // The run leads to c, and claims in it were faithful.
  ghost predicate Reaches(ms: set<int>, acts: seq<Action>, c: Cluster) {
    IsRun(ms, acts) && FaithfulRun(ms, acts) && After(ms, acts) == c
  }

  lemma OneMore(ms: set<int>, acts: seq<Action>, a: Action)
    requires IsRun(ms, acts) && FaithfulRun(ms, acts) && Enabled(After(ms, acts), a)
    requires OutcomeFaithful(Hist(ms, acts), Response(After(ms, acts), a))
    ensures IsRun(ms, acts + [a]) && FaithfulRun(ms, acts + [a]) && After(ms, acts + [a]) == Next(After(ms, acts), a)
  {
    var all := acts + [a];
    assert all[..|acts|] == acts;
    forall k | 0 <= k < |all|
      ensures IsRun(ms, all[..k]) && Enabled(After(ms, all[..k]), all[k])
      ensures OutcomeFaithful(Hist(ms, all[..k]), Response(After(ms, all[..k]), all[k]))
    {
      if k < |acts| {
        assert all[..k] == acts[..k] && all[k] == acts[k];
      }
    }
  }

  // An action that answers no append message.
  lemma Act(ms: set<int>, acts: seq<Action>, c: Cluster, a: Action, i: int, n: Node, out: set<Message>)
      returns (c': Cluster)
    requires Reaches(ms, acts, c) && i == Actor(a) && i in c.nodes && !a.Refuse? && !a.Restart?
    requires a.Receive? ==> a.m in c.net && a.m.typ != MSG_APP
    requires Step(c.nodes[i], Input(a)) == Done(n, out)
    ensures Reaches(ms, acts + [a], c') && c' == Put(c, i, n, out)
  {
    ShapeOf(ms, acts);
    if a.Receive? {
      assert MessageShape(ms, c, a.m);
    }
    forall r | r in Response(c, a).out ensures r.typ != MSG_APP_RESP || r.denied {
      NoAck(c, a, r);
    }
    OneMore(ms, acts, a);
    c' := Put(c, i, n, out);
  }

  lemma ShapeOf(ms: set<int>, acts: seq<Action>)
    requires IsRun(ms, acts)
    ensures Shape(ms, After(ms, acts))
  {
    RunGood(ms, acts, false);
  }

  lemma ShapeAt(ms: set<int>, acts: seq<Action>, c: Cluster, i: int)
    requires Reaches(ms, acts, c) && i in c.nodes
    ensures NodeShape(ms, i, c.nodes[i]) && c.nodes.Keys == ms
  {
    ShapeOf(ms, acts);
  }

  // ---- A follower that accepts has the leader's log ----

  // s is the log of the leader of term t, and ends with an entry of that term.
  ghost predicate LeaderLog(h: History, s: seq<Entry>, t: int) {
    t in h.llog && h.llog[t] == s && s != [] && s[|s| - 1].term == t && LeaderLogs(h)
  }

  // Nobody has entries beyond those of the leader of the latest term.
  lemma NothingBehind(h: History, s: seq<Entry>, t: int, u: seq<Entry>, top: int)
    requires LeaderLog(h, s, t) && Grounded(h, u, top) && top <= t
    requires |s| <= |u| && u[|s| - 1].term == t
    ensures u == s
  {
    assert Grounded(h, h.llog[t], t);
    GroundedPrefix(h, u, s, top, t, |s| - 1);
    if |u| > |s| {
      assert EntryGrounded(h, u, |s|, top);
      GroundedTerms(h, u, top, |s| - 1, |s|);
    }
    assert u[..|s|] == u && s[..|s|] == s;
  }

  lemma CutSame(h: History, s: seq<Entry>, t: int, log: Log, top: int, m: Message, k: int, l: Log)
    requires LeaderLog(h, s, t) && Grounded(h, log.ents, top) && log.offset == 0
    requires 0 <= m.index < |s| && m.entries == s[m.index + 1..]
    requires HasTerm(log, m.index, s[m.index].term) && First(log, m, k) && Cut(log, m, k, l)
    ensures l.ents == s
  {
    assert Grounded(h, h.llog[t], t);
    SameBefore(s, log, m, k);
    GroundedPrefix(h, log.ents, s, top, t, m.index + k);
    Rejoined(s, log.ents, m.index, k);
  }

  lemma SameBefore(s: seq<Entry>, log: Log, m: Message, k: int)
    requires 0 <= m.index < |s| && m.entries == s[m.index + 1..] && log.offset == 0
    requires HasTerm(log, m.index, s[m.index].term) && First(log, m, k)
    ensures m.index + k < |log.ents| && m.index + k < |s| && log.ents[m.index + k].term == s[m.index + k].term
  {
    if k > 0 {
      assert m.entries[k - 1] == s[m.index + k];
      assert !Differs(log, m, k - 1);
    }
  }

  // The beginning of u and the rest of s.
  lemma Rejoined<T>(s: seq<T>, u: seq<T>, p: nat, k: nat)
    requires p + 1 + k <= |s| && p + 1 + k <= |u| && u[..p + 1 + k] == s[..p + 1 + k]
    ensures u[..p + 1 + k] + s[p + 1..][k..] == s
  {
  }

  lemma AcceptedSame(h: History, s: seq<Entry>, t: int, log: Log, top: int, m: Message, l: Log)
    requires LeaderLog(h, s, t) && Grounded(h, log.ents, top) && top <= t && log.offset == 0
    requires 0 <= m.index < |s| && m.entries == s[m.index + 1..]
    requires HasTerm(log, m.index, s[m.index].term) && Merges(log, m, l)
    ensures l.ents == s
  {
    if k :| First(log, m, k) && Cut(log, m, k, l) {
      CutSame(h, s, t, log, top, m, k, l);
    } else {
      var k := |m.entries| - 1;
      if k >= 0 {
        assert !Differs(log, m, k);
        assert m.entries[k] == s[|s| - 1];
      }
      NothingBehind(h, s, t, log.ents, top);
    }
  }

  // ---- One exchange between the leader and a follower ----

  // What i needs next from l has been sent.
  ghost predicate Sent(c: Cluster, l: int, i: int) {
    l in c.nodes && i in c.nodes[l].prs && exists r :: r in c.net && Serves(c.nodes[l], i, c.nodes[l].prs[i].next, r)
  }

  // c' differs from c at most in l and f and in messages sent; l still leads with the same log,
  // and owes the others nothing new.
  ghost predicate Between(c: Cluster, c': Cluster, l: int, f: int) {
    && l in c.nodes && f in c.nodes && c'.nodes.Keys == c.nodes.Keys && c.net <= c'.net
    && (forall i :: i in c.nodes && i != l && i != f ==> c'.nodes[i] == c.nodes[i])
    && SameLeader(c.nodes[l], c'.nodes[l])
    && (forall i :: i in c.nodes[l].prs && i != f ==> c'.nodes[l].prs[i] == c.nodes[l].prs[i])
    && (forall i {:trigger Sent(c', l, i)} :: i != l && i != f && Sent(c, l, i) ==> Sent(c', l, i))
    && (c'.nodes[l].log.committed == c.nodes[l].log.committed ||
        forall i {:trigger Sent(c', l, i)} :: i in c.nodes[l].prs && i != l ==> Sent(c', l, i))
  }

  lemma BetweenThen(c: Cluster, c1: Cluster, c2: Cluster, l: int, f: int)
    requires Between(c, c1, l, f) && Between(c1, c2, l, f) && f != l
    requires c1.nodes[l].log.committed == c.nodes[l].log.committed
    ensures Between(c, c2, l, f)
  {
  }

  // Only the given nodes act in what is added.
  ghost predicate Only(acts: seq<Action>, acts': seq<Action>, who: set<int>) {
    acts <= acts' && forall k :: |acts| <= k < |acts'| ==> Actor(acts'[k]) in who
  }

  predicate SameLeader(n: Node, n': Node) {
    && n'.id == n.id && n'.role == n.role == Leader && n'.term == n.term && n'.prs.Keys == n.prs.Keys
    && n'.log.ents == n.log.ents && n'.log.offset == n.log.offset && n'.log.committed >= n.log.committed
  }

  // Leader l has sent f the message r, and can go on until f has its log.
  ghost predicate Serving(ms: set<int>, c: Cluster, l: int, f: int, r: Message) {
    && c.nodes.Keys == ms && l in ms && f in ms && l != f && r in c.net && c.nodes[l].role == Leader
    && c.nodes[f].term <= c.nodes[l].term && f in c.nodes[l].prs
    && Serves(c.nodes[l], f, c.nodes[l].prs[f].next, r)
    && c.nodes[l].log.ents != [] && c.nodes[l].log.ents[|c.nodes[l].log.ents| - 1].term == c.nodes[l].term
  }

  // What a leader has sent is an append message, from entries both sides know.
  lemma SentFromLog(ms: set<int>, c: Cluster, h: History, l: int, f: int, r: Message)
    requires Inv(ms, c, h) && Serving(ms, c, l, f, r)
    ensures var n := c.nodes[l];
            && NodeShape(ms, l, n) && r.typ == MSG_APP && CarriesRest(n.log, r) && r.index >= 0 && r.term == n.term >= 1
            && LeaderLog(h, n.log.ents, n.term) && r.from == l && r.to == f
            && NodeShape(ms, f, c.nodes[f]) && Takes(c.nodes[f], r) && Grounded(h, c.nodes[f].log.ents, c.nodes[f].term)
  {
    assert NodeShape(ms, l, c.nodes[l]) && NodeShape(ms, f, c.nodes[f]);
    assert NodeElection(ms, c, h, l) && NodeElection(ms, c, h, f);
    assert MessageShape(ms, c, r);
  }

  // The message reaches the follower, which denies it or then has the leader's log.
  lemma Delivered(ms: set<int>, acts: seq<Action>, c: Cluster, l: int, f: int, r: Message)
      returns (c': Cluster, a: Message)
    requires Reaches(ms, acts, c) && Serving(ms, c, l, f, r)
    ensures Reaches(ms, acts + [Receive(r)], c') && f in c'.nodes && c' == Put(c, f, c'.nodes[f], {a})
    ensures a.typ == MSG_APP_RESP && a.from == f && a.to == l && a.term == c'.nodes[f].term == c.nodes[l].term
    ensures a.denied <==> !HasTerm(c.nodes[f].log, r.index, r.logTerm)
    ensures a.denied ==> c'.nodes[f].log == c.nodes[f].log
    ensures !a.denied ==> c'.nodes[f].log.ents == c.nodes[l].log.ents && a.index == |c.nodes[l].log.ents| - 1
    ensures !a.denied ==> c'.nodes[f].log.committed >= c.nodes[l].log.committed
  {
    RunGood(ms, acts, false);
    var h := Hist(ms, acts);
    CommittedConflictUnreachable(ms, acts, r);
    a := Handled(ms, c, h, l, f, r);
    assert Step(c.nodes[f], r) == Response(c, Receive(r));
    OneMore(ms, acts, Receive(r));
    c' := Next(c, Receive(r));
  }

  lemma Handled(ms: set<int>, c: Cluster, h: History, l: int, f: int, r: Message) returns (a: Message)
    requires Inv(ms, c, h) && Serving(ms, c, l, f, r) && Step(c.nodes[f], r) != Panics(CommittedConflict)
    ensures Step(c.nodes[f], r).Done? && Step(c.nodes[f], r).out == {a} && OutcomeFaithful(h, Step(c.nodes[f], r))
    ensures r.to == f && r.typ == MSG_APP && a.typ == MSG_APP_RESP && a.from == f && a.to == l
    ensures a.term == Step(c.nodes[f], r).node.term == c.nodes[l].term
    ensures a.denied <==> !HasTerm(c.nodes[f].log, r.index, r.logTerm)
    ensures var n, log := c.nodes[l], Step(c.nodes[f], r).node.log;
            && (a.denied ==> log == c.nodes[f].log)
            && (!a.denied ==> log.ents == n.log.ents && a.index == |n.log.ents| - 1 && log.committed >= n.log.committed)
  {
    SentFromLog(ms, c, h, l, f, r);
    a := HandledAt(h, c.nodes[l], c.nodes[f], r);
  }

  lemma HandledAt(h: History, n: Node, f: Node, r: Message) returns (a: Message)
    requires r.typ == MSG_APP && CarriesRest(n.log, r) && r.index >= 0 && r.term == n.term && r.from == n.id
    requires Takes(f, r)
    requires LeaderLog(h, n.log.ents, n.term) && Grounded(h, f.log.ents, f.term) && f.term <= n.term
    requires InLog(n.log) && InLog(f.log) && n.log.offset == f.log.offset == 0
    requires Step(f, r) != Panics(CommittedConflict)
    ensures Step(f, r).Done? && Step(f, r).out == {a} && OutcomeFaithful(h, Step(f, r))
    ensures a.typ == MSG_APP_RESP && a.from == f.id && a.to == n.id && a.term == Step(f, r).node.term == n.term
    ensures a.denied <==> !HasTerm(f.log, r.index, r.logTerm)
    ensures var log := Step(f, r).node.log;
            && (a.denied ==> log == f.log)
            && (!a.denied ==> log.ents == n.log.ents && a.index == |n.log.ents| - 1 && log.committed >= n.log.committed)
  {
    a := AppendAnswered(f, r);
    if HasTerm(f.log, r.index, r.logTerm) {
      InLeader(h, n, f, r);
      AcceptedSame(h, n.log.ents, r.term, f.log, f.term, r, Step(f, r).node.log);
    }
  }

  // A message that the follower accepts is from inside the leader's log.
  lemma InLeader(h: History, n: Node, f: Node, r: Message)
    requires CarriesRest(n.log, r) && n.log.offset == f.log.offset == 0 && r.index >= 0
    requires Grounded(h, f.log.ents, f.term) && HasTerm(f.log, r.index, r.logTerm)
    ensures r.index < |n.log.ents| && r.logTerm == n.log.ents[r.index].term && r.entries == n.log.ents[r.index + 1..]
  {
    if r.index > 0 {
      assert EntryGrounded(h, f.log.ents, r.index, f.term);
    }
  }

  lemma OnlyTwo(acts: seq<Action>, a: Action, b: Action, who: set<int>) returns (acts': seq<Action>)
    requires Actor(a) in who && Actor(b) in who
    ensures acts' == (acts + [a]) + [b] && Only(acts, acts', who) && |acts'| == |acts| + 2
  {
    acts' := (acts + [a]) + [b];
  }

  // A denied message makes the leader step back and send again.
  lemma Denied(ms: set<int>, acts: seq<Action>, c: Cluster, l: int, f: int, r: Message)
      returns (acts': seq<Action>, c': Cluster, r': Message)
    requires Reaches(ms, acts, c) && Serving(ms, c, l, f, r) && !HasTerm(c.nodes[f].log, r.index, r.logTerm)
    ensures Reaches(ms, acts', c') && Serving(ms, c', l, f, r') && Only(acts, acts', {l, f}) && Between(c, c', l, f)
    ensures |acts'| == |acts| + 2
    ensures c.nodes[l].prs[f].next >= 2 && c'.nodes[l].prs[f].next == c.nodes[l].prs[f].next - 1
    ensures c'.nodes[l].log == c.nodes[l].log && c'.nodes[f].log == c.nodes[f].log
  {
    NotFirst(ms, acts, c, l, f, r);
    var c1, a := Delivered(ms, acts, c, l, f, r);
    c', r' := SteppedBack(ms, acts + [Receive(r)], c1, l, f, a);
    acts' := OnlyTwo(acts, Receive(r), Receive(a), {l, f});
    BackedUp(ms, c, c1, c', l, f, r, a, r');
  }

  lemma BackedUp(ms: set<int>, c: Cluster, c1: Cluster, c2: Cluster, l: int, f: int, r: Message, a: Message,
                 r': Message)
    requires Serving(ms, c, l, f, r) && f in c1.nodes && l in c1.nodes && c1 == Put(c, f, c1.nodes[f], {a})
    requires c1.nodes[f].term == c.nodes[l].term
    requires c2 == Put(c1, l, BackAt(c.nodes[l], f), {r'})
    requires Serves(BackAt(c.nodes[l], f), f, c.nodes[l].prs[f].next - 1, r')
    ensures Serving(ms, c2, l, f, r') && Between(c, c2, l, f)
  {
    assert c2.nodes[l] == BackAt(c.nodes[l], f);
    SentStays(c, c2, l, f);
  }

  // The entry in front of the first is the same everywhere.
  lemma NotFirst(ms: set<int>, acts: seq<Action>, c: Cluster, l: int, f: int, r: Message)
    requires Reaches(ms, acts, c) && Serving(ms, c, l, f, r) && !HasTerm(c.nodes[f].log, r.index, r.logTerm)
    ensures c.nodes[l].prs[f].next >= 2 && c.nodes[l].term >= 1
  {
    ShapeOf(ms, acts);
    FirstShared(ms, c, l, f, r);
  }

  lemma FirstShared(ms: set<int>, c: Cluster, l: int, f: int, r: Message)
    requires Shape(ms, c) && Serving(ms, c, l, f, r) && !HasTerm(c.nodes[f].log, r.index, r.logTerm)
    ensures c.nodes[l].prs[f].next >= 2 && c.nodes[l].term >= 1
  {
    assert NodeShape(ms, l, c.nodes[l]) && NodeShape(ms, f, c.nodes[f]) && MessageShape(ms, c, r);
  }

  lemma SteppedBack(ms: set<int>, acts: seq<Action>, c: Cluster, l: int, f: int, a: Message)
      returns (c': Cluster, r: Message)
    requires Reaches(ms, acts, c) && l in c.nodes && c.nodes[l].role == Leader && f in c.nodes[l].prs
    requires c.nodes[l].prs[f].next >= 2
    requires a in c.net && a.typ == MSG_APP_RESP && a.denied && a.from == f && a.to == l
    requires a.term == c.nodes[l].term >= 1
    ensures Reaches(ms, acts + [Receive(a)], c')
    ensures c' == Put(c, l, BackAt(c.nodes[l], f), {r})
    ensures Serves(BackAt(c.nodes[l], f), f, c.nodes[l].prs[f].next - 1, r)
  {
    ShapeAt(ms, acts, c, l);
    r := BacksUp(c.nodes[l], f, a);
    assert Input(Receive(a)) == a;
    c' := Act(ms, acts, c, Receive(a), l, BackAt(c.nodes[l], f), {r});
  }

  lemma BacksUp(n: Node, f: int, a: Message) returns (r: Message)
    requires n.role == Leader && f in n.prs && n.prs[f].next >= 2 && n.log.offset == 0 && n.log.ents != []
    requires a.typ == MSG_APP_RESP && a.denied && a.from == f && a.term == n.term >= 1
    ensures Step(n, a) == Done(BackAt(n, f), {r}) && Serves(BackAt(n, f), f, n.prs[f].next - 1, r)
  {
    r := DenialAnswered(n, a);
  }

  // The leader one step back for f.
  function BackAt(n: Node, f: int): Node
    requires f in n.prs
  {
    n.(prs := n.prs[f := Progress(n.prs[f].matched, n.prs[f].next - 1)], commit := n.log.committed)
  }

  lemma SentStays(c: Cluster, c': Cluster, l: int, f: int)
    requires l in c.nodes && l in c'.nodes && c.net <= c'.net && SameLeader(c.nodes[l], c'.nodes[l])
    requires c'.nodes[l].log == c.nodes[l].log
    requires forall i :: i in c.nodes[l].prs && i != f ==> c'.nodes[l].prs[i] == c.nodes[l].prs[i]
    ensures forall i {:trigger Sent(c', l, i)} :: i != f && Sent(c, l, i) ==> Sent(c', l, i)
  {
    forall i | i != f && Sent(c, l, i) ensures Sent(c', l, i) {
      var r :| r in c.net && Serves(c.nodes[l], i, c.nodes[l].prs[i].next, r);
      assert r in c'.net && Serves(c'.nodes[l], i, c'.nodes[l].prs[i].next, r);
    }
  }

  // ---- The message is accepted ----

  // f has the leader's log, and the leader knows.
  predicate Caught(c: Cluster, l: int, f: int) {
    && l in c.nodes && f in c.nodes && f in c.nodes[l].prs
    && c.nodes[f].log.ents == c.nodes[l].log.ents && c.nodes[f].term == c.nodes[l].term
    && var last := |c.nodes[l].log.ents| - 1; c.nodes[l].prs[f] == Progress(last, last + 1)
  }

  // f knows what the leader has committed, or the leader has sent it.
  ghost predicate Told(c: Cluster, l: int, f: int) {
    l in c.nodes && f in c.nodes && (c.nodes[f].log.committed >= c.nodes[l].log.committed || Sent(c, l, f))
  }

  lemma Accepted(ms: set<int>, acts: seq<Action>, c: Cluster, l: int, f: int, r: Message)
      returns (acts': seq<Action>, c': Cluster)
    requires Reaches(ms, acts, c) && Serving(ms, c, l, f, r) && HasTerm(c.nodes[f].log, r.index, r.logTerm)
    ensures Reaches(ms, acts', c') && Only(acts, acts', {l, f}) && Between(c, c', l, f) && |acts'| == |acts| + 2
    ensures Caught(c', l, f) && Told(c', l, f) && CommitsCommon(c.nodes[l].log.committed, c'.nodes[l])
  {
    SentShape(ms, acts, c, l, f, r);
    var c1, a := Delivered(ms, acts, c, l, f, r);
    var n', out;
    c', n', out := Counted(ms, acts + [Receive(r)], c1, l, f, a);
    acts' := OnlyTwo(acts, Receive(r), Receive(a), {l, f});
    CaughtUp(ms, c, c1, c', l, f, r, a, n', out);
  }

  lemma SentShape(ms: set<int>, acts: seq<Action>, c: Cluster, l: int, f: int, r: Message)
    requires Reaches(ms, acts, c) && Serving(ms, c, l, f, r)
    ensures c.nodes[l].id == l && c.nodes[l].term >= 1
  {
    ShapeOf(ms, acts);
    assert NodeShape(ms, l, c.nodes[l]) && MessageShape(ms, c, r);
  }

  // What the leader becomes when it counts an acknowledgement: it sends only if it commits.
  ghost predicate Counts(n: Node, f: int, index: int, n': Node, out: set<Message>) {
    && f in n.prs && n' == n.(prs := n.prs[f := Progress(index, index + 1)], log := n'.log, commit := n'.commit)
    && n'.log == n.log.(committed := n'.log.committed) && n'.log.committed >= n.log.committed
    && CommitsCommon(n.log.committed, n')
    && (n'.log.committed != n.log.committed ==> ServesAll(n', out))
  }

  lemma Counted(ms: set<int>, acts: seq<Action>, c: Cluster, l: int, f: int, a: Message)
      returns (c': Cluster, n': Node, out: set<Message>)
    requires Reaches(ms, acts, c) && l in c.nodes && c.nodes[l].role == Leader && f in c.nodes[l].prs && a in c.net
    requires a.typ == MSG_APP_RESP && !a.denied && a.from == f && a.to == l && a.index >= 0
    requires a.term == c.nodes[l].term >= 1
    ensures Reaches(ms, acts + [Receive(a)], c') && c' == Put(c, l, n', out)
    ensures Counts(c.nodes[l], f, a.index, n', out)
  {
    ShapeAt(ms, acts, c, l);
    n', out := CountedAt(c.nodes[l], f, a);
    assert Input(Receive(a)) == a;
    c' := Act(ms, acts, c, Receive(a), l, n', out);
  }

  lemma CountedAt(n: Node, f: int, a: Message) returns (n': Node, out: set<Message>)
    requires n.role == Leader && f in n.prs && n.log.offset == 0 && n.log.ents != []
    requires forall i :: i in n.prs ==> n.prs[i].next >= 1
    requires a.typ == MSG_APP_RESP && !a.denied && a.from == f && a.index >= 0 && a.term == n.term >= 1
    ensures Step(n, a) == Done(n', out) && Counts(n, f, a.index, n', out)
  {
    var q := AckCounted(n, a);
    var u := n.(prs := n.prs[f := Progress(a.index, a.index + 1)], commit := n.log.committed);
    if Committable(n, q) {
      n', out := u.(log := n.log.(committed := q), commit := q), Step(n, a).out;
      assert CanServeAll(n');
    } else {
      n', out := u, {};
    }
    assert LargestCommon(n'.prs, q);
  }

  lemma CaughtUp(ms: set<int>, c: Cluster, c1: Cluster, c2: Cluster, l: int, f: int, r: Message, a: Message, n': Node,
                 out: set<Message>)
    requires Serving(ms, c, l, f, r) && f in c1.nodes && l in c1.nodes && c1 == Put(c, f, c1.nodes[f], {a})
    requires c1.nodes[f].term == c.nodes[l].term && c1.nodes[f].log.ents == c.nodes[l].log.ents
    requires c1.nodes[f].log.committed >= c.nodes[l].log.committed && c.nodes[l].id == l
    requires c2 == Put(c1, l, n', out) && Counts(c.nodes[l], f, |c.nodes[l].log.ents| - 1, n', out)
    ensures Between(c, c2, l, f) && Caught(c2, l, f) && Told(c2, l, f)
  {
    assert c2.nodes[l] == n' && c2.nodes[f] == c1.nodes[f];
    if n'.log.committed == c.nodes[l].log.committed {
      SentStays(c, c2, l, f);
    } else {
      AllSent(c2, l, n', out);
    }
  }

  lemma AllSent(c: Cluster, l: int, n: Node, out: set<Message>)
    requires l in c.nodes && c.nodes[l] == n && n.id == l && out <= c.net && ServesAll(n, out)
    ensures forall i {:trigger Sent(c, l, i)} :: i in n.prs && i != l ==> Sent(c, l, i)
  {
    forall i | i in n.prs && i != l ensures Sent(c, l, i) {
      var r :| r in out && Serves(n, i, n.prs[i].next, r);
      assert r in c.net;
    }
  }

  // ---- A follower catches up ----

  lemma OnlyThen(a: seq<Action>, b: seq<Action>, c: seq<Action>, who: set<int>, also: set<int>)
    requires Only(a, b, who) && Only(b, c, also)
    ensures Only(a, c, who + also)
  {
    forall k | |a| <= k < |c| ensures Actor(c[k]) in who + also {
      if k < |b| {
        assert c[k] == b[k];
      }
    }
  }

  lemma OnlyAfter(acts: seq<Action>, a: Action, acts': seq<Action>, who: set<int>)
    requires Actor(a) in who && Only(acts + [a], acts', who)
    ensures Only(acts, acts', who)
  {
    assert acts'[|acts|] == (acts + [a])[|acts|];
  }

  // Both logs have an entry of the same term at j, which lies before what f is sent next.
  predicate Common(c: Cluster, l: int, f: int, j: nat) {
    && l in c.nodes && f in c.nodes && f in c.nodes[l].prs && j < c.nodes[l].prs[f].next
    && c.nodes[l].log.offset == 0 && j < |c.nodes[l].log.ents|
    && HasTerm(c.nodes[f].log, j, c.nodes[l].log.ents[j].term)
  }

  lemma CommonBelow(ms: set<int>, c: Cluster, l: int, f: int, r: Message, j: nat)
    requires Serving(ms, c, l, f, r) && Common(c, l, f, j) && !HasTerm(c.nodes[f].log, r.index, r.logTerm)
    ensures j + 1 < c.nodes[l].prs[f].next
  {
    assert CarriesRest(c.nodes[l].log, r);
  }

  /** However far a follower's log is from the leader's, it has the leader's whole log once the
      leader got back to an entry both have, which takes one denial for each index in between
      and two actions for each message sent. */
  lemma {:induction false} CatchesUp(ms: set<int>, acts: seq<Action>, c: Cluster, l: int, f: int, r: Message, j: nat)
      returns (acts': seq<Action>, c': Cluster, k: int)
    requires Reaches(ms, acts, c) && Serving(ms, c, l, f, r) && Common(c, l, f, j)
    ensures Reaches(ms, acts', c') && Only(acts, acts', {l, f}) && Between(c, c', l, f)
    ensures |acts'| <= |acts| + 2 * (c.nodes[l].prs[f].next - j)
    ensures Caught(c', l, f) && Told(c', l, f) && CommitsCommon(k, c'.nodes[l]) && k <= c'.nodes[l].log.committed
    decreases c.nodes[l].prs[f].next
  {
    if HasTerm(c.nodes[f].log, r.index, r.logTerm) {
      acts', c' := Accepted(ms, acts, c, l, f, r);
      k := c.nodes[l].log.committed;
    } else {
      CommonBelow(ms, c, l, f, r, j);
      var acts1, c1, r1 := Denied(ms, acts, c, l, f, r);
      assert Common(c1, l, f, j);
      acts', c', k := CatchesUp(ms, acts1, c1, l, f, r1, j);
      OnlyThen(acts, acts1, acts', {l, f}, {l, f});
      BetweenThen(c, c1, c', l, f);
    }
  }

  // ---- All of a majority catch up ----

  predicate Waits(c: Cluster, l: int, f: int) {
    l in c.nodes && f in c.nodes && f != l && c.nodes[f].term <= c.nodes[l].term
  }

  // Leader l has its own last entry, which is of its term.
  predicate Driver(ms: set<int>, c: Cluster, l: int) {
    && c.nodes.Keys == ms && l in ms && c.nodes[l].role == Leader && c.nodes[l].prs.Keys == ms
    && var last := |c.nodes[l].log.ents| - 1;
       last >= 0 && c.nodes[l].log.ents[last].term == c.nodes[l].term && c.nodes[l].prs[l].matched == last
  }

  // Those in rest have been sent what they need, those in done have it.
  ghost predicate Driving(ms: set<int>, c: Cluster, l: int, rest: set<int>, done: set<int>) {
    && Driver(ms, c, l)
    && (forall f {:trigger Waits(c, l, f)} :: f in rest ==> Waits(c, l, f) && Sent(c, l, f))
    && (forall f {:trigger Caught(c, l, f)} :: f in done ==> f != l && Caught(c, l, f) && Told(c, l, f))
  }

  lemma DrivenOn(ms: set<int>, c: Cluster, c': Cluster, l: int, f: int, rest: set<int>, done: set<int>)
    requires Driving(ms, c, l, rest, done) && f in rest && Between(c, c', l, f) && f != l
    requires Caught(c', l, f) && Told(c', l, f)
    ensures Driving(ms, c', l, rest - {f}, done + {f})
  {
    forall i | i in rest - {f} ensures Waits(c', l, i) && Sent(c', l, i) {
      assert Waits(c, l, i);
    }
    forall i | i in done + {f} ensures i != l && Caught(c', l, i) && Told(c', l, i) {
      if i != f {
        assert Caught(c, l, i);
        StillTold(c, c', l, f, i);
      }
    }
  }

  lemma StillTold(c: Cluster, c': Cluster, l: int, f: int, i: int)
    requires Between(c, c', l, f) && i != f && i != l && Caught(c, l, i) && Told(c, l, i)
    ensures Caught(c', l, i) && Told(c', l, i)
  {
    if c'.nodes[l].log.committed != c.nodes[l].log.committed {
      assert Sent(c', l, i);
    } else if Sent(c, l, i) {
      assert Sent(c', l, i);
    }
  }

  lemma ServeOne(ms: set<int>, acts: seq<Action>, c: Cluster, l: int, rest: set<int>, done: set<int>, f: int)
      returns (acts': seq<Action>, c': Cluster, k: int)
    requires Reaches(ms, acts, c) && Driving(ms, c, l, rest, done) && f in rest
    ensures Reaches(ms, acts', c') && Only(acts, acts', {l, f}) && Driving(ms, c', l, rest - {f}, done + {f})
    ensures SameLeader(c.nodes[l], c'.nodes[l]) && CommitsCommon(k, c'.nodes[l]) && k <= c'.nodes[l].log.committed
  {
    assert Waits(c, l, f);
    var r := StartServing(ms, acts, c, l, f);
    acts', c', k := CatchesUp(ms, acts, c, l, f, r, 0);
    DrivenOn(ms, c, c', l, f, rest, done);
  }

  lemma StartServing(ms: set<int>, acts: seq<Action>, c: Cluster, l: int, f: int) returns (r: Message)
    requires Reaches(ms, acts, c) && Driver(ms, c, l) && Waits(c, l, f) && Sent(c, l, f)
    ensures Serving(ms, c, l, f, r) && Common(c, l, f, 0)
  {
    r :| r in c.net && Serves(c.nodes[l], f, c.nodes[l].prs[f].next, r);
    ShapeAt(ms, acts, c, l);
    ShapeAt(ms, acts, c, f);
  }

  lemma {:induction false} ServeAll(ms: set<int>, acts: seq<Action>, c: Cluster, l: int, rest: set<int>, done: set<int>,
                                   k: int) returns (acts': seq<Action>, c': Cluster, k': int)
    requires Reaches(ms, acts, c) && Driving(ms, c, l, rest, done)
    requires CommitsCommon(k, c.nodes[l]) && k <= c.nodes[l].log.committed
    ensures Reaches(ms, acts', c') && Only(acts, acts', {l} + rest) && Driving(ms, c', l, {}, done + rest)
    ensures SameLeader(c.nodes[l], c'.nodes[l]) && CommitsCommon(k', c'.nodes[l]) && k' <= c'.nodes[l].log.committed
    decreases |rest|
  {
    if rest == {} {
      acts', c', k' := acts, c, k;
      assert done + rest == done;
    } else {
      var f := Member(rest);
      var acts1, c1, k1 := ServeOne(ms, acts, c, l, rest, done, f);
      MovedOver(l, f, rest, done);
      acts', c', k' := ServeAll(ms, acts1, c1, l, rest - {f}, done + {f}, k1);
      OnlyThen(acts, acts1, acts', {l, f}, {l} + (rest - {f}));
    }
  }

  lemma MovedOver(l: int, f: int, rest: set<int>, done: set<int>)
    requires f in rest
    ensures done + {f} + (rest - {f}) == done + rest && {l, f} + ({l} + (rest - {f})) == {l} + rest
    ensures |rest - {f}| < |rest|
  {
  }

  // ---- Everybody learns what is committed ----

  // f has the leader's log and knows of all of it that is committed.
  predicate Knows(c: Cluster, l: int, f: int) {
    && l in c.nodes && f in c.nodes && c.nodes[f].log.ents == c.nodes[l].log.ents
    && c.nodes[f].log.committed >= c.nodes[l].log.committed
  }

  // c' is c with more messages sent, except for nodes in who.
  predicate Elsewhere(c: Cluster, c': Cluster, who: set<int>) {
    && c'.nodes.Keys == c.nodes.Keys && c.net <= c'.net
    && forall i :: i in c.nodes && i !in who ==> c'.nodes[i] == c.nodes[i]
  }

  lemma Tell(ms: set<int>, acts: seq<Action>, c: Cluster, l: int, f: int) returns (acts': seq<Action>, c': Cluster)
    requires Reaches(ms, acts, c) && Driver(ms, c, l) && f != l && Caught(c, l, f) && Told(c, l, f)
    ensures Reaches(ms, acts', c') && Only(acts, acts', {f}) && Elsewhere(c, c', {f}) && Knows(c', l, f)
  {
    if c.nodes[f].log.committed >= c.nodes[l].log.committed {
      acts', c' := acts, c;
    } else {
      assert Waits(c, l, f);
      var r := StartServing(ms, acts, c, l, f);
      ShapeAt(ms, acts, c, f);
      AtTheEnd(ms, c, l, f, r);
      var a;
      c', a := Delivered(ms, acts, c, l, f, r);
      acts' := acts + [Receive(r)];
    }
  }

  lemma AtTheEnd(ms: set<int>, c: Cluster, l: int, f: int, r: Message)
    requires Serving(ms, c, l, f, r) && Caught(c, l, f) && Common(c, l, f, 0) && c.nodes[f].log.offset == 0
    ensures r.to == f && HasTerm(c.nodes[f].log, r.index, r.logTerm)
  {
    assert CarriesRest(c.nodes[l].log, r);
  }

  lemma StillCaught(c: Cluster, c': Cluster, l: int, f: int, i: int)
    requires Elsewhere(c, c', {f}) && f != l && i != f && Caught(c, l, i) && Told(c, l, i)
    ensures Caught(c', l, i) && Told(c', l, i)
  {
    if r :| r in c.net && Serves(c.nodes[l], i, c.nodes[l].prs[i].next, r) {
      assert r in c'.net && Serves(c'.nodes[l], i, c'.nodes[l].prs[i].next, r);
    }
  }

  lemma OneLess(ms: set<int>, c: Cluster, c': Cluster, l: int, f: int, who: set<int>)
    requires Driving(ms, c, l, {}, who) && f in who && Elsewhere(c, c', {f})
    ensures Driving(ms, c', l, {}, who - {f}) && l !in who && |who - {f}| < |who|
  {
    assert l in who ==> Caught(c, l, l);
    assert Caught(c, l, f);
    forall i | i in who - {f} ensures i != l && Caught(c', l, i) && Told(c', l, i) {
      assert Caught(c, l, i);
      StillCaught(c, c', l, f, i);
    }
  }

  lemma {:induction false} TellAll(ms: set<int>, acts: seq<Action>, c: Cluster, l: int, who: set<int>)
      returns (acts': seq<Action>, c': Cluster)
    requires Reaches(ms, acts, c) && Driving(ms, c, l, {}, who)
    ensures Reaches(ms, acts', c') && Only(acts, acts', who) && Elsewhere(c, c', who)
    ensures forall f {:trigger Knows(c', l, f)} :: f in who ==> Knows(c', l, f)
    decreases |who|
  {
    if who == {} {
      acts', c' := acts, c;
    } else {
      var f := Member(who);
      assert Caught(c, l, f);
      var acts1, c1 := Tell(ms, acts, c, l, f);
      OneLess(ms, c, c1, l, f, who);
      acts', c' := TellAll(ms, acts1, c1, l, who - {f});
      OnlyThen(acts, acts1, acts', {f}, who - {f});
      assert {f} + (who - {f}) == who;
      KnowAll(c1, c', l, f, who);
    }
  }

  lemma KnowAll(c: Cluster, c': Cluster, l: int, f: int, who: set<int>)
    requires f in who && l in c.nodes && l !in who && Knows(c, l, f) && Elsewhere(c, c', who - {f})
    requires forall i {:trigger Knows(c', l, i)} :: i in who - {f} ==> Knows(c', l, i)
    ensures forall i {:trigger Knows(c', l, i)} :: i in who ==> Knows(c', l, i)
  {
  }

  // ---- Committing a proposal ----

  predicate Majority(maj: set<int>, ms: set<int>) { maj <= ms && 2 * |maj| > |ms| }

  // What all of a majority have, and nothing beyond, is the largest that most have.
  lemma CommonOfMajority(prs: map<int, Progress>, maj: set<int>, v: int, q: int)
    requires Majority(maj, prs.Keys) && (forall i :: i in maj ==> prs[i].matched == v) && LargestCommon(prs, q)
    ensures q == v
  {
    assert |prs| == |prs.Keys|;
    var at := set i | i in prs && prs[i].matched >= v;
    var beyond := set i | i in prs && prs[i].matched >= q;
    forall i | i in maj ensures i in at && (q > v ==> i !in beyond) {
      assert i in prs.Keys;
    }
    SubsetSize(maj, at);
    assert MostHave(prs, v);
    if q > v {
      SubsetSize(maj + beyond, prs.Keys);
    }
  }

  // The leader after it took a proposal.
  ghost predicate TookProposal(n: Node, e: Entry, n': Node, out: set<Message>) {
    && n'.id == n.id && n'.role == Leader && n'.term == n.term && n'.prs.Keys == n.prs.Keys && n.id in n'.prs
    && n'.log.ents == n.log.ents + [e.(term := n.term, index := |n.log.ents|)]
    && n'.prs[n.id] == Progress(|n.log.ents|, |n.log.ents| + 1)
    && CommitsCommon(n.log.committed, n') && n'.log.committed >= n.log.committed && ServesAll(n', out)
  }

  lemma ProposalAt(n: Node, m: Message, e: Entry) returns (n': Node, out: set<Message>)
    requires n.role == Leader && n.id in n.prs && n.log.offset == 0 && InLog(n.log) && n.term >= 0
    requires forall i :: i in n.prs ==> n.prs[i].next >= 1
    requires m.typ == MSG_PROP && m.term == 0 && m.entries == [e] && !(e.typ == ENTRY_CONF_CHANGE && n.pendingConf)
    ensures Step(n, m) == Done(n', out) && TookProposal(n, e, n', out)
  {
    assert CanServeAll(n);
    ProposalTaken(n, m, e);
    n', out := Step(n, m).node, Step(n, m).out;
  }

  lemma Proposed(ms: set<int>, acts: seq<Action>, c: Cluster, l: int, e: Entry, rest: set<int>)
      returns (c': Cluster)
    requires Reaches(ms, acts, c) && l in c.nodes && c.nodes[l].role == Leader
    requires !(e.typ == ENTRY_CONF_CHANGE && c.nodes[l].pendingConf) && rest <= ms && l !in rest
    requires forall f :: f in rest && f in c.nodes ==> c.nodes[f].term <= c.nodes[l].term
    ensures Reaches(ms, acts + [Propose(l, e)], c') && Driving(ms, c', l, rest, {}) && Elsewhere(c, c', {l})
    ensures var n, n' := c.nodes[l], c'.nodes[l];
            && n'.term == n.term && n'.log.ents == n.log.ents + [e.(term := n.term, index := |n.log.ents|)]
            && CommitsCommon(n.log.committed, n') && n.log.committed <= n'.log.committed
  {
    ShapeAt(ms, acts, c, l);
    var n', out := ProposalAt(c.nodes[l], Input(Propose(l, e)), e);
    c' := Act(ms, acts, c, Propose(l, e), l, n', out);
    AllSent(c', l, n', out);
    forall f | f in rest ensures Waits(c', l, f) && Sent(c', l, f) {
    }
  }

  // All of maj are caught up, so the leader has committed its whole log.
  lemma AllCommitted(ms: set<int>, c: Cluster, l: int, maj: set<int>, k: int)
    requires Driving(ms, c, l, {}, maj - {l}) && l in maj && Majority(maj, ms) && NodeShape(ms, l, c.nodes[l])
    requires CommitsCommon(k, c.nodes[l]) && k <= c.nodes[l].log.committed
    ensures c.nodes[l].log.committed == |c.nodes[l].log.ents| - 1
  {
    var n := c.nodes[l];
    var last := |n.log.ents| - 1;
    var q :| LargestCommon(n.prs, q) && n.log.committed == if q > k && HasTerm(n.log, q, n.term) then q else k;
    forall i | i in maj ensures i in n.prs && n.prs[i].matched == last {
      assert i != l ==> Caught(c, l, i);
    }
    CommonOfMajority(n.prs, maj, last, q);
  }

  // All of maj have the log s, committed to its end.
  ghost predicate AllHave(c: Cluster, maj: set<int>, s: seq<Entry>) {
    forall f {:trigger Has(c, f, s)} :: f in maj ==> Has(c, f, s)
  }

  predicate Has(c: Cluster, f: int, s: seq<Entry>) {
    f in c.nodes && c.nodes[f].log.ents == s && c.nodes[f].log.committed == |s| - 1
  }

  lemma AllHaveNow(ms: set<int>, acts: seq<Action>, c: Cluster, l: int, maj: set<int>, s: seq<Entry>)
    requires Reaches(ms, acts, c) && l in c.nodes && c.nodes[l].log.ents == s && c.nodes[l].log.committed == |s| - 1
    requires forall f {:trigger Knows(c, l, f)} :: f in maj - {l} ==> Knows(c, l, f)
    ensures AllHave(c, maj, s)
  {
    forall f | f in maj ensures Has(c, f, s) {
      if f != l {
        assert Knows(c, l, f);
        ShapeAt(ms, acts, c, f);
      }
    }
  }

  // The log with the entry proposed at a leader of term t.
  function With(s: seq<Entry>, t: int, e: Entry): seq<Entry> { s + [e.(term := t, index := |s|)] }

  /** A leader that none of a majority is ahead of can commit what is proposed to it, with the
      help of that majority alone: there is a way on after which all of them have its log with
      the new entry, and know it to be committed. */
  lemma ProposalCommits(ms: set<int>, acts: seq<Action>, c: Cluster, l: int, e: Entry, maj: set<int>)
      returns (acts': seq<Action>, c': Cluster)
    requires Reaches(ms, acts, c) && l in c.nodes && c.nodes[l].role == Leader
    requires !(e.typ == ENTRY_CONF_CHANGE && c.nodes[l].pendingConf)
    requires Majority(maj, ms) && l in maj
    requires forall f :: f in maj && f in c.nodes ==> c.nodes[f].term <= c.nodes[l].term
    ensures Reaches(ms, acts', c') && Only(acts, acts', maj)
    ensures AllHave(c', maj, With(c.nodes[l].log.ents, c.nodes[l].term, e))
  {
    var c1 := Proposed(ms, acts, c, l, e, maj - {l});
    var acts1 := acts + [Propose(l, e)];
    acts', c' := Finish(ms, acts1, c1, l, maj, c.nodes[l].log.committed);
    OnlyAfter(acts, Propose(l, e), acts', maj);
  }

  lemma Finish(ms: set<int>, acts: seq<Action>, c: Cluster, l: int, maj: set<int>, k: int)
      returns (acts': seq<Action>, c': Cluster)
    requires Reaches(ms, acts, c) && Driving(ms, c, l, maj - {l}, {}) && Majority(maj, ms) && l in maj
    requires CommitsCommon(k, c.nodes[l]) && k <= c.nodes[l].log.committed
    ensures Reaches(ms, acts', c') && Only(acts, acts', maj) && AllHave(c', maj, c.nodes[l].log.ents)
  {
    var rest := maj - {l};
    var acts1, c1, k1 := ServeAll(ms, acts, c, l, rest, {}, k);
    assert {} + rest == rest;
    ShapeAt(ms, acts1, c1, l);
    AllCommitted(ms, c1, l, maj, k1);
    acts', c' := TellAll(ms, acts1, c1, l, rest);
    OnlyThen(acts, acts1, acts', {l} + rest, rest);
    assert {l} + rest + rest == maj;
    assert c'.nodes[l] == c1.nodes[l];
    AllHaveNow(ms, acts', c', l, maj, c.nodes[l].log.ents);
  }
}
