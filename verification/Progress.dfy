/** What a cluster can always still do: from every reachable state, a majority that can talk to
    each other can elect the member whose log is farthest and commit what is proposed to it. */
module ClusterProgress {
  import opened Collections
  import opened RaftTypes
  import opened RaftNodeModel
  import opened Cluster
  import opened RaftInvariants
  import opened RaftSteps
  import opened RaftSafety
  import opened StepLaws
  import opened ConfSafety
  import opened Replication

  // ---- Winning an election ----

  function Request(c: Node, to: int): Message
    requires c.log.ents != []
  {
    Blank(MSG_VOTE, to).(from := c.id, term := c.term, index := c.log.offset + |c.log.ents| - 1,
                         logTerm := c.log.ents[|c.log.ents| - 1].term)
  }

  // The log of x is as far as that of v.
  predicate FarAs(c: Cluster, x: int, v: int) {
    && x in c.nodes && v in c.nodes && c.nodes[v].log.ents != [] && c.nodes[x].log.ents != []
    && AsFar(c.nodes[v].log, c.nodes[x].log.offset + |c.nodes[x].log.ents| - 1,
             c.nodes[x].log.ents[|c.nodes[x].log.ents| - 1].term)
  }

  // So it is, and v is free to vote in the term of x.
  predicate Supports(c: Cluster, x: int, v: int) {
    FarAs(c, x, v) && v != x && c.nodes[v].term < c.nodes[x].term
  }

  // The votes of a candidate that all of got have granted theirs.
  function Yes(got: set<int>): map<int, bool> { map i | i in got :: true }

  // x stands, the voters in got have granted, and everybody has been asked.
  ghost predicate Standing(ms: set<int>, c: Cluster, x: int, got: set<int>) {
    && c.nodes.Keys == ms && x in ms && x in got && got <= ms
    && c.nodes[x].id == x && c.nodes[x].role == Candidate && c.nodes[x].term >= 1 && c.nodes[x].prs.Keys == ms
    && c.nodes[x].votes == Yes(got) && InLog(c.nodes[x].log)
    && (forall i {:trigger Asked(c, x, i)} :: i in ms && i != x ==> Asked(c, x, i))
  }

  predicate Asked(c: Cluster, x: int, i: int) {
    x in c.nodes && c.nodes[x].log.ents != [] && Request(c.nodes[x], i) in c.net
  }

  // Only x and v have changed, and v not in its log; the term of v is now that of x.
  predicate Voted(c: Cluster, c': Cluster, x: int, v: int) {
    && Elsewhere(c, c', {x, v}) && x in c.nodes && v in c.nodes
    && c'.nodes[v].log == c.nodes[v].log && c'.nodes[v].term == c.nodes[x].term
  }

  lemma Grants(n: Node, m: Message) returns (r: Message, n': Node)
    requires m.typ == MSG_VOTE && m.term >= 1 && m.term > n.term && n.log.ents != [] && AsFar(n.log, m.index, m.logTerm)
    ensures r == GrantMsg(n.id, m.from, m.term) && Step(n, m) == Done(n', {r}) && n'.log == n.log && n'.term == m.term
  {
    r := VoteAnswered(n, m);
    n' := Step(n, m).node;
  }

  lemma Voting(ms: set<int>, acts: seq<Action>, c: Cluster, x: int, got: set<int>, v: int)
      returns (c': Cluster, n: Node, r: Message)
    requires Reaches(ms, acts, c) && Standing(ms, c, x, got) && Supports(c, x, v)
    ensures r == GrantMsg(v, x, c.nodes[x].term)
    ensures Reaches(ms, acts + [Receive(Request(c.nodes[x], v))], c') && c' == Put(c, v, n, {r})
    ensures n.log == c.nodes[v].log && n.term == c.nodes[x].term
  {
    ShapeAt(ms, acts, c, v);
    assert Asked(c, x, v);
    var m := Request(c.nodes[x], v);
    AskedFor(c, x, v, m);
    c', n, r := VotingOn(ms, acts, c, v, m);
  }

  lemma AskedFor(c: Cluster, x: int, v: int, m: Message)
    requires Supports(c, x, v) && m == Request(c.nodes[x], v)
    ensures m.typ == MSG_VOTE && m.to == v && m.from == c.nodes[x].id && m.term == c.nodes[x].term
    ensures AsFar(c.nodes[v].log, m.index, m.logTerm)
  {
  }

  lemma VotingOn(ms: set<int>, acts: seq<Action>, c: Cluster, v: int, m: Message)
      returns (c': Cluster, n: Node, r: Message)
    requires Reaches(ms, acts, c) && v in c.nodes && m.to == v && m in c.net && m.typ == MSG_VOTE && m.term >= 1
    requires m.term > c.nodes[v].term && c.nodes[v].log.ents != [] && AsFar(c.nodes[v].log, m.index, m.logTerm)
    ensures Reaches(ms, acts + [Receive(m)], c') && c' == Put(c, v, n, {r})
    ensures r == GrantMsg(c.nodes[v].id, m.from, m.term) && n.log == c.nodes[v].log && n.term == m.term
  {
    r, n := Grants(c.nodes[v], m);
    assert Input(Receive(m)) == m;
    c' := Act(ms, acts, c, Receive(m), v, n, {r});
  }

  // A grant is counted, and wins if it is the one that makes a majority.
  lemma GrantCounted(n: Node, m: Message, got: set<int>, v: int) returns (n': Node, out: set<Message>)
    requires n.role == Candidate && m == GrantMsg(v, n.id, n.term) && n.term >= 1 && v !in got && n.id in n.prs
    requires n.votes == Yes(got) && InLog(n.log) && !TwoOpenConfs(n.log)
    ensures Step(n, m) == Done(n', out)
    ensures |got| + 1 == |n.prs| / 2 + 1 ==> LeadsNow(n, n')
    ensures |got| + 1 != |n.prs| / 2 + 1 ==>
              n' == n.(votes := Yes(got + {v}), commit := n.log.committed) && out == {}
  {
    VoteCounted(n, m);
    GrantTallied(n, m, got, v);
    n', out := Step(n, m).node, Step(n, m).out;
  }

  lemma GrantTallied(n: Node, m: Message, got: set<int>, v: int)
    requires m == GrantMsg(v, n.id, n.term) && v !in got && n.votes == Yes(got)
    ensures var votes := Tally(n, m);
            && votes == Yes(got + {v})
            && |Voters(votes, true)| == |got| + 1 && |Voters(votes, false)| == 0
  {
    var votes := Tally(n, m);
    assert Voters(votes, true) == got + {v} && Voters(votes, false) == {};
  }

  lemma Tallied(ms: set<int>, acts: seq<Action>, c: Cluster, x: int, got: set<int>, v: int, m: Message)
      returns (c': Cluster)
    requires Reaches(ms, acts, c) && Standing(ms, c, x, got) && v !in got && !TwoOpenConfs(c.nodes[x].log)
    requires m == GrantMsg(v, x, c.nodes[x].term) && m in c.net && v in ms
    ensures Reaches(ms, acts + [Receive(m)], c') && Elsewhere(c, c', {x})
    ensures |got| == |ms| / 2 ==> LeadsNow(c.nodes[x], c'.nodes[x])
    ensures |got| != |ms| / 2 ==>
              && Standing(ms, c', x, got + {v})
              && c'.nodes[x].log == c.nodes[x].log && c'.nodes[x].term == c.nodes[x].term
  {
    var n := c.nodes[x];
    assert |n.prs| == |n.prs.Keys|;
    var n', out := GrantCounted(n, m, got, v);
    assert Input(Receive(m)) == m;
    c' := Act(ms, acts, c, Receive(m), x, n', out);
    if |got| != |ms| / 2 {
      StillStanding(ms, c, c', x, got, v);
    }
  }

  lemma StillStanding(ms: set<int>, c: Cluster, c': Cluster, x: int, got: set<int>, v: int)
    requires Standing(ms, c, x, got) && Elsewhere(c, c', {x}) && v in ms
    requires c'.nodes[x] == c.nodes[x].(votes := Yes(got + {v}), commit := c.nodes[x].log.committed)
    ensures Standing(ms, c', x, got + {v})
  {
    forall i | i in ms && i != x ensures Asked(c', x, i) {
      assert Asked(c, x, i);
    }
  }

  lemma StandingOn(ms: set<int>, c: Cluster, c': Cluster, x: int, got: set<int>)
    requires Standing(ms, c, x, got) && c'.nodes.Keys == c.nodes.Keys && c.net <= c'.net && c'.nodes[x] == c.nodes[x]
    ensures Standing(ms, c', x, got)
  {
    forall i | i in ms && i != x ensures Asked(c', x, i) {
      assert Asked(c, x, i);
    }
  }

  // One more vote for x.
  lemma CollectVote(ms: set<int>, acts: seq<Action>, c: Cluster, x: int, got: set<int>, v: int)
      returns (acts': seq<Action>, c': Cluster)
    requires Reaches(ms, acts, c) && Standing(ms, c, x, got) && Supports(c, x, v) && v !in got
    requires !TwoOpenConfs(c.nodes[x].log)
    ensures Reaches(ms, acts', c') && Only(acts, acts', {x, v}) && Voted(c, c', x, v)
    ensures |got| == |ms| / 2 ==> LeadsNow(c.nodes[x], c'.nodes[x])
    ensures |got| != |ms| / 2 ==>
              && Standing(ms, c', x, got + {v})
              && c'.nodes[x].log == c.nodes[x].log && c'.nodes[x].term == c.nodes[x].term
  {
    var c1, n, r := Voting(ms, acts, c, x, got, v);
    assert c1.nodes[x] == c.nodes[x];
    StandingOn(ms, c, c1, x, got);
    c' := Tallied(ms, acts + [Receive(Request(c.nodes[x], v))], c1, x, got, v, r);
    acts' := OnlyTwo(acts, Receive(Request(c.nodes[x], v)), Receive(r), {x, v});
  }

  // Those in maj can still make x their leader.
  ghost predicate Electing(ms: set<int>, c: Cluster, x: int, got: set<int>, maj: set<int>) {
    && Standing(ms, c, x, got) && got <= maj && Majority(maj, ms) && |got| <= |ms| / 2 && !TwoOpenConfs(c.nodes[x].log)
    && (forall v {:trigger Supports(c, x, v)} :: v in maj - got ==> Supports(c, x, v))
    && (forall v :: v in got ==> c.nodes[v].term <= c.nodes[x].term)
  }

  // x leads all of maj, whose logs are as before.
  ghost predicate Elected(c: Cluster, c': Cluster, x: int, maj: set<int>) {
    && c'.nodes.Keys == c.nodes.Keys && x in c.nodes && LeadsNow(c.nodes[x], c'.nodes[x])
    && forall v :: v in maj && v in c.nodes && v != x ==>
         c'.nodes[v].log == c.nodes[v].log && c'.nodes[v].term <= c'.nodes[x].term
  }

  lemma VoterLeft(ms: set<int>, got: set<int>, maj: set<int>) returns (v: int)
    requires got <= maj && Majority(maj, ms) && |got| <= |ms| / 2
    ensures v in maj - got && |got + {v}| == |got| + 1
  {
    if maj - got == {} {
      SubsetSize(maj, got);
    }
    v := Member(maj - got);
  }

  lemma ElectingOn(ms: set<int>, c: Cluster, c': Cluster, x: int, got: set<int>, maj: set<int>, v: int)
    requires Electing(ms, c, x, got, maj) && v in maj - got && |got| < |ms| / 2 && Voted(c, c', x, v)
    requires Standing(ms, c', x, got + {v}) && |got + {v}| == |got| + 1
    requires c'.nodes[x].log == c.nodes[x].log && c'.nodes[x].term == c.nodes[x].term
    ensures Electing(ms, c', x, got + {v}, maj)
  {
    forall i | i in maj - (got + {v}) ensures Supports(c', x, i) {
      assert Supports(c, x, i);
    }
  }

  lemma ElectedNow(ms: set<int>, c: Cluster, c': Cluster, x: int, got: set<int>, maj: set<int>, v: int)
    requires Electing(ms, c, x, got, maj) && v in maj - got && Voted(c, c', x, v) && v != x
    requires LeadsNow(c.nodes[x], c'.nodes[x])
    ensures Elected(c, c', x, maj)
  {
    forall i | i in maj && i in c.nodes && i != x
      ensures c'.nodes[i].log == c.nodes[i].log && c'.nodes[i].term <= c'.nodes[x].term {
      assert i !in got ==> Supports(c, x, i);
    }
  }

  lemma ElectedThen(c: Cluster, c1: Cluster, c2: Cluster, x: int, maj: set<int>, v: int)
    requires Voted(c, c1, x, v) && v != x && Elected(c1, c2, x, maj)
    requires var n, n1 := c.nodes[x], c1.nodes[x];
             n1.id == n.id && n1.log == n.log && n1.term == n.term && n1.prs.Keys == n.prs.Keys
    ensures Elected(c, c2, x, maj)
  {
    LeadsAnyway(c.nodes[x], c1.nodes[x], c2.nodes[x]);
  }

  lemma {:induction false} CollectAll(ms: set<int>, acts: seq<Action>, c: Cluster, x: int, got: set<int>, maj: set<int>)
      returns (acts': seq<Action>, c': Cluster)
    requires Reaches(ms, acts, c) && Electing(ms, c, x, got, maj)
    ensures Reaches(ms, acts', c') && Only(acts, acts', maj) && Elected(c, c', x, maj)
    decreases |ms| / 2 - |got|
  {
    var v := VoterLeft(ms, got, maj);
    assert Supports(c, x, v);
    var acts1, c1 := CollectVote(ms, acts, c, x, got, v);
    if |got| == |ms| / 2 {
      acts', c' := acts1, c1;
      ElectedNow(ms, c, c', x, got, maj, v);
    } else {
      ElectingOn(ms, c, c1, x, got, maj, v);
      acts', c' := CollectAll(ms, acts1, c1, x, got + {v}, maj);
      ElectedThen(c, c1, c', x, maj, v);
      OnlyThen(acts, acts1, acts', {x, v}, maj);
      assert {x, v} + maj == maj;
    }
  }

  // x has a log as far as that of every other member of maj, and is behind none in its term.
  ghost predicate Foremost(c: Cluster, x: int, maj: set<int>) {
    forall v {:trigger BehindOf(c, x, v)} :: v in maj && v != x ==> BehindOf(c, x, v)
  }

  predicate BehindOf(c: Cluster, x: int, v: int) {
    FarAs(c, x, v) && c.nodes[v].term <= c.nodes[x].term
  }

  // The same logs, and nobody outside who has changed.
  predicate SameLogs(c: Cluster, c': Cluster, who: set<int>) {
    Elsewhere(c, c', who) && forall i :: i in c.nodes ==> c'.nodes[i].log == c.nodes[i].log
  }

  lemma Stood(ms: set<int>, acts: seq<Action>, c: Cluster, x: int) returns (c': Cluster)
    requires Reaches(ms, acts, c) && x in c.nodes && c.nodes[x].role != Leader && |ms| >= 2
    ensures Reaches(ms, acts + [Hup(x)], c') && SameLogs(c, c', {x}) && Stands(c.nodes[x], c'.nodes[x])
    ensures forall i {:trigger Asked(c', x, i)} :: i in ms && i != x ==> Asked(c', x, i)
  {
    var n', out;
    c', n', out := HupFires(ms, acts, c, x);
    NowAsked(ms, c, c', x, n', out);
  }

  lemma HupFires(ms: set<int>, acts: seq<Action>, c: Cluster, x: int)
      returns (c': Cluster, n': Node, out: set<Message>)
    requires Reaches(ms, acts, c) && x in c.nodes && c.nodes[x].role != Leader && |ms| >= 2
    ensures Reaches(ms, acts + [Hup(x)], c') && c' == Put(c, x, n', out) && n'.id == x && n'.prs.Keys == ms
    ensures Stands(c.nodes[x], n') && n'.log.ents != [] && AsksAll(n', out)
  {
    ShapeAt(ms, acts, c, x);
    n', out := StoodAt(ms, c.nodes[x], Input(Hup(x)));
    c' := Act(ms, acts, c, Hup(x), x, n', out);
  }

  lemma NowAsked(ms: set<int>, c: Cluster, c': Cluster, x: int, n: Node, out: set<Message>)
    requires x in c.nodes && c' == Put(c, x, n, out) && n.id == x && n.prs.Keys == ms
    requires Stands(c.nodes[x], n) && n.log.ents != [] && AsksAll(n, out)
    ensures SameLogs(c, c', {x}) && c'.nodes[x] == n
    ensures forall i {:trigger Asked(c', x, i)} :: i in ms && i != x ==> Asked(c', x, i)
  {
    forall i | i in ms && i != x ensures Asked(c', x, i) {
      assert Request(n, i) in out;
    }
  }

  lemma StoodAt(ms: set<int>, n: Node, m: Message) returns (n': Node, out: set<Message>)
    requires m.typ == MSG_HUP && m.term == 0 && n.log.ents != [] && n.prs.Keys == ms && |ms| >= 2 && n.role != Leader
    ensures Step(n, m) == Done(n', out) && Stands(n, n') && AsksAll(n', out)
  {
    assert |n.prs| == |n.prs.Keys|;
    HupStands(n, m);
    n', out := Step(n, m).node, Step(n, m).out;
  }

  lemma StandsUp(ms: set<int>, acts: seq<Action>, c: Cluster, x: int, maj: set<int>) returns (c': Cluster)
    requires Reaches(ms, acts, c) && x in maj && x in c.nodes && c.nodes[x].role != Leader && |ms| >= 2
    requires Majority(maj, ms) && Foremost(c, x, maj) && !TwoOpenConfs(c.nodes[x].log)
    ensures Reaches(ms, acts + [Hup(x)], c') && Electing(ms, c', x, {x}, maj) && Elsewhere(c, c', {x})
    ensures Stands(c.nodes[x], c'.nodes[x])
  {
    ShapeAt(ms, acts, c, x);
    c' := Stood(ms, acts, c, x);
    NowElecting(ms, c, c', x, maj);
  }

  lemma NowElecting(ms: set<int>, c: Cluster, c': Cluster, x: int, maj: set<int>)
    requires x in c.nodes && NodeShape(ms, x, c.nodes[x]) && c.nodes.Keys == ms && x in maj && |ms| >= 2
    requires Majority(maj, ms) && Foremost(c, x, maj) && !TwoOpenConfs(c.nodes[x].log)
    requires SameLogs(c, c', {x}) && Stands(c.nodes[x], c'.nodes[x])
    requires forall i {:trigger Asked(c', x, i)} :: i in ms && i != x ==> Asked(c', x, i)
    ensures Electing(ms, c', x, {x}, maj)
  {
    assert c'.nodes[x].votes == Yes({x});
    forall v | v in maj - {x} ensures Supports(c', x, v) {
      assert BehindOf(c, x, v);
    }
  }

  /** A node that does not lead, whose log is as far as that of every member of a majority and
      whose term is no smaller than theirs, wins the election it stands for next, with the
      votes of that majority alone. */
  lemma ElectionWon(ms: set<int>, acts: seq<Action>, c: Cluster, x: int, maj: set<int>)
      returns (acts': seq<Action>, c': Cluster)
    requires Reaches(ms, acts, c) && x in maj && x in c.nodes && c.nodes[x].role != Leader
    requires Majority(maj, ms) && Foremost(c, x, maj)
    ensures Reaches(ms, acts', c') && Only(acts, acts', maj) && Wins(c, c', x, maj)
  {
    ShapeAt(ms, acts, c, x);
    AtMostOneOpen(ms, acts, x);
    if |ms| >= 2 {
      var c1 := StandsUp(ms, acts, c, x, maj);
      acts', c' := CollectAll(ms, acts + [Hup(x)], c1, x, {x}, maj);
      WinsThen(c, c1, c', x, maj);
    } else {
      acts', c' := WinsAlone(ms, acts, c, x, maj);
    }
    OnlyAfter(acts, Hup(x), acts', maj);
  }

  // x leads all of maj in the term after the one it was in.
  ghost predicate Wins(c: Cluster, c': Cluster, x: int, maj: set<int>) {
    && c'.nodes.Keys == c.nodes.Keys && x in c.nodes
    && LeadsNow(c.nodes[x].(term := c.nodes[x].term + 1), c'.nodes[x])
    && forall v :: v in maj && v in c.nodes ==> c'.nodes[v].term <= c'.nodes[x].term
  }

  lemma WinsThen(c: Cluster, c1: Cluster, c2: Cluster, x: int, maj: set<int>)
    requires x in c.nodes && x in c1.nodes && c1.nodes.Keys == c.nodes.Keys && Stands(c.nodes[x], c1.nodes[x])
    requires Elected(c1, c2, x, maj)
    ensures Wins(c, c2, x, maj)
  {
    LeadsAnyway(c.nodes[x].(term := c.nodes[x].term + 1), c1.nodes[x], c2.nodes[x]);
  }

  lemma WinsAlone(ms: set<int>, acts: seq<Action>, c: Cluster, x: int, maj: set<int>)
      returns (acts': seq<Action>, c': Cluster)
    requires Reaches(ms, acts, c) && x in maj && x in c.nodes && c.nodes[x].role != Leader && |ms| < 2 && maj <= ms
    requires !TwoOpenConfs(c.nodes[x].log)
    ensures acts' == acts + [Hup(x)] && Reaches(ms, acts', c') && Wins(c, c', x, maj)
  {
    ShapeAt(ms, acts, c, x);
    Lone(ms, x);
    acts' := acts + [Hup(x)];
    c' := HupAlone(ms, acts, c, x);
  }

  lemma HupAlone(ms: set<int>, acts: seq<Action>, c: Cluster, x: int) returns (c': Cluster)
    requires Reaches(ms, acts, c) && ms == {x} && x in c.nodes && c.nodes[x].role != Leader
    requires NodeShape(ms, x, c.nodes[x]) && !TwoOpenConfs(c.nodes[x].log)
    ensures Reaches(ms, acts + [Hup(x)], c') && c'.nodes.Keys == c.nodes.Keys && x in c'.nodes
    ensures LeadsNow(c.nodes[x].(term := c.nodes[x].term + 1), c'.nodes[x])
  {
    var n' := AloneAt(c.nodes[x], Input(Hup(x)));
    c' := Act(ms, acts, c, Hup(x), x, n', {});
  }

  lemma AloneAt(n: Node, m: Message) returns (n': Node)
    requires m.typ == MSG_HUP && m.term == 0 && n.role != Leader && n.prs.Keys == {n.id} && InLog(n.log) && n.term >= 0
    requires !TwoOpenConfs(n.log)
    ensures Step(n, m) == Done(n', {}) && LeadsNow(n.(term := n.term + 1), n')
  {
    HupWinsAlone(n, m);
    n' := Step(n, m).node;
  }

  lemma Lone(ms: set<int>, x: int)
    requires x in ms && |ms| < 2
    ensures ms == {x}
  {
    if ms != {x} {
      var y := Member(ms - {x});
      SubsetSize({x, y}, ms);
    }
  }

  // ---- From any state ----

  ghost predicate Farthest(c: Cluster, x: int, who: set<int>) {
    x in who && forall v {:trigger FarAs(c, x, v)} :: v in who ==> FarAs(c, x, v)
  }

  lemma {:induction false} SomeFarthest(c: Cluster, who: set<int>) returns (x: int)
    requires who != {} && forall v :: v in who ==> v in c.nodes && c.nodes[v].log.ents != []
    ensures Farthest(c, x, who)
    decreases |who|
  {
    var y := Member(who);
    if who == {y} {
      x := y;
    } else {
      x := SomeFarthest(c, who - {y});
      if !FarAs(c, x, y) {
        forall v | v in who ensures FarAs(c, y, v) {
          if v != y {
            assert FarAs(c, x, v);
          }
        }
        x := y;
      }
    }
  }

  lemma FarthestStays(c: Cluster, c': Cluster, x: int, maj: set<int>, who: set<int>)
    requires Farthest(c, x, maj) && SameLogs(c, c', who)
    ensures Farthest(c', x, maj)
  {
    forall v | v in maj ensures FarAs(c', x, v) {
      assert FarAs(c, x, v);
    }
  }

  // Standing again and again, a node gets to any term.
  lemma {:induction false} GetsTo(ms: set<int>, acts: seq<Action>, c: Cluster, x: int, t: int)
      returns (acts': seq<Action>, c': Cluster)
    requires Reaches(ms, acts, c) && x in c.nodes && c.nodes[x].role != Leader && |ms| >= 2
    ensures Reaches(ms, acts', c') && Only(acts, acts', {x}) && SameLogs(c, c', {x})
    ensures c'.nodes[x].role != Leader && c'.nodes[x].term >= t
    decreases t - c.nodes[x].term
  {
    if c.nodes[x].term >= t {
      acts', c' := acts, c;
    } else {
      var c1 := Stood(ms, acts, c, x);
      acts', c' := GetsTo(ms, acts + [Hup(x)], c1, x, t);
      OnlyAfter(acts, Hup(x), acts', {x});
    }
  }

  // A leader hears of a later term in which v stands.
  lemma StepsDown(ms: set<int>, acts: seq<Action>, c: Cluster, x: int, v: int)
      returns (acts': seq<Action>, c': Cluster)
    requires Reaches(ms, acts, c) && x in c.nodes && v in c.nodes && x != v && |ms| >= 2
    requires c.nodes[v].role != Leader && c.nodes[v].term > c.nodes[x].term
    ensures Reaches(ms, acts', c') && Only(acts, acts', {x, v}) && SameLogs(c, c', {x, v})
    ensures c'.nodes[x].role == Follower
  {
    ShapeAt(ms, acts, c, x);
    ShapeAt(ms, acts, c, v);
    var c1 := Stood(ms, acts, c, v);
    assert Asked(c1, v, x);
    var m := Request(c1.nodes[v], x);
    c' := Deposed(ms, acts + [Hup(v)], c1, x, m);
    acts' := OnlyTwo(acts, Hup(v), Receive(m), {x, v});
    SameLogsTwice(c, c1, c', v, x);
  }

  lemma SameLogsTwice(c: Cluster, c1: Cluster, c2: Cluster, v: int, x: int)
    requires SameLogs(c, c1, {v}) && SameLogs(c1, c2, {x})
    ensures SameLogs(c, c2, {x, v})
  {
  }

  lemma Deposed(ms: set<int>, acts: seq<Action>, c: Cluster, x: int, m: Message) returns (c': Cluster)
    requires Reaches(ms, acts, c) && x in c.nodes && m in c.net && m.to == x && m.typ == MSG_VOTE && m.term >= 1
    requires m.term > c.nodes[x].term && c.nodes[x].log.ents != []
    ensures Reaches(ms, acts + [Receive(m)], c') && SameLogs(c, c', {x}) && c'.nodes[x].role == Follower
  {
    var r, n := DeposedAt(c.nodes[x], m);
    assert Input(Receive(m)) == m;
    c' := Act(ms, acts, c, Receive(m), x, n, {r});
  }

  lemma DeposedAt(n: Node, m: Message) returns (r: Message, n': Node)
    requires m.typ == MSG_VOTE && m.term >= 1 && m.term > n.term && n.log.ents != []
    ensures Step(n, m) == Done(n', {r}) && n'.log == n.log && n'.role == Follower
  {
    r := VoteAnswered(n, m);
    n' := Step(n, m).node;
  }

  lemma {:induction false} TermBound(c: Cluster, who: set<int>) returns (t: int)
    requires who <= c.nodes.Keys
    ensures forall v :: v in who ==> c.nodes[v].term <= t
    decreases |who|
  {
    if who == {} {
      t := 0;
    } else {
      var y := Member(who);
      t := TermBound(c, who - {y});
      t := Max(t, c.nodes[y].term);
    }
  }

  // Who is in a later term than the one with the farthest log does not lead.
  lemma AheadIsNoLeader(ms: set<int>, acts: seq<Action>, c: Cluster, x: int, v: int)
    requires Reaches(ms, acts, c) && FarAs(c, x, v) && c.nodes[v].term > c.nodes[x].term
    ensures c.nodes[v].role != Leader
  {
    RunOwn(ms, acts, v);
    LastTermAt(ms, acts, c, x);
    OwnBehind(c.nodes[x], c.nodes[v]);
  }

  lemma OwnBehind(x: Node, v: Node)
    requires x.log.ents != [] && v.log.ents != [] && LeadsOwn(v) && v.term > x.term
    requires x.log.ents[|x.log.ents| - 1].term <= x.term
    requires AsFar(v.log, x.log.offset + |x.log.ents| - 1, x.log.ents[|x.log.ents| - 1].term)
    ensures v.role != Leader
  {
  }

  lemma LastTermAt(ms: set<int>, acts: seq<Action>, c: Cluster, x: int)
    requires Reaches(ms, acts, c) && x in c.nodes && c.nodes[x].log.ents != []
    ensures c.nodes[x].log.ents[|c.nodes[x].log.ents| - 1].term <= c.nodes[x].term
  {
    RunGood(ms, acts, false);
    LastTermBelow(ms, c, Hist(ms, acts), x);
  }

  lemma LastTermBelow(ms: set<int>, c: Cluster, h: History, x: int)
    requires Inv(ms, c, h) && x in c.nodes && c.nodes[x].log.ents != []
    ensures c.nodes[x].log.ents[|c.nodes[x].log.ents| - 1].term <= c.nodes[x].term
  {
    var s := c.nodes[x].log.ents;
    assert NodeShape(ms, x, c.nodes[x]) && Grounded(h, s, c.nodes[x].term);
    if |s| > 1 {
      assert EntryGrounded(h, s, |s| - 1, c.nodes[x].term);
    }
  }

  // Whoever has the farthest log of a majority ends up not leading, or leads it already.
  lemma FreeToStand(ms: set<int>, acts: seq<Action>, c: Cluster, x: int, maj: set<int>)
      returns (acts': seq<Action>, c': Cluster)
    requires Reaches(ms, acts, c) && Farthest(c, x, maj) && maj <= c.nodes.Keys
    ensures Reaches(ms, acts', c') && Only(acts, acts', maj) && SameLogs(c, c', maj)
    ensures c'.nodes[x].role != Leader || (c' == c && forall v :: v in maj ==> c.nodes[v].term <= c.nodes[x].term)
  {
    acts', c' := acts, c;
    if c.nodes[x].role == Leader {
      if v :| v in maj && c.nodes[v].term > c.nodes[x].term {
        assert FarAs(c, x, v);
        AheadIsNoLeader(ms, acts, c, x, v);
        ShapeAt(ms, acts, c, x);
        SubsetSize({x, v}, ms);
        acts', c' := StepsDown(ms, acts, c, x, v);
      }
    }
  }

  // Some member of the majority leads it, and the logs of the others are as before.
  lemma SomeLeader(ms: set<int>, acts: seq<Action>, c: Cluster, maj: set<int>)
      returns (acts': seq<Action>, c': Cluster, x: int)
    requires Reaches(ms, acts, c) && Majority(maj, ms)
    ensures Reaches(ms, acts', c') && Only(acts, acts', maj) && x in maj && x in c'.nodes && c'.nodes[x].role == Leader
    ensures forall v :: v in maj && v in c'.nodes ==> c'.nodes[v].term <= c'.nodes[x].term
  {
    x := SomeMember(ms, acts, c, maj);
    var acts1, c1 := FreeToStand(ms, acts, c, x, maj);
    if c1.nodes[x].role == Leader {
      acts', c' := acts1, c1;
    } else {
      FarthestStays(c, c1, x, maj, maj);
      var acts2, c2 := Catches(ms, acts1, c1, x, maj);
      acts', c' := ElectionWon(ms, acts2, c2, x, maj);
      OnlyThen(acts1, acts2, acts', maj, maj);
      OnlyThen(acts, acts1, acts', maj, maj);
      assert maj + maj == maj;
    }
  }

  lemma SomeMember(ms: set<int>, acts: seq<Action>, c: Cluster, maj: set<int>) returns (x: int)
    requires Reaches(ms, acts, c) && Majority(maj, ms)
    ensures Farthest(c, x, maj) && c.nodes.Keys == ms
  {
    ShapeOf(ms, acts);
    forall v | v in maj ensures v in c.nodes && c.nodes[v].log.ents != [] {
      assert NodeShape(ms, v, c.nodes[v]);
    }
    x := SomeFarthest(c, maj);
  }

  // x gets to a term that is no smaller than those of the others.
  lemma Catches(ms: set<int>, acts: seq<Action>, c: Cluster, x: int, maj: set<int>)
      returns (acts': seq<Action>, c': Cluster)
    requires Reaches(ms, acts, c) && Farthest(c, x, maj) && maj <= ms == c.nodes.Keys && c.nodes[x].role != Leader
    ensures Reaches(ms, acts', c') && Only(acts, acts', maj) && SameLogs(c, c', {x})
    ensures c'.nodes[x].role != Leader && Foremost(c', x, maj)
  {
    if |ms| < 2 {
      Lone(ms, x);
      acts', c' := acts, c;
    } else {
      var t := TermBound(c, maj);
      acts', c' := GetsTo(ms, acts, c, x, t);
      FarthestStays(c, c', x, maj, {x});
      forall v | v in maj && v != x ensures BehindOf(c', x, v) {
        assert FarAs(c', x, v);
      }
    }
  }

  /** From every state that a faithful run reaches, every majority can go on without the
      others: there is a way on, of actions of its members only, after which all of them have
      committed what is proposed. */
  lemma MajorityServes(ms: set<int>, acts: seq<Action>, maj: set<int>, e: Entry)
      returns (acts': seq<Action>, s: seq<Entry>)
    requires IsRun(ms, acts) && FaithfulRun(ms, acts) && Majority(maj, ms) && e.typ != ENTRY_CONF_CHANGE
    ensures IsRun(ms, acts') && FaithfulRun(ms, acts') && Only(acts, acts', maj) && AllHave(After(ms, acts'), maj, s)
    ensures s != [] && var last := s[|s| - 1]; last == e.(term := last.term, index := |s| - 1)
  {
    var acts1, c1, x := SomeLeader(ms, acts, After(ms, acts), maj);
    var c';
    acts', c' := ProposalCommits(ms, acts1, c1, x, e, maj);
    s := With(c1.nodes[x].log.ents, c1.nodes[x].term, e);
    OnlyThen(acts, acts1, acts', maj, maj);
    assert maj + maj == maj;
  }
}
