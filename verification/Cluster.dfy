/** A fixed set of Raft nodes joined by a network that may lose, duplicate and
    reorder messages: the network is the set of all messages ever sent, and a
    message in it may be delivered any number of times, at any moment, or never.
    A call that panics stops its node, so it is no step of a run.

    Nodes may stop and start again from what they have saved, which here is all they have:
    steps that were not saved were not seen by anybody, and count as not taken. Logs are kept
    whole; that a node has dropped entries shows only in its refusing an append message that
    begins before them. */
module Cluster {
  import opened Collections
  import opened RaftTypes
  import opened RaftNodeModel

  datatype Cluster = Cluster(nodes: map<int, Node>, net: set<Message>)

  datatype Action =
    | Hup(id: int)                    // the election timer of a node fires
    | Beat(id: int)                   // the heartbeat timer of a node fires
    | Propose(id: int, entry: Entry)  // a client proposes an entry at a node
    | Receive(m: Message)             // a message reaches its recipient
    | Refuse(m: Message)              // so does an append message that begins before the recipient's log
    | Restart(id: int)                // a node stops and starts again

  predicate ValidMembers(ms: set<int>) { ms != {} && NONE !in ms }

  function Start(ms: set<int>): Cluster {
    Cluster(map i | i in ms :: NewRaft(i, ms), {})
  }

  function Actor(a: Action): int {
    match a
    case Hup(i) => i
    case Beat(i) => i
    case Propose(i, _) => i
    case Receive(m) => m.to
    case Refuse(m) => m.to
    case Restart(i) => i
  }

  // What Step is called with. Every proposal passes through the node's own
  // proposal channel, which stamps it with the node's id.
  function Input(a: Action): Message {
    match a
    case Hup(i) => Blank(MSG_HUP, NONE).(from := i)
    case Beat(i) => Blank(MSG_BEAT, NONE).(from := i)
    case Propose(i, e) => Blank(MSG_PROP, NONE).(from := i, entries := [e])
    case Receive(m) => if m.typ == MSG_PROP then m.(from := m.to) else m
    case Refuse(m) => m
    case Restart(i) => Blank(MSG_BEAT, NONE).(from := i)
  }

  // An append message at a node that no longer has the entry before it.
  function RefuseAppend(n: Node, m: Message): Outcome {
    var denial := Blank(MSG_APP_RESP, m.from).(denied := true);
    match n.role
    case Leader => Quiet(n)
    case Candidate => Reply(BecomeFollower(n, n.term, m.from), denial)
    case Follower => Reply(n.(lead := m.from), denial)
  }

  function RefuseStep(n: Node, m: Message): Outcome {
    Recorded(if Stale(n, m) then Quiet(n) else RefuseAppend(Observe(n, m), m))
  }

  // The node made from the saved state and the saved log.
  function Restarted(n: Node): Node {
    RestartNode(n.id, n.prs.Keys, Nothing, HardState(n.term, n.vote, n.log.committed), n.log.ents)
  }

  ghost function Respond(n: Node, a: Action): Outcome {
    match a
    case Refuse(m) => RefuseStep(n, m)
    case Restart(_) => Quiet(Restarted(n))
    case _ => Step(n, Input(a))
  }

  ghost function Response(c: Cluster, a: Action): Outcome
    requires Actor(a) in c.nodes
  {
    Respond(c.nodes[Actor(a)], a)
  }

  ghost predicate Enabled(c: Cluster, a: Action) {
    && Actor(a) in c.nodes
    && (a.Receive? || a.Refuse? ==> a.m in c.net)
    && (a.Refuse? ==> a.m.typ == MSG_APP && a.m.index < c.nodes[a.m.to].log.committed)
    && Response(c, a).Done?
  }

  // Node i becomes n and the messages in out are sent.
  function Put(c: Cluster, i: int, n: Node, out: set<Message>): Cluster {
    Cluster(c.nodes[i := n], c.net + out)
  }

  ghost function Next(c: Cluster, a: Action): Cluster
    requires Enabled(c, a)
  {
    Put(c, Actor(a), Response(c, a).node, Response(c, a).out)
  }

  // ---- Runs ----

  // The cluster after the actions, if all of them can be taken in turn.
  ghost function Exec(ms: set<int>, acts: seq<Action>): Option<Cluster> {
    if acts == [] then Just(Start(ms))
    else
      var before := Exec(ms, acts[..|acts| - 1]);
      var a := acts[|acts| - 1];
      if before.Just? && Enabled(before.value, a) then Just(Next(before.value, a)) else Nothing
  }

  ghost predicate IsRun(ms: set<int>, acts: seq<Action>) {
    ValidMembers(ms) && Exec(ms, acts).Just?
  }

  ghost function After(ms: set<int>, acts: seq<Action>): Cluster
    requires IsRun(ms, acts)
  {
    Exec(ms, acts).value
  }

  lemma {:induction false} RunPrefix(ms: set<int>, acts: seq<Action>, k: nat)
    requires IsRun(ms, acts) && k <= |acts|
    ensures IsRun(ms, acts[..k])
    decreases |acts|
  {
    if k == |acts| {
      assert acts[..k] == acts;
    } else {
      RunPrefix(ms, acts[..|acts| - 1], k);
      assert acts[..|acts| - 1][..k] == acts[..k];
    }
  }

  // ---- What happened in a run ----

  /** For every term in which a leader was elected: who it was, its log as of its
      last step as leader of that term, and who voted it in. */
  datatype History = History(leader: map<int, int>, llog: map<int, seq<Entry>>, voters: map<int, set<int>>)

  const NO_HISTORY: History := History(map[], map[], map[])

  // The voters a node that wins by handling m counts; a lone node counts itself.
  function Electors(n: Node, m: Message): set<int> {
    if m.typ == MSG_VOTE_RESP then Granted(Poll(n.votes, m.from, !m.denied)) else {n.id}
  }

  function Elect(h: History, term: int, id: int, log: seq<Entry>, voters: set<int>): History {
    History(h.leader[term := id], h.llog[term := log], h.voters[term := voters])
  }

  function Extend(h: History, term: int, log: seq<Entry>): History {
    h.(llog := h.llog[term := log])
  }

  // before handles m and becomes after.
  function Record(h: History, before: Node, m: Message, after: Node): History {
    if after.role != Leader then h
    else if before.role == Leader then Extend(h, after.term, after.log.ents)
    else Elect(h, after.term, after.id, after.log.ents, Electors(before, m))
  }

  ghost function Hist(ms: set<int>, acts: seq<Action>): History
    requires IsRun(ms, acts)
  {
    if acts == [] then NO_HISTORY
    else
      var before := acts[..|acts| - 1];
      var a := acts[|acts| - 1];
      Record(Hist(ms, before), After(ms, before).nodes[Actor(a)], Input(a), After(ms, acts).nodes[Actor(a)])
  }
}
