/** A server over its node and its storage: the run loop of the node hands over a Ready, the
    server saves it, applies what is committed and now and then takes a snapshot. */
module ServerModel {
  import opened Collections
  import opened RaftTypes
  import opened RaftLogModel
  import opened RaftNodeModel
  import opened RaftCodec
  import opened NodeSteps
  import W = WalModel
  import opened WalHistory

  // The part of a Ready that is stored or applied; messages and soft state go elsewhere.
  datatype Ready = Ready(hard: HardState, entries: seq<Entry>, snapshot: Snapshot, committed: seq<Entry>)

  function HardOf(n: Node): HardState { HardState(n.term, n.vote, n.commit) }

  function NewReady(n: Node, prevHard: HardState, prevSnapi: int): Ready {
    Ready(
      if HardOf(n) != prevHard then HardOf(n) else EMPTY_HARD_STATE,
      n.log.UnstableEnts(),
      if prevSnapi != n.log.snapshot.index then n.log.snapshot else EMPTY_SNAPSHOT,
      n.log.NextEnts())
  }

  // pending: the server is inside snapshot(), holding the saved store, and the node has not
  // compacted yet. No Ready is taken meanwhile, but the node goes on handling messages.
  datatype Server = Server(
    node: Node, prevHard: HardState, prevSnapi: int,
    hist: Journal, snap: Snapshot,
    delivered: seq<Entry>, appliedi: int, snapi: int, pending: Option<Bytes>)

  // Serializes the store that applying a list of entries to the empty store gives.
  type SaveStore = seq<Entry> -> Bytes

  datatype Event =
    | Handle(m: Message)
    | TakeReady
    | Compact(nodes: seq<int>)
    | Crash(peers: set<int>)      // the server stops and starts again, once something was saved

  function Start(id: int, peers: set<int>): Server {
    Server(NewRaft(id, peers), EMPTY_HARD_STATE, 0, NEW_JOURNAL, EMPTY_SNAPSHOT, [], 0, 0, Nothing)
  }

  // 64-bit numbers are enough for what is saved.
  ghost predicate Representable(rd: Ready) {
    HardStateFits(rd.hard) && W.AllSavable(rd.entries)
  }

  // Entries are saved one by one; each must land inside the saved log or right behind it.
  ghost predicate CanPut(h: Journal, es: seq<Entry>)
    decreases |es|
  {
    es == [] ||
    (EntryFits(es[0]) && 0 <= es[0].index <= |h.log| && h.wal.files != [] &&
     CanPut(Apply(0, h, PutEntry(es[0])), es[1..]))
  }

  ghost function PutAll(h: Journal, es: seq<Entry>): Journal
    requires CanPut(h, es)
    decreases |es|
  {
    if es == [] then h else PutAll(Apply(0, h, PutEntry(es[0])), es[1..])
  }

  // Storage.Save(rd.HardState, rd.Entries)
  ghost predicate CanSave(h: Journal, rd: Ready) {
    HardStateFits(rd.hard) && h.wal.files != [] && CanPut(Apply(0, h, PutState(rd.hard)), rd.entries)
  }

  ghost function SaveReady(h: Journal, rd: Ready): Journal
    requires CanSave(h, rd)
  {
    PutAll(Apply(0, h, PutState(rd.hard)), rd.entries)
  }

  // The server's loop body for one Ready, and what the node resets when it is delivered.
  ghost function Taken(save: SaveStore, snapCount: int, s: Server): Server {
    var rd := NewReady(s.node, s.prevHard, s.prevSnapi);
    var delivered := s.delivered + rd.committed;
    var appliedi := if rd.committed == [] then s.appliedi else rd.committed[|rd.committed| - 1].index;
    var snapi := Max(s.snapi, rd.snapshot.index);
    var full := appliedi - snapi > snapCount;
    Server(
      HandOver(s.node),
      if rd.hard != EMPTY_HARD_STATE then rd.hard else s.prevHard,
      if rd.snapshot.index != 0 then rd.snapshot.index else s.prevSnapi,
      if CanSave(s.hist, rd) then SaveReady(s.hist, rd) else s.hist,
      if rd.snapshot.index != 0 then rd.snapshot else s.snap,
      delivered, appliedi,
      if full then appliedi else snapi,
      if full then Just(save(delivered)) else Nothing)
  }

  // raft.compact with the data handed over, then Storage.Cut.
  ghost function Compacted(s: Server, nodes: seq<int>): Server
    requires s.pending.Just?
  {
    s.(node := CompactNode(s.node, s.pending.value, nodes),
       hist := if s.hist.wal.files != [] then Apply(0, s.hist, CutFile) else s.hist,
       pending := Nothing)
  }

  // What is read from the log when the latest snapshot saved stands at ri.
  ghost function ReadBack(h: Journal, ri: int): W.ReadResult {
    var k := W.SearchIndex(h.wal.files, ri);
    if k < 0 then W.ReadFailed(W.IndexNotFound) else W.ReadAll(h.wal.files, k, ri)
  }

  // Starting again: the store from the latest snapshot saved, the node from that snapshot and
  // the log. The loop counts what it applies and where it last compacted from 0 on.
  ghost function Recovered(s: Server, peers: set<int>): Server {
    var ri := s.snap.index;
    var res := ReadBack(s.hist, ri);
    if !res.Reading? || !(0 <= ri <= |s.delivered|) then s
    else
      var from := if ri == 0 then Nothing else Just(s.snap);
      var n := RestartNode(s.node.id, peers, from, res.r.state, res.r.ents);
      Server(n, HardOf(n), n.log.snapshot.index, s.hist, s.snap, s.delivered[..ri], 0, 0, Nothing)
  }

  ghost predicate Enabled(s: Server, v: Event) {
    match v
    case Handle(m) => Deliverable(m) && Step(s.node, m).Done?
    case TakeReady => s.pending == Nothing && Representable(NewReady(s.node, s.prevHard, s.prevSnapi))
    case Compact(_) => s.pending.Just?
    case Crash(_) => s.hist.log != []
  }

  ghost function Next(save: SaveStore, snapCount: int, s: Server, v: Event): Server
    requires Enabled(s, v)
  {
    match v
    case Handle(m) => s.(node := Step(s.node, m).node)
    case TakeReady => Taken(save, snapCount, s)
    case Compact(nodes) => Compacted(s, nodes)
    case Crash(peers) => Recovered(s, peers)
  }

  // ---- What every run keeps ----

  // Slot k of the node's log is the k-th saved entry.
  ghost predicate Saved(s: Server, k: int) {
    && s.node.log.offset <= k <= s.node.log.LastIndex() && 0 <= k < |s.hist.log|
    && s.node.log.ents[k - s.node.log.offset] == s.hist.log[k]
  }

  ghost predicate LogSaved(s: Server) {
    var log := s.node.log;
    && (forall k {:trigger Saved(s, k)} :: log.offset <= k < log.unstable ==> Saved(s, k))
    && (log.unstable == log.LastIndex() + 1 ==> |s.hist.log| == log.LastIndex() + 1)
    && (log.applied == 0 || log.applied < log.unstable)
    && (s.hist.state.commit == 0 || s.hist.state.commit < log.unstable)
    && (forall k :: 0 <= k < |s.hist.log| ==> s.hist.log[k].index == k)
  }

  // Entry k + 1 was delivered as the k-th, and is saved.
  ghost predicate DeliveredAt(s: Server, k: int) {
    0 <= k < |s.delivered| && k + 1 < |s.hist.log| && s.delivered[k] == s.hist.log[k + 1] &&
      s.delivered[k].index == k + 1
  }

  ghost predicate InOrder(s: Server) {
    && |s.delivered| == s.node.log.applied && (s.appliedi == |s.delivered| || s.appliedi == 0)
    && (forall k {:trigger DeliveredAt(s, k)} :: 0 <= k < |s.delivered| ==> DeliveredAt(s, k))
  }

  // A snapshot holds the store after exactly the entries up to its index.
  ghost predicate Holds(save: SaveStore, s: Server, snapshot: Snapshot) {
    0 <= snapshot.index <= |s.delivered| &&
    (snapshot.index > 0 ==> snapshot.data == save(s.delivered[..snapshot.index]))
  }

  ghost predicate Snapshots(save: SaveStore, s: Server) {
    && s.node.log.snapshot.index == s.node.log.offset
    && (s.node.log.offset == 0 ==> s.node.log.snapshot == EMPTY_SNAPSHOT)
    && s.prevSnapi == s.snap.index <= s.node.log.offset
    && (s.prevSnapi == s.node.log.offset ==> s.snap == s.node.log.snapshot)
    && 0 <= s.snapi <= s.appliedi
    && (s.node.log.offset <= s.snapi || s.appliedi == 0 || s.node.log.offset < s.appliedi)
    && (s.prevSnapi == s.node.log.offset || s.node.log.offset <= s.appliedi)
    && (s.snap.index == 0 ==> s.snap == EMPTY_SNAPSHOT)
    && Holds(save, s, s.node.log.snapshot) && Holds(save, s, s.snap)
    && (s.pending.Just? ==>
          s.pending.value == save(s.delivered) && s.node.log.offset < s.snapi == s.appliedi == |s.delivered|)
  }

  // The last state saved is in every file whose entries it commits.
  ghost predicate StateIn(s: Server, k: nat)
    requires k < |s.hist.wal.files|
  {
    s.hist.state.commit < s.hist.wal.files[k].index || HasState(W.RecordsFrom(s.hist.wal.files, k))
  }

  ghost predicate States(s: Server) {
    && s.prevHard == s.hist.state && s.prevHard.term <= s.node.term
    && (s.prevHard == EMPTY_HARD_STATE || s.prevHard.term >= 1)
    && s.node.log.applied <= s.hist.state.commit <= s.hist.wal.enti
    && s.hist.state.commit <= s.node.log.committed
    && (s.hist.state == EMPTY_HARD_STATE || HasState(W.RecordsFrom(s.hist.wal.files, 0)))
    && (forall k {:trigger StateIn(s, k)} :: 1 <= k < |s.hist.wal.files| ==> StateIn(s, k))
    && (forall k :: 1 <= k < |s.hist.wal.files| ==> s.hist.wal.files[k].index >= 1)
  }

  ghost predicate ServerOk(save: SaveStore, s: Server) {
    && Steady(s.node) && s.node.commit == s.node.log.committed
    && Consistent(0, s.hist)
    && LogSaved(s) && InOrder(s) && Snapshots(save, s) && States(s)
  }
}
