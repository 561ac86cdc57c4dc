/** The server object: one turn of its loop per Ready, over a Raft node and a write-ahead log
    that are updated in place. */
module EtcdServers {
  import opened Collections
  import opened RaftTypes
  import opened RaftLogModel
  import opened RaftNodeModel
  import opened RaftNodes
  import opened RaftCodec
  import NodeSteps
  import W = WalModel
  import opened WalHistory
  import opened Wals
  import opened ServerModel
  import opened ServerSafety

  class EtcdServer {
    const node: Raft
    const storage: Wal
    var prevHard: HardState       // what the node's loop handed over last
    var prevSnapi: int
    var snap: Snapshot            // the latest snapshot saved
    var delivered: seq<Entry>     // the entries applied to the store, in order
    var appliedi: int
    var snapi: int
    var pending: Option<Bytes>    // the store, saved for a compaction not yet made
    ghost var hist: Journal

    ghost function View(): Server
      reads this, node, node.raftLog
    {
      Server(node.View(), prevHard, prevSnapi, hist, snap, delivered, appliedi, snapi, pending)
    }

    ghost predicate Valid(save: SaveStore)
      reads this, node, node.raftLog, storage
    {
      ServerOk(save, View()) && storage.Appending() && storage.model == hist.wal
    }

    constructor (id: int, peers: set<int>, ghost save: SaveStore)
      requires id != NONE
      ensures Valid(save) && View() == Start(id, peers)
      ensures fresh(node) && fresh(node.raftLog) && fresh(storage)
    {
      node := new Raft(id, peers);
      storage := new Wal.Create();
      prevHard, prevSnapi, snap := EMPTY_HARD_STATE, 0, EMPTY_SNAPSHOT;
      delivered, appliedi, snapi, pending := [], 0, 0, Nothing;
      hist := NEW_JOURNAL;
      new;
      StartGood(save, id, peers);
    }

    // A server around a node and a log that were read back.
    constructor Around(node: Raft, storage: Wal, snap: Snapshot, applied: seq<Entry>, ghost hist: Journal)
      ensures this.node == node && this.storage == storage
      ensures var n := node.View();
              View() == Server(n, HardOf(n), n.log.snapshot.index, hist, snap, applied, 0, 0, Nothing)
    {
      this.node, this.storage, this.snap, delivered := node, storage, snap, applied;
      prevHard, prevSnapi := HardOf(node.View()), node.View().log.snapshot.index;
      appliedi, snapi, pending := 0, 0, Nothing;
      this.hist := hist;
    }

    /** A message, a tick or a proposal goes to the node. */
    method Handle(m: Message, ghost save: SaveStore) returns (e: Ending)
      requires Valid(save) && NodeSteps.Deliverable(m)
      modifies node, node.raftLog
      ensures e == Normal <==> Step(old(node.View()), m).Done?
      ensures e == Normal ==> Valid(save) && View() == old(View()).(node := Step(old(node.View()), m).node)
    {
      e := node.Step(m);
      if e == Normal {
        HandleGood(save, old(View()), m);
      }
    }

    /** A Ready: save, apply, and start a snapshot when enough was applied since the last. */
    method TakeReady(save: SaveStore, snapCount: nat)
      requires Valid(save) && Enabled(View(), Event.TakeReady)
      modifies this, node, node.raftLog, storage
      ensures Valid(save) && View() == Taken(save, snapCount, old(View()))
    {
      var rd := NewReady(node.View(), prevHard, prevSnapi);
      ghost var h := ReadySaved(save, View());
      ghost var after := TakenIs(save, snapCount, View(), rd, h);
      Process(rd, save, snapCount, h, after);
    }

    method Process(rd: Ready, save: SaveStore, snapCount: nat, ghost h: Journal, ghost after: Server)
      requires storage.Appending() && storage.model == hist.wal && Representable(rd) && pending == Nothing
      requires CanSave(hist, rd) && h == SaveReady(hist, rd) && Becomes(save, snapCount, View(), rd, h, after)
      modifies this, node`msgs, node.raftLog, storage
      ensures storage.Appending() && storage.model == hist.wal && View() == after
    {
      StoreReady(rd, h);
      ApplyReady(rd, save, snapCount);
      Delivered();
    }

    method StoreReady(rd: Ready, ghost h: Journal)
      requires storage.Appending() && storage.model == hist.wal && Representable(rd)
      requires CanSave(hist, rd) && h == SaveReady(hist, rd)
      modifies storage, this`hist, this`snap, this`prevSnapi, this`prevHard
      ensures storage.Appending() && storage.model == hist.wal && hist == h
      ensures snap == if rd.snapshot.index != 0 then rd.snapshot else old(snap)
      ensures prevSnapi == if rd.snapshot.index != 0 then rd.snapshot.index else old(prevSnapi)
      ensures prevHard == if rd.hard != EMPTY_HARD_STATE then rd.hard else old(prevHard)
    {
      SaveIsOps(hist, rd);
      storage.Save(rd.hard, rd.entries);
      hist := h;
      if rd.snapshot.index != 0 {
        snap := rd.snapshot;
        prevSnapi := rd.snapshot.index;
      }
      if rd.hard != EMPTY_HARD_STATE {
        prevHard := rd.hard;
      }
    }

    method ApplyReady(rd: Ready, save: SaveStore, snapCount: nat)
      requires pending == Nothing
      modifies this`delivered, this`appliedi, this`snapi, this`pending
      ensures delivered == old(delivered) + rd.committed
      ensures appliedi == if rd.committed == [] then old(appliedi) else rd.committed[|rd.committed| - 1].index
      ensures var reached := Max(old(snapi), rd.snapshot.index);
              var full := appliedi - reached > snapCount;
              && snapi == (if full then appliedi else reached)
              && pending == if full then Just(save(delivered)) else Nothing
    {
      ApplyAll(rd.committed);
      if rd.snapshot.index > snapi {
        snapi := rd.snapshot.index;
      }
      if appliedi - snapi > snapCount {
        pending := Just(save(delivered));
        snapi := appliedi;
      }
    }

    // What the node's loop resets once the Ready is delivered.
    method Delivered()
      modifies node`msgs, node.raftLog
      ensures node.View() == HandOver(old(node.View()))
    {
      node.raftLog.ResetNextEnts();
      node.raftLog.ResetUnstable();
      node.msgs := [];
    }

    // Applies committed entries one by one.
    method ApplyAll(es: seq<Entry>)
      modifies this`delivered, this`appliedi
      ensures delivered == old(delivered) + es
      ensures appliedi == if es == [] then old(appliedi) else es[|es| - 1].index
    {
      for i := 0 to |es|
        invariant delivered == old(delivered) + es[..i]
        invariant appliedi == if i == 0 then old(appliedi) else es[i - 1].index
      {
        CutAt(es, i);
        delivered := delivered + [es[i]];
        appliedi := es[i].index;
      }
      CutAt(es, |es|);
    }

    /** The node takes up the compaction; then the log is cut. */
    method Compact(save: SaveStore) returns (ghost nodes: seq<int>)
      requires Valid(save) && pending.Just?
      modifies this`pending, this`hist, node.raftLog, storage
      ensures Valid(save) && View() == Compacted(old(View()), nodes)
    {
      ghost var s := View();
      var panicked, ns := node.Compact(pending.value);
      nodes := ns;
      CompactedGood(save, s, nodes);
      storage.Cut();
      hist := Apply(0, hist, CutFile);
      pending := Nothing;
      assert View() == Compacted(s, nodes);
    }
  }

  /** startEtcd when there is a log already: the log is opened at the latest snapshot's index
      and read, and the node is made from both. s is the server that stopped, applied what its
      snapshot holds. Opening and reading succeed, whenever it stopped. */
  method Restart(id: int, peers: set<int>, disk: seq<DiskFile>, snap: Snapshot, applied: seq<Entry>,
                 ghost s: Server, ghost save: SaveStore) returns (e: EtcdServer)
    requires ServerOk(save, s) && s.hist.log != [] && id == s.node.id != NONE
    requires Stores(disk, s.hist.wal.files) && snap == s.snap
    requires 0 <= snap.index <= |s.delivered| && applied == s.delivered[..snap.index]
    ensures e.Valid(save) && e.View() == Recovered(s, peers)
    ensures fresh(e) && fresh(e.node) && fresh(e.node.raftLog) && fresh(e.storage)
  {
    ReadsWhatWasSaved(save, s);
    var w, r := ReadLog(disk, snap.index, s, save);
    var from := if snap.index == 0 then Nothing else Just(snap);
    var node := RaftNodes.RestartNode(id, peers, from, r.state, r.ents);
    e := new EtcdServer.Around(node, w, snap, applied, s.hist);
    RecoveredGood(save, s, peers);
  }

  method ReadLog(disk: seq<DiskFile>, index: int, ghost s: Server, ghost save: SaveStore) returns (w: Wal, r: W.Replay)
    requires ServerOk(save, s) && s.hist.log != [] && Stores(disk, s.hist.wal.files) && index == s.snap.index
    ensures fresh(w) && w.Appending() && w.model == s.hist.wal && ReadBack(s.hist, index) == W.Reading(r)
  {
    ghost var k := WholeLogRead(save, s);
    w := OpenAtIndex(disk, index, s.hist.wal.files);
    var res := w.ReadAll(k);
    r := res.r;
  }

  lemma WholeLogRead(save: SaveStore, s: Server) returns (k: nat)
    requires ServerOk(save, s) && s.hist.log != []
    ensures k < |s.hist.wal.files| && k == W.SearchIndex(s.hist.wal.files, s.snap.index)
    ensures W.ValidSeq(s.hist.wal.files[k..])
    ensures var res := W.ReadAll(s.hist.wal.files, k, s.snap.index);
            && res.Reading? && res == ReadBack(s.hist, s.snap.index)
            && s.hist.wal == W.Log(s.hist.wal.files, res.r.enti, res.r.crc)
  {
    ReadsWhatWasSaved(save, s);
    k := SearchFinds(0, s.hist, s.snap.index);
    ReadFromFile(0, s.hist, k, s.snap.index);
  }

  // The server after a Ready, field by field.
  ghost predicate Becomes(save: SaveStore, snapCount: nat, s: Server, rd: Ready, h: Journal, after: Server) {
    && after.node == HandOver(s.node) && after.hist == h
    && after.prevHard == (if rd.hard != EMPTY_HARD_STATE then rd.hard else s.prevHard)
    && after.prevSnapi == (if rd.snapshot.index != 0 then rd.snapshot.index else s.prevSnapi)
    && after.snap == (if rd.snapshot.index != 0 then rd.snapshot else s.snap)
    && after.delivered == s.delivered + rd.committed
    && after.appliedi == (if rd.committed == [] then s.appliedi else rd.committed[|rd.committed| - 1].index)
    && var reached := Max(s.snapi, rd.snapshot.index);
       var full := after.appliedi - reached > snapCount;
       && after.snapi == (if full then after.appliedi else reached)
       && after.pending == if full then Just(save(after.delivered)) else Nothing
  }

  lemma TakenIs(save: SaveStore, snapCount: nat, s: Server, rd: Ready, h: Journal) returns (after: Server)
    requires ServerOk(save, s) && Enabled(s, Event.TakeReady) && rd == NewReady(s.node, s.prevHard, s.prevSnapi)
    requires CanSave(s.hist, rd) && h == SaveReady(s.hist, rd)
    ensures after == Taken(save, snapCount, s) && ServerOk(save, after) && Becomes(save, snapCount, s, rd, h, after)
  {
    after := Taken(save, snapCount, s);
    TakenGood(save, snapCount, s);
  }

  lemma {:induction false} PutAllIsSave(h: Journal, es: seq<Entry>)
    requires CanPut(h, es) && h.wal.files != [] && forall k :: 0 <= k < |es| ==> EntryInts(es[k])
    ensures PutAll(h, es).wal == h.wal.SaveEntries(es)
    decreases |es|
  {
    if es != [] {
      PutAllIsSave(Apply(0, h, PutEntry(es[0])), es[1..]);
    }
  }

  lemma SaveIsOps(h: Journal, rd: Ready)
    requires CanSave(h, rd) && W.AllSavable(rd.entries)
    ensures forall k :: 0 <= k < |rd.entries| ==> EntryInts(rd.entries[k])
    ensures SaveReady(h, rd).wal == h.wal.Save(rd.hard, rd.entries)
  {
    forall k | 0 <= k < |rd.entries| ensures EntryInts(rd.entries[k]) {
      assert W.Savable(rd.entries[k]);
    }
    PutAllIsSave(Apply(0, h, PutState(rd.hard)), rd.entries);
  }
}
