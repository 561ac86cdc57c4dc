/** Every run of a server from a fresh start, without snapshots from peers: entries are
    applied exactly once and in order, snapshots hold what was applied, and what is on disk
    after a Ready rebuilds the node. */
module ServerSafety {
  import opened Collections
  import opened RaftTypes
  import opened RaftLogModel
  import opened RaftNodeModel
  import opened RaftCodec
  import opened NodeSteps
  import W = WalModel
  import opened WalHistory
  import opened ServerModel

  lemma StartGood(save: SaveStore, id: int, peers: set<int>)
    requires id != NONE
    ensures ServerOk(save, Start(id, peers))
  {
    NewConsistent(0);
  }

  // ---- Handling a message ----

  lemma HandleGood(save: SaveStore, s: Server, m: Message)
    requires ServerOk(save, s) && Enabled(s, Handle(m))
    ensures ServerOk(save, s.(node := Step(s.node, m).node))
  {
    StepMoves(s.node, m);
    NodeMoved(save, s, Step(s.node, m).node);
  }

  lemma NodeMoved(save: SaveStore, s: Server, n: Node)
    requires ServerOk(save, s) && Moves(s.node, n) && n.commit == n.log.committed
    ensures ServerOk(save, s.(node := n))
  {
    var s' := s.(node := n);
    forall k | n.log.offset <= k < n.log.unstable ensures Saved(s', k) {
      assert Saved(s, k);
      assert Kept(s.node.log, n.log, k - n.log.offset);
    }
    forall k | 0 <= k < |s.delivered| ensures DeliveredAt(s', k) {
      assert DeliveredAt(s, k);
    }
    forall k: nat | 1 <= k < |s.hist.wal.files| ensures StateIn(s', k) {
      assert StateIn(s, k);
    }
  }

  // ---- Saving a Ready ----

  // The same files, with more in the last one.
  ghost predicate FilesGrow(h: Journal, h': Journal) {
    && |h'.wal.files| == |h.wal.files|
    && (forall k :: 0 <= k < |h.wal.files| ==> h'.wal.files[k].index == h.wal.files[k].index)
    && (forall k {:trigger W.RecordsFrom(h'.wal.files, k)} :: 0 <= k < |h.wal.files| ==>
          HasState(W.RecordsFrom(h.wal.files, k)) ==> HasState(W.RecordsFrom(h'.wal.files, k)))
  }

  lemma FilesGrowThen(a: Journal, b: Journal, c: Journal)
    requires FilesGrow(a, b) && FilesGrow(b, c)
    ensures FilesGrow(a, c)
  {
    forall k | 0 <= k < |a.wal.files| && HasState(W.RecordsFrom(a.wal.files, k))
      ensures HasState(W.RecordsFrom(c.wal.files, k)) {
      assert HasState(W.RecordsFrom(b.wal.files, k));
    }
  }

  lemma PutEntryGrows(h: Journal, e: Entry)
    requires Consistent(0, h) && Allowed(0, h, PutEntry(e))
    ensures var h' := Apply(0, h, PutEntry(e));
            Consistent(0, h') && FilesGrow(h, h') && h'.state == h.state
  {
    StepConsistent(0, h, PutEntry(e));
    var h' := Apply(0, h, PutEntry(e));
    forall k | 0 <= k < |h.wal.files|
      ensures |h'.wal.files| == |h.wal.files| && h'.wal.files[k].index == h.wal.files[k].index
      ensures HasState(W.RecordsFrom(h.wal.files, k)) ==> HasState(W.RecordsFrom(h'.wal.files, k)) {
      var rec := RecordWritten(h.wal, W.ENTRY_TYPE, Just(EncodeEntry(e)), k);
      HasStateOneMore(W.RecordsFrom(h.wal.files, k), rec);
    }
  }

  lemma PutStateGrows(h: Journal, st: HardState)
    requires Consistent(0, h) && HardStateFits(st)
    ensures var h' := Apply(0, h, PutState(st));
            && Consistent(0, h') && FilesGrow(h, h') && h'.log == h.log
            && (st != EMPTY_HARD_STATE ==>
                  forall k {:trigger W.RecordsFrom(h'.wal.files, k)} :: 0 <= k < |h.wal.files| ==>
                    HasState(W.RecordsFrom(h'.wal.files, k)))
  {
    StepConsistent(0, h, PutState(st));
    var h' := Apply(0, h, PutState(st));
    if st != EMPTY_HARD_STATE {
      forall k | 0 <= k < |h.wal.files|
        ensures |h'.wal.files| == |h.wal.files| && h'.wal.files[k].index == h.wal.files[k].index
        ensures HasState(W.RecordsFrom(h'.wal.files, k)) {
        var rec := RecordWritten(h.wal, W.STATE_TYPE, Just(EncodeHardState(st)), k);
        HasStateOneMore(W.RecordsFrom(h.wal.files, k), rec);
      }
      assert |h'.wal.files| == |h.wal.files|;
    }
  }

  lemma {:induction false} PutAllGrows(h: Journal, es: seq<Entry>, u: nat)
    requires Consistent(0, h) && u <= |h.log|
    requires forall k :: 0 <= k < |es| ==> EntryFits(es[k]) && es[k].index == u + k
    ensures CanPut(h, es)
    ensures var h' := PutAll(h, es);
            && Consistent(0, h') && FilesGrow(h, h') && h'.state == h.state
            && h'.log == if es == [] then h.log else h.log[..u] + es
    decreases |es|
  {
    if es != [] {
      assert EntryFits(es[0]);
      PutEntryGrows(h, es[0]);
      var h1 := Apply(0, h, PutEntry(es[0]));
      var rest := es[1..];
      forall k | 0 <= k < |rest| ensures EntryFits(rest[k]) && rest[k].index == u + 1 + k {
        assert rest[k] == es[k + 1];
      }
      PutAllGrows(h1, rest, u + 1);
      FilesGrowThen(h, h1, PutAll(h1, rest));
      MoveHead(h.log[..u], es);
      assert rest != [] ==> h1.log[..u + 1] == h1.log;
    }
  }

  lemma UnstableSlice(log: Log)
    requires log.Valid()
    ensures log.UnstableEnts() == if log.unstable <= log.LastIndex() then log.ents[log.unstable - log.offset..] else []
  {
  }

  lemma UnstableWithin(s: Server)
    requires Steady(s.node) && LogSaved(s)
    ensures 0 <= s.node.log.unstable <= |s.hist.log|
    ensures var log := s.node.log;
            log.UnstableEnts() == if log.unstable <= log.LastIndex() then log.ents[log.unstable - log.offset..] else []
    ensures forall k :: 0 <= k < |s.node.log.UnstableEnts()| ==>
              s.node.log.UnstableEnts()[k].index == s.node.log.unstable + k
  {
    var log := s.node.log;
    UnstableSlice(log);
    if log.unstable > log.offset {
      assert Saved(s, log.unstable - 1);
    }
    var es := log.UnstableEnts();
    forall k | 0 <= k < |es| ensures es[k].index == log.unstable + k {
      assert es[k] == log.ents[log.unstable - log.offset + k];
    }
  }

  ghost predicate SavedAs(s: Server, h: Journal) {
    var log := s.node.log;
    && log.Valid() && Consistent(0, h) && FilesGrow(s.hist, h) && h.state == HardOf(s.node)
    && |h.log| == log.LastIndex() + 1
    && (forall k :: log.offset <= k <= log.LastIndex() ==> h.log[k] == log.ents[k - log.offset])
    && (forall k :: 0 <= k < log.unstable ==> k < |s.hist.log| && h.log[k] == s.hist.log[k])
    && (h.state == s.hist.state || forall k {:trigger W.RecordsFrom(h.wal.files, k)} ::
          0 <= k < |h.wal.files| ==> HasState(W.RecordsFrom(h.wal.files, k)))
  }

  lemma ReadySaved(save: SaveStore, s: Server) returns (h: Journal)
    requires ServerOk(save, s) && Enabled(s, TakeReady)
    ensures var rd := NewReady(s.node, s.prevHard, s.prevSnapi);
            CanSave(s.hist, rd) && h == SaveReady(s.hist, rd) && SavedAs(s, h)
  {
    var rd := NewReady(s.node, s.prevHard, s.prevSnapi);
    var log := s.node.log;
    UnstableWithin(s);
    PutStateGrows(s.hist, rd.hard);
    var h1 := Apply(0, s.hist, PutState(rd.hard));
    AllFits(rd.entries);
    PutAllGrows(h1, rd.entries, log.unstable);
    h := SaveReady(s.hist, rd);
    FilesGrowThen(s.hist, h1, h);
    HardSaved(s);
    LogSavedNow(s, h);
  }

  lemma AllFits(es: seq<Entry>)
    requires W.AllSavable(es)
    ensures forall k :: 0 <= k < |es| ==> EntryFits(es[k])
  {
    forall k | 0 <= k < |es| ensures EntryFits(es[k]) {
      assert W.Savable(es[k]);
    }
  }

  // The state saved is the node's, whether or not it is part of the Ready.
  lemma HardSaved(s: Server)
    requires Steady(s.node) && States(s) && s.node.commit == s.node.log.committed
    ensures var hard := NewReady(s.node, s.prevHard, s.prevSnapi).hard;
            HardOf(s.node) == if hard == EMPTY_HARD_STATE then s.hist.state else hard
  {
  }

  lemma LogSavedNow(s: Server, h: Journal)
    requires s.node.log.Valid() && s.node.log.unstable <= |s.hist.log|
    requires var log := s.node.log; log.unstable == log.LastIndex() + 1 ==> |s.hist.log| == log.LastIndex() + 1
    requires forall k {:trigger Saved(s, k)} :: s.node.log.offset <= k < s.node.log.unstable ==> Saved(s, k)
    requires var es := s.node.log.UnstableEnts();
             h.log == if es == [] then s.hist.log else s.hist.log[..s.node.log.unstable] + es
    ensures var log := s.node.log;
            && |h.log| == log.LastIndex() + 1
            && (forall k :: log.offset <= k <= log.LastIndex() ==> h.log[k] == log.ents[k - log.offset])
            && (forall k :: 0 <= k < log.unstable ==> k < |s.hist.log| && h.log[k] == s.hist.log[k])
  {
    var log := s.node.log;
    UnstableSlice(log);
    SavedSize(s, h);
    forall k | log.offset <= k <= log.LastIndex() ensures h.log[k] == log.ents[k - log.offset] {
      if k < log.unstable {
        assert Saved(s, k);
      }
      SavedSlot(s.hist.log, log.unstable, log.ents, log.offset, log.UnstableEnts(), h.log, k);
    }
    SavedFront(s.hist.log, log.unstable, log.UnstableEnts(), h.log);
  }

  lemma SavedFront(saved: seq<Entry>, u: nat, es: seq<Entry>, all: seq<Entry>)
    requires u <= |saved| && all == if es == [] then saved else saved[..u] + es
    ensures forall k :: 0 <= k < u ==> k < |all| && all[k] == saved[k]
  {
  }

  lemma SavedSize(s: Server, h: Journal)
    requires s.node.log.Valid() && s.node.log.unstable <= |s.hist.log|
    requires var log := s.node.log; log.unstable == log.LastIndex() + 1 ==> |s.hist.log| == log.LastIndex() + 1
    requires var es := s.node.log.UnstableEnts();
             h.log == if es == [] then s.hist.log else s.hist.log[..s.node.log.unstable] + es
    ensures |h.log| == s.node.log.LastIndex() + 1
  {
    UnstableSlice(s.node.log);
  }

  lemma SavedSlot(saved: seq<Entry>, u: nat, ents: seq<Entry>, offset: nat, es: seq<Entry>, all: seq<Entry>, k: nat)
    requires offset <= u <= |saved| && u <= offset + |ents| && offset <= k < offset + |ents|
    requires es == if u < offset + |ents| then ents[u - offset..] else []
    requires all == if es == [] then saved else saved[..u] + es
    requires k < u ==> saved[k] == ents[k - offset]
    ensures k < |all| && all[k] == ents[k - offset]
  {
    JoinedAt(saved, u, ents, u - offset, k);
  }

  // ---- Taking a Ready ----

  lemma TakenLog(save: SaveStore, s: Server, s': Server, h: Journal)
    requires ServerOk(save, s) && SavedAs(s, h) && s'.hist == h && s'.node == HandOver(s.node)
    ensures Steady(s'.node) && s'.node.commit == s'.node.log.committed && LogSaved(s')
  {
    var log := s'.node.log;
    forall k | log.offset <= k < log.unstable ensures Saved(s', k) {
    }
  }

  lemma NextDelivered(s: Server, committed: seq<Entry>)
    requires Steady(s.node) && committed == s.node.log.NextEnts()
    ensures |committed| == s.node.log.committed - s.node.log.applied
    ensures forall k :: 0 <= k < |committed| ==>
              && committed[k] == s.node.log.ents[s.node.log.applied + 1 + k - s.node.log.offset]
              && committed[k].index == s.node.log.applied + 1 + k
  {
  }

  lemma TakenOrder(save: SaveStore, s: Server, s': Server, h: Journal)
    requires ServerOk(save, s) && SavedAs(s, h) && s'.hist == h && s'.node == HandOver(s.node)
    requires s'.delivered == s.delivered + s.node.log.NextEnts()
    requires var es := s.node.log.NextEnts(); s'.appliedi == if es == [] then s.appliedi else es[|es| - 1].index
    ensures InOrder(s')
  {
    var log := s.node.log;
    NextDelivered(s, log.NextEnts());
    forall k | 0 <= k < |s'.delivered| ensures DeliveredAt(s', k) {
      if k < |s.delivered| {
        assert DeliveredAt(s, k);
        assert s'.delivered[k] == s.delivered[k];
      } else {
        assert s'.delivered[k] == log.NextEnts()[k - |s.delivered|];
      }
    }
  }

  lemma HoldsLonger(save: SaveStore, s: Server, s': Server, snapshot: Snapshot)
    requires Holds(save, s, snapshot) && s.delivered <= s'.delivered
    ensures Holds(save, s', snapshot)
  {
    assert s'.delivered[..snapshot.index] == s.delivered[..snapshot.index];
  }

  lemma AppliedGrows(save: SaveStore, snapCount: nat, s: Server)
    requires ServerOk(save, s)
    ensures s.appliedi <= Taken(save, snapCount, s).appliedi
  {
    NextDelivered(s, s.node.log.NextEnts());
  }

  lemma TakenSnapshots(save: SaveStore, snapCount: nat, s: Server)
    requires ServerOk(save, s) && Enabled(s, TakeReady) && InOrder(Taken(save, snapCount, s))
    ensures Snapshots(save, Taken(save, snapCount, s))
  {
    var s' := Taken(save, snapCount, s);
    AppliedGrows(save, snapCount, s);
    HoldsLonger(save, s, s', s.node.log.snapshot);
    HoldsLonger(save, s, s', s.snap);
  }

  lemma TakenStates(save: SaveStore, s: Server, s': Server, h: Journal)
    requires ServerOk(save, s) && SavedAs(s, h) && s'.hist == h && s'.node == HandOver(s.node)
    requires var hard := NewReady(s.node, s.prevHard, s.prevSnapi).hard;
             s'.prevHard == if hard != EMPTY_HARD_STATE then hard else s.prevHard
    ensures States(s')
  {
    HardSaved(s);
    forall k: nat | 1 <= k < |h.wal.files| ensures StateIn(s', k) && h.wal.files[k].index >= 1 {
      assert StateIn(s, k);
      assert s.hist.wal.files[k].index >= 1;
    }
    assert s'.hist.state == s'.prevHard;
  }

  lemma TakenGood(save: SaveStore, snapCount: nat, s: Server)
    requires ServerOk(save, s) && Enabled(s, TakeReady)
    ensures ServerOk(save, Taken(save, snapCount, s))
  {
    var h := ReadySaved(save, s);
    var s' := Taken(save, snapCount, s);
    TakenLog(save, s, s', h);
    TakenOrder(save, s, s', h);
    TakenSnapshots(save, snapCount, s);
    TakenStates(save, s, s', h);
  }

  // ---- Compacting ----

  lemma CompactLog(save: SaveStore, s: Server, nodes: seq<int>)
    requires ServerOk(save, s) && s.pending.Just?
    ensures var log := s.node.log;
            var n := CompactNode(s.node, s.pending.value, nodes);
            && n.log.ents == log.ents[log.applied - log.offset..] && n.log.offset == log.applied
            && n.log.unstable == log.unstable && n.log.committed == log.committed && n.log.applied == log.applied
            && n.log.snapshot == Snapshot(s.pending.value, nodes, log.applied, log.Term(log.applied))
            && Steady(n)
  {
  }

  lemma CutGrows(h: Journal)
    requires Consistent(0, h)
    ensures var h' := Apply(0, h, CutFile);
            && Consistent(0, h') && h'.log == h.log && h'.state == h.state && h'.wal.enti == h.wal.enti
            && |h'.wal.files| == |h.wal.files| + 1 && h'.wal.files[|h.wal.files|].index == h.wal.enti + 1
            && (forall k :: 0 <= k < |h.wal.files| ==> h'.wal.files[k].index == h.wal.files[k].index)
            && (forall k {:trigger W.RecordsFrom(h'.wal.files, k)} :: 0 <= k < |h.wal.files| ==>
                  HasState(W.RecordsFrom(h.wal.files, k)) ==> HasState(W.RecordsFrom(h'.wal.files, k)))
  {
    StepConsistent(0, h, CutFile);
    var w := h.wal;
    var file := W.WalFile(w.files[|w.files| - 1].seqno + 1, w.enti + 1, []);
    var h' := Apply(0, h, CutFile);
    forall k | 0 <= k < |w.files|
      ensures h'.wal.files[k].index == w.files[k].index
      ensures HasState(W.RecordsFrom(w.files, k)) ==> HasState(W.RecordsFrom(h'.wal.files, k)) {
      NewFileAdds(w.files, k, file);
      var rec := RecordWritten(w.(files := w.files + [file]), W.CRC_TYPE, Nothing, k);
      HasStateOneMore(W.RecordsFrom(w.files, k), rec);
    }
  }

  lemma CompactedLog(save: SaveStore, s: Server, s': Server, nodes: seq<int>)
    requires ServerOk(save, s) && s.pending.Just? && s'.node == CompactNode(s.node, s.pending.value, nodes)
    requires s'.hist.log == s.hist.log && s'.hist.state == s.hist.state
    requires s'.delivered == s.delivered && s'.appliedi == s.appliedi
    ensures LogSaved(s') && InOrder(s')
  {
    CompactLog(save, s, nodes);
    var log := s'.node.log;
    forall k | log.offset <= k < log.unstable ensures Saved(s', k) {
      assert Saved(s, k);
    }
    forall k | 0 <= k < |s.delivered| ensures DeliveredAt(s', k) {
      assert DeliveredAt(s, k);
    }
  }

  lemma CompactedSnapshots(save: SaveStore, s: Server, nodes: seq<int>)
    requires ServerOk(save, s) && s.pending.Just?
    ensures Snapshots(save, Compacted(s, nodes))
  {
    CompactLog(save, s, nodes);
    assert s.delivered[..|s.delivered|] == s.delivered;
  }

  lemma CutIndexes(h: Journal)
    requires Consistent(0, h) && h.wal.enti >= 0
    requires forall k :: 1 <= k < |h.wal.files| ==> h.wal.files[k].index >= 1
    ensures var files := Apply(0, h, CutFile).wal.files; forall k :: 1 <= k < |files| ==> files[k].index >= 1
  {
    CutGrows(h);
  }

  lemma CompactedStates(save: SaveStore, s: Server, s': Server)
    requires ServerOk(save, s) && s'.hist == Apply(0, s.hist, CutFile)
    requires s'.node.term == s.node.term && s'.prevHard == s.prevHard
    requires s'.node.log.applied == s.node.log.applied && s'.node.log.committed == s.node.log.committed
    ensures Consistent(0, s'.hist) && States(s')
  {
    CutGrows(s.hist);
    CutIndexes(s.hist);
    forall k: nat | 1 <= k < |s'.hist.wal.files| ensures StateIn(s', k) {
      if k < |s.hist.wal.files| {
        assert StateIn(s, k);
      }
    }
  }

  lemma CompactedGood(save: SaveStore, s: Server, nodes: seq<int>)
    requires ServerOk(save, s) && s.pending.Just?
    ensures ServerOk(save, Compacted(s, nodes))
  {
    var s' := Compacted(s, nodes);
    CompactLog(save, s, nodes);
    CutGrows(s.hist);
    CompactedLog(save, s, s', nodes);
    CompactedSnapshots(save, s, nodes);
    CompactedStates(save, s, s');
  }

  // ---- Stopping and starting again ----

  lemma SnapshotBehind(save: SaveStore, s: Server)
    requires ServerOk(save, s) && s.hist.log != []
    ensures 0 <= s.snap.index < |s.hist.log| && s.snap.index <= s.node.log.applied
  {
    if s.snap.index > 0 {
      assert DeliveredAt(s, s.snap.index - 1);
    }
  }

  lemma ReadsWhatWasSaved(save: SaveStore, s: Server)
    requires ServerOk(save, s) && s.hist.log != []
    ensures var ri := s.snap.index;
            var res := ReadBack(s.hist, ri);
            && 0 <= ri < |s.hist.log| && ri <= |s.delivered|
            && W.SearchIndex(s.hist.wal.files, ri) >= 0
            && W.ValidSeq(s.hist.wal.files[W.SearchIndex(s.hist.wal.files, ri)..])
            && res.Reading? && res.r.ents == s.hist.log[ri..] && res.r.state == s.hist.state
  {
    SnapshotBehind(save, s);
    var k := SearchFinds(0, s.hist, s.snap.index);
    ReadFromFile(0, s.hist, k, s.snap.index);
    if k >= 1 {
      assert StateIn(s, k);
    }
  }

  // The node a restart makes, said without reading.
  ghost function Rebuilt(s: Server, peers: set<int>): Node
    requires 0 <= s.snap.index <= |s.hist.log|
  {
    var from := if s.snap.index == 0 then Nothing else Just(s.snap);
    RestartNode(s.node.id, peers, from, s.hist.state, s.hist.log[s.snap.index..])
  }

  lemma RebuiltNode(save: SaveStore, s: Server, peers: set<int>)
    requires ServerOk(save, s) && s.hist.log != [] && 0 <= s.snap.index < |s.hist.log|
    ensures var n := Rebuilt(s, peers);
            && n.id == s.node.id && n.role == Follower && n.lead == NONE
            && HardOf(n) == s.hist.state && n.log.committed == n.commit
            && n.log.offset == n.log.applied == s.snap.index && n.log.ents == s.hist.log[s.snap.index..]
            && n.log.unstable == |s.hist.log| && n.log.snapshot == s.snap && Steady(n)
  {
    SnapshotBehind(save, s);
  }

  lemma RecoveredIs(save: SaveStore, s: Server, peers: set<int>)
    requires ServerOk(save, s) && s.hist.log != []
    ensures 0 <= s.snap.index < |s.hist.log| && s.snap.index <= |s.delivered|
    ensures var n := Rebuilt(s, peers);
            Recovered(s, peers) ==
            Server(n, HardOf(n), n.log.snapshot.index, s.hist, s.snap, s.delivered[..s.snap.index], 0, 0, Nothing)
  {
    ReadsWhatWasSaved(save, s);
  }

  lemma RecoveredGood(save: SaveStore, s: Server, peers: set<int>)
    requires ServerOk(save, s) && s.hist.log != []
    ensures ServerOk(save, Recovered(s, peers))
  {
    RecoveredIs(save, s, peers);
    RebuiltNode(save, s, peers);
    SnapshotBehind(save, s);
    var s' := Recovered(s, peers);
    var ri := s.snap.index;
    forall k | ri <= k < s'.node.log.unstable ensures Saved(s', k) {
    }
    forall k | 0 <= k < |s'.delivered| ensures DeliveredAt(s', k) {
      assert DeliveredAt(s, k);
    }
    forall k: nat | 1 <= k < |s.hist.wal.files| ensures StateIn(s', k) {
      assert StateIn(s, k);
    }
    assert s'.delivered[..ri] == s.delivered[..ri];
  }

  // ---- Whole runs ----

  // s is where a fresh server can be after the given events.
  ghost predicate Reaches(save: SaveStore, snapCount: nat, id: int, peers: set<int>, events: seq<Event>, s: Server)
    decreases |events|
  {
    if events == [] then s == Start(id, peers)
    else
      var v := events[|events| - 1];
      exists s0 :: Reaches(save, snapCount, id, peers, events[..|events| - 1], s0) && Enabled(s0, v) &&
                   s == Next(save, snapCount, s0, v)
  }

  lemma LastEvent(save: SaveStore, snapCount: nat, id: int, peers: set<int>, events: seq<Event>, s: Server, v: Event)
      returns (s0: Server)
    requires events != [] && v == events[|events| - 1] && Reaches(save, snapCount, id, peers, events, s)
    ensures Reaches(save, snapCount, id, peers, events[..|events| - 1], s0)
    ensures Enabled(s0, v) && s == Next(save, snapCount, s0, v)
  {
    s0 :| Reaches(save, snapCount, id, peers, events[..|events| - 1], s0) && Enabled(s0, v) &&
          s == Next(save, snapCount, s0, v);
  }

  lemma {:induction false} RunGood(save: SaveStore, snapCount: nat, id: int, peers: set<int>, events: seq<Event>,
                                   s: Server)
    requires id != NONE && Reaches(save, snapCount, id, peers, events, s)
    ensures ServerOk(save, s) && s.node.id == id
    decreases |events|
  {
    if events == [] {
      StartGood(save, id, peers);
    } else {
      var v := events[|events| - 1];
      var s0 := LastEvent(save, snapCount, id, peers, events, s, v);
      RunGood(save, snapCount, id, peers, events[..|events| - 1], s0);
      NextOk(save, snapCount, s0, v);
    }
  }

  lemma NextOk(save: SaveStore, snapCount: nat, s: Server, v: Event)
    requires ServerOk(save, s) && Enabled(s, v)
    ensures ServerOk(save, Next(save, snapCount, s, v)) && Next(save, snapCount, s, v).node.id == s.node.id
  {
    match v
    case Handle(m) =>
      HandleGood(save, s, m);
      StepMoves(s.node, m);
    case TakeReady => TakenGood(save, snapCount, s);
    case Compact(nodes) => CompactedGood(save, s, nodes);
    case Crash(peers) =>
      RecoveredGood(save, s, peers);
      RecoveredIs(save, s, peers);
  }

  /** After a Ready everything committed is applied, and on disk are the node's whole log, as far
      as it has not been compacted, and its term, vote and commit index. A snapshot is begun if
      and only if more than snapCount entries were applied since the last. */
  lemma ReadyIsDone(save: SaveStore, snapCount: nat, id: int, peers: set<int>, events: seq<Event>, s: Server,
                    s': Server)
    requires id != NONE && Reaches(save, snapCount, id, peers, events, s)
    requires Enabled(s, TakeReady) && s' == Taken(save, snapCount, s)
    ensures s.delivered <= s'.delivered && |s'.delivered| == s.node.log.committed
    ensures s'.hist.state == HardState(s.node.term, s.node.vote, s.node.log.committed)
    ensures var log := s.node.log;
            && log.offset >= 0 && |s'.hist.log| == log.offset + |log.ents|
            && forall k :: log.offset <= k < |s'.hist.log| ==> s'.hist.log[k] == log.ents[k - log.offset]
    ensures var compacted := s.node.log.snapshot.index;
            var last := if s.prevSnapi != compacted then Max(s.snapi, compacted) else s.snapi;
            s'.pending.Just? <==> s'.appliedi > last + snapCount
  {
    RunGood(save, snapCount, id, peers, events, s);
    var h := ReadySaved(save, s);
    NextDelivered(s, s.node.log.NextEnts());
  }

  // Entry k + 1, delivered as the k-th, is still the one in the saved log and in the node's.
  ghost predicate AppliedOnce(s: Server, k: nat) {
    && k < |s.delivered| && s.delivered[k].index == k + 1
    && k + 1 < |s.hist.log| && s.delivered[k] == s.hist.log[k + 1]
    && var log := s.node.log;
       log.offset <= k + 1 ==> k + 1 <= log.LastIndex() && log.ents[k + 1 - log.offset] == s.delivered[k]
  }

  lemma AppliedInOrder(save: SaveStore, s: Server)
    requires ServerOk(save, s)
    ensures |s.delivered| == s.node.log.applied && forall k: nat {:trigger AppliedOnce(s, k)} ::
              k < |s.delivered| ==> AppliedOnce(s, k)
  {
    forall k: nat | k < |s.delivered| ensures AppliedOnce(s, k) {
      assert DeliveredAt(s, k);
      if s.node.log.offset <= k + 1 {
        assert Saved(s, k + 1);
      }
    }
  }

  /** The committed entries handed over so far are entries 1, 2, 3, ... in order, and each is
      still the entry of that index in the node's log and in the saved log; a snapshot of the
      node, or one saved, holds the store after exactly the entries up to its index. */
  lemma ExactlyOnce(save: SaveStore, snapCount: nat, id: int, peers: set<int>, events: seq<Event>, s: Server)
    requires id != NONE && Reaches(save, snapCount, id, peers, events, s)
    ensures |s.delivered| == s.node.log.applied
    ensures forall k: nat {:trigger AppliedOnce(s, k)} :: k < |s.delivered| ==> AppliedOnce(s, k)
    ensures Holds(save, s, s.node.log.snapshot) && Holds(save, s, s.snap)
  {
    RunGood(save, snapCount, id, peers, events, s);
    AppliedInOrder(save, s);
  }

  // The entries d are saved, and so is that they are committed.
  ghost predicate Secured(d: seq<Entry>, s: Server) {
    |d| <= s.hist.state.commit && |d| < |s.hist.log| && forall k :: 0 <= k < |d| ==> s.hist.log[k + 1] == d[k]
  }

  lemma DeliveredKept(save: SaveStore, s: Server)
    requires ServerOk(save, s) && s.delivered != []
    ensures Secured(s.delivered, s)
  {
    forall k | 0 <= k < |s.delivered| ensures s.hist.log[k + 1] == s.delivered[k] && k + 1 < |s.hist.log| {
      assert DeliveredAt(s, k);
    }
  }

  lemma KeptNext(save: SaveStore, snapCount: nat, s: Server, v: Event, d: seq<Entry>)
    requires ServerOk(save, s) && Enabled(s, v) && Secured(d, s) && d != []
    ensures Secured(d, Next(save, snapCount, s, v))
  {
    match v
    case Handle(m) =>
    case TakeReady => var h := ReadySaved(save, s);
    case Compact(nodes) => CutGrows(s.hist);
    case Crash(peers) =>
  }

  // What was delivered after the first i events is still saved and committed after all of them.
  lemma {:induction false} StaysKept(save: SaveStore, snapCount: nat, id: int, peers: set<int>,
                                    events: seq<Event>, i: nat, s: Server)
      returns (s0: Server)
    requires id != NONE && i <= |events| && Reaches(save, snapCount, id, peers, events, s)
    ensures Reaches(save, snapCount, id, peers, events[..i], s0) && (s0.delivered != [] ==> Secured(s0.delivered, s))
    decreases |events|
  {
    if i == |events| {
      CutAt(events, i);
      s0 := s;
      RunGood(save, snapCount, id, peers, events, s);
      if s.delivered != [] {
        DeliveredKept(save, s);
      }
    } else {
      var n := |events| - 1;
      TakeTake(events, n, i);
      var s1 := LastEvent(save, snapCount, id, peers, events, s, events[n]);
      s0 := StaysKept(save, snapCount, id, peers, events[..n], i, s1);
      RunGood(save, snapCount, id, peers, events[..n], s1);
      if s0.delivered != [] {
        KeptNext(save, snapCount, s1, events[n], s0.delivered);
      }
    }
  }

  /** A delivered entry stays, however often the server stops and starts again: of what was
      delivered after the first i events and what is delivered after all of them, one is the
      beginning of the other, so an entry that is applied again is the same entry. */
  lemma DeliveredStays(save: SaveStore, snapCount: nat, id: int, peers: set<int>, events: seq<Event>, i: nat, s: Server)
      returns (s0: Server)
    requires id != NONE && i <= |events| && Reaches(save, snapCount, id, peers, events, s)
    ensures Reaches(save, snapCount, id, peers, events[..i], s0)
    ensures s0.delivered <= s.delivered || s.delivered <= s0.delivered
  {
    s0 := StaysKept(save, snapCount, id, peers, events, i, s);
    RunGood(save, snapCount, id, peers, events, s);
    if s0.delivered != [] && s.delivered != [] {
      DeliveredKept(save, s);
    }
  }

  // ---- Crashing and restarting ----

  // What is in the files from the one a restart opens.
  lemma RestartReads(save: SaveStore, s0: Server, s: Server, h: Journal)
    requires ServerOk(save, s0) && SavedAs(s0, h) && ServerOk(save, s)
    requires s.hist == h && s.node == HandOver(s0.node) && s.snap.index == s.node.log.offset
    ensures var ri := s.snap.index;
            var k := W.SearchIndex(h.wal.files, ri);
            && k >= 0 && W.ValidSeq(h.wal.files[k..])
            && var res := W.ReadAll(h.wal.files, k, ri);
               res.Reading? && res.r.ents == s.node.log.ents && res.r.state == HardOf(s.node)
  {
    var ri := s.snap.index;
    var k := SearchFinds(0, h, ri);
    ReadFromFile(0, h, k, ri);
    SavedSuffix(s0, h);
    if k >= 1 {
      assert StateIn(s, k);
    }
  }

  lemma SavedSuffix(s0: Server, h: Journal)
    requires SavedAs(s0, h)
    ensures s0.node.log.offset < |h.log| && h.log[s0.node.log.offset..] == s0.node.log.ents
  {
  }

  /** Stopping right after a Ready was saved: reading the log from the latest snapshot's
      index, or from 0, returns the node's log from there and its term, vote and commit, and
      RestartNode rebuilds them; the entries behind the snapshot are applied again. */
  lemma CrashRecovery(save: SaveStore, snapCount: nat, id: int, peers: set<int>, events: seq<Event>, s0: Server,
                      s: Server)
    requires id != NONE && Reaches(save, snapCount, id, peers, events, s0)
    requires Enabled(s0, TakeReady) && s == Taken(save, snapCount, s0)
    ensures var ri := s.snap.index;
            var k := W.SearchIndex(s.hist.wal.files, ri);
            && k >= 0 && W.ValidSeq(s.hist.wal.files[k..])
            && var res := W.ReadAll(s.hist.wal.files, k, ri);
               && res.Reading? && res.r.ents == s.node.log.ents && res.r.state == HardOf(s.node)
               && var n := RestartNode(id, peers, if ri == 0 then Nothing else Just(s.snap), res.r.state, res.r.ents);
                  && n.term == s.node.term && n.vote == s.node.vote && n.commit == s.node.commit
                  && n.log == s.node.log.(applied := ri)
  {
    RunGood(save, snapCount, id, peers, events, s0);
    var h := ReadySaved(save, s0);
    TakenGood(save, snapCount, s0);
    RestartReads(save, s0, s, h);
    RebuiltAfterReady(save, s, id, peers);
  }

  lemma RebuiltAfterReady(save: SaveStore, s: Server, id: int, peers: set<int>)
    requires ServerOk(save, s) && s.snap.index == s.node.log.offset && s.node.log.unstable == s.node.log.LastIndex() + 1
    ensures var ri := s.snap.index;
            var n := RestartNode(id, peers, if ri == 0 then Nothing else Just(s.snap), HardOf(s.node), s.node.log.ents);
            && n.term == s.node.term && n.vote == s.node.vote && n.commit == s.node.commit
            && n.log == s.node.log.(applied := ri)
  {
  }

  // What a restart makes of what it reads, whenever the server stopped.
  ghost predicate Recovers(save: SaveStore, s: Server, n: Node) {
    var ri := s.snap.index;
    && 0 <= ri < |s.hist.log| && n.log.Valid() && n.log.offset == n.log.applied == ri && Holds(save, s, s.snap)
    && n.log.ents == s.hist.log[ri..] && n.log.unstable == |s.hist.log|
    && HardOf(n) == s.hist.state && n.log.committed == n.commit
    && (ri > 0 ==> n.log.snapshot == s.snap)
    && (forall k: nat {:trigger Survives(s, n, k)} :: ri <= k < |s.delivered| ==> Survives(s, n, k))
  }

  // Entry k + 1, delivered before the stop, is committed in the node that starts again.
  ghost predicate Survives(s: Server, n: Node, k: nat) {
    && k < |s.delivered| && n.log.offset <= k + 1 <= n.log.committed && k + 1 - n.log.offset < |n.log.ents|
    && n.log.ents[k + 1 - n.log.offset] == s.delivered[k]
  }

  lemma RestartRecovers(save: SaveStore, s: Server, peers: set<int>)
    requires ServerOk(save, s) && s.hist.log != [] && 0 <= s.snap.index < |s.hist.log|
    ensures Recovers(save, s, Rebuilt(s, peers))
  {
    SnapshotBehind(save, s);
    RebuiltNode(save, s, peers);
    var n := Rebuilt(s, peers);
    forall k: nat | s.snap.index <= k < |s.delivered| ensures Survives(s, n, k) {
      assert DeliveredAt(s, k);
    }
  }

  /** Stopping at any moment after the first save, also between Readys and between a
      compaction and the next Ready: reading from the latest saved snapshot's index returns
      what was saved from there on and the last state saved, and the node that starts again
      has every entry that was ever delivered, committed, or in the snapshot. */
  lemma CrashAnytime(save: SaveStore, snapCount: nat, id: int, peers: set<int>, events: seq<Event>, s: Server)
    requires id != NONE && Reaches(save, snapCount, id, peers, events, s) && s.hist.log != []
    ensures var ri := s.snap.index;
            var k := W.SearchIndex(s.hist.wal.files, ri);
            && 0 <= ri < |s.hist.log| && k >= 0 && W.ValidSeq(s.hist.wal.files[k..])
            && var res := W.ReadAll(s.hist.wal.files, k, ri);
               && res.Reading? && res.r.ents == s.hist.log[ri..] && res.r.state == s.hist.state
               && var from := if ri == 0 then Nothing else Just(s.snap);
                  Recovers(save, s, RestartNode(id, peers, from, res.r.state, res.r.ents))
  {
    RunGood(save, snapCount, id, peers, events, s);
    ReadsWhatWasSaved(save, s);
    RestartRecovers(save, s, peers);
  }

  // ---- Two branches of the server's code ----

  /** Without snapshots from peers the store is never recovered while the server runs: a
      snapshot in a Ready stands at an entry that was applied before. */
  lemma NeverAhead(save: SaveStore, snapCount: nat, id: int, peers: set<int>, events: seq<Event>, s: Server)
    requires id != NONE && Reaches(save, snapCount, id, peers, events, s)
    ensures var rd := NewReady(s.node, s.prevHard, s.prevSnapi);
            rd.snapshot.index <= s.appliedi <= Taken(save, snapCount, s).appliedi
  {
    RunGood(save, snapCount, id, peers, events, s);
    AppliedGrows(save, snapCount, s);
  }

  lemma {:induction false} NothingSaved(save: SaveStore, snapCount: nat, id: int, peers: set<int>,
                                       events: seq<Event>, s: Server)
    requires id != NONE && Reaches(save, snapCount, id, peers, events, s) && s.hist.log == []
    ensures s.hist == NEW_JOURNAL && s.snap.index == 0
    decreases |events|
  {
    RunGood(save, snapCount, id, peers, events, s);
    if events != [] {
      var v := events[|events| - 1];
      var s0 := LastEvent(save, snapCount, id, peers, events, s, v);
      RunGood(save, snapCount, id, peers, events[..|events| - 1], s0);
      LogGrows(save, snapCount, s0, v);
      NothingSaved(save, snapCount, id, peers, events[..|events| - 1], s0);
    }
  }

  // Only messages leave a server with nothing saved.
  lemma LogGrows(save: SaveStore, snapCount: nat, s: Server, v: Event)
    requires ServerOk(save, s) && Enabled(s, v)
    ensures v.Handle? || Next(save, snapCount, s, v).hist.log != []
  {
    match v
    case Handle(m) =>
    case TakeReady => var h := ReadySaved(save, s);
    case Compact(nodes) =>
      assert DeliveredAt(s, 0);
      CutGrows(s.hist);
    case Crash(peers) =>
  }

  lemma EmptyRead(h: Journal)
    requires h == NEW_JOURNAL
    ensures var res := ReadBack(h, 0); res.Reading? && res.r.state == EMPTY_HARD_STATE && res.r.ents == []
  {
  }

  lemma EmptyFails(id: int, peers: set<int>, st: HardState, ents: seq<Entry>, m: Message)
    requires id != NONE && st.term == 0 && ents == [] && m.typ == MSG_VOTE && m.term >= 1
    ensures var n := RestartNode(id, peers, Nothing, st, ents);
            n.log.ents == [] && Step(n, m) == Panics(EmptyLog)
  {
  }

  lemma UnsavedFails(s: Server, peers: set<int>, m: Message)
    requires s.node.id != NONE && s.hist == NEW_JOURNAL && s.snap.index == 0
    requires m.typ == MSG_VOTE && m.term >= 1
    ensures var n := Recovered(s, peers).node; n.log.ents == [] && Step(n, m) == Panics(EmptyLog)
  {
    EmptyRead(s.hist);
    var r := ReadBack(s.hist, 0).r;
    EmptyFails(s.node.id, peers, r.state, r.ents, m);
  }

  /** A server that stops before its first Ready is saved leaves a log it cannot start from:
      the node rebuilt has no entry at all, not even the one in front of the first, and fails
      on the first request for a vote. Once anything has been saved it has one. */
  lemma RestartNeedsSave(save: SaveStore, snapCount: nat, id: int, peers: set<int>, events: seq<Event>, s: Server,
                         now: set<int>, m: Message)
    requires id != NONE && Reaches(save, snapCount, id, peers, events, s)
    requires m.typ == MSG_VOTE && m.term >= 1
    ensures var n := Recovered(s, now).node;
            && (n.log.ents == [] <==> s.hist.log == [])
            && (s.hist.log == [] ==> Step(n, m) == Panics(EmptyLog))
  {
    RunGood(save, snapCount, id, peers, events, s);
    if s.hist.log == [] {
      NothingSaved(save, snapCount, id, peers, events, s);
      UnsavedFails(s, now, m);
    } else {
      RecoveredIs(save, s, now);
      RebuiltNode(save, s, now);
    }
  }

  // ---- A snapshot from a peer ----

  // The snapshots a node takes: of its leader, beyond what it has committed.
  predicate TakesSnapshot(n: Node, m: Message) {
    && m.typ == MSG_SNAP && m.term >= 1 && CanRestore(n, m.snapshot)
    && (m.term > n.term || (m.term == n.term && n.role != Leader))
  }

  lemma SnapshotTaken(n: Node, m: Message)
    requires TakesSnapshot(n, m)
    ensures Step(n, m).Done? && Step(n, m).node.log == RestoreLog(m.snapshot)
  {
  }

  lemma OnlyStateSaved(s: Server, n: Node, rd: Ready)
    requires Consistent(0, s.hist) && rd == NewReady(n, s.prevHard, s.prevSnapi) && Representable(rd)
    requires n.log.unstable == n.log.LastIndex() + 1
    ensures rd.entries == [] && CanSave(s.hist, rd)
    ensures Consistent(0, SaveReady(s.hist, rd)) && SaveReady(s.hist, rd).log == s.hist.log
  {
    PutStateGrows(s.hist, rd.hard);
  }

  /** The log on disk does not learn of a snapshot that came from a peer. Once a server has saved
      the Ready with such a snapshot it can start again from it if and only if the log saved
      before reached the snapshot's index; if not, that index is reported missing. */
  lemma PeerSnapshotRestart(save: SaveStore, snapCount: nat, id: int, peers: set<int>, events: seq<Event>, s: Server,
                            m: Message)
    requires id != NONE && Reaches(save, snapCount, id, peers, events, s)
    requires TakesSnapshot(s.node, m) && Representable(NewReady(Step(s.node, m).node, s.prevHard, s.prevSnapi))
    ensures var rd := NewReady(Step(s.node, m).node, s.prevHard, s.prevSnapi);
            && rd.snapshot == m.snapshot && CanSave(s.hist, rd)
            && var res := ReadBack(SaveReady(s.hist, rd), m.snapshot.index);
               && (res.Reading? <==> m.snapshot.index < |s.hist.log|)
               && (res.ReadFailed? ==> res == W.ReadFailed(W.IndexNotFound))
  {
    RunGood(save, snapCount, id, peers, events, s);
    SnapshotTaken(s.node, m);
    var n := Step(s.node, m).node;
    var rd := NewReady(n, s.prevHard, s.prevSnapi);
    OnlyStateSaved(s, n, rd);
    var h := SaveReady(s.hist, rd);
    var k := SearchFinds(0, h, m.snapshot.index);
    ReadFromFile(0, h, k, m.snapshot.index);
  }
}
