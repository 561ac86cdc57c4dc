/** Snapshots and messages on the wire. A snapshot's node ids are written by a loop of their
    own, on signed values, so a negative id is cut to one byte; the round trip therefore holds
    exactly for snapshots without negative ids. */
module MessageCodec {
  import opened Collections
  import opened RaftTypes
  import opened Wire
  import opened Unmarshalling
  import opened RaftCodec

  // ---- Snapshot (raft.proto, message Snapshot) ----

  // The loop `for num >= 1<<7`: a negative num leaves only its low byte.
  function NodeBytes(num: int): (bs: Bytes)
    ensures |bs| >= 1
    decreases if num < 0 then 0 else num
  {
    if num >= 128 then [(num % 128 + 128) as byte] + NodeBytes(num / 128) else [(num % 256) as byte]
  }

  function EncodeNodes(nodes: seq<int>): Bytes {
    if nodes == [] then [] else [0x10] + NodeBytes(nodes[0]) + EncodeNodes(nodes[1..])
  }

  predicate SnapshotInts(s: Snapshot) {
    (forall k :: 0 <= k < |s.nodes| ==> Int64(s.nodes[k])) && Int64(s.index) && Int64(s.term)
  }

  function TailFields(s: Snapshot): seq<Field>
    requires Int64(s.index) && Int64(s.term)
  {
    [VarintField(3, ToWord(s.index)), VarintField(4, ToWord(s.term))]
  }

  function EncodeSnapshot(s: Snapshot): Bytes
    requires SnapshotInts(s)
  {
    EncodeField(BytesField(1, s.data)) + EncodeNodes(s.nodes) + EncodeAll(TailFields(s))
  }

  // Size counts a node id as the varint of its 64-bit word.
  function NodesSize(nodes: seq<int>): nat
    requires forall k :: 0 <= k < |nodes| ==> Int64(nodes[k])
  {
    if nodes == [] then 0 else 1 + |Varint(ToWord(nodes[0]))| + NodesSize(nodes[1..])
  }

  function SnapshotSize(s: Snapshot): nat
    requires SnapshotInts(s)
  {
    |EncodeField(BytesField(1, s.data))| + NodesSize(s.nodes) + |EncodeAll(TailFields(s))|
  }

  function AssignSnapshot(s: Snapshot, f: Field, complete: bool): Parsed<Snapshot> {
    Parsed(
      match f {
        case VarintField(num, v) =>
          if num == 2 then (if complete then s.(nodes := s.nodes + [FromWord(v % TWO64)]) else s)
          else if num == 3 then s.(index := OrInt64(s.index, v))
          else s.(term := OrInt64(s.term, v))
        case BytesField(_, bs) => s.(data := s.data + bs)
      }, NoError)
  }

  const SNAPSHOT := Format(map[1 := AsBytes, 2 := AsVarint, 3 := AsVarint, 4 := AsVarint], AssignSnapshot)

  ghost predicate NoNegative(nodes: seq<int>) {
    forall k :: 0 <= k < |nodes| ==> nodes[k] >= 0
  }

  ghost predicate SnapshotFits(s: Snapshot) {
    SnapshotInts(s) && |EncodeSnapshot(s)| < TWO63
  }

  lemma {:induction false} NodeBytesAsVarint(num: nat)
    ensures NodeBytes(num) == Varint(num)
  {
    if num >= 128 {
      NodeBytesAsVarint(num / 128);
    }
  }

  /** MarshalTo writes Size bytes exactly when no node id is negative; each negative id makes
      it nine bytes short. */
  lemma {:induction false} NodesSizeExact(nodes: seq<int>)
    requires forall k :: 0 <= k < |nodes| ==> Int64(nodes[k])
    ensures NoNegative(nodes) ==> NodesSize(nodes) == |EncodeNodes(nodes)|
    ensures !NoNegative(nodes) ==> NodesSize(nodes) >= |EncodeNodes(nodes)| + 9
  {
    if nodes != [] {
      var rest := nodes[1..];
      NodesSizeExact(rest);
      WordLength(nodes[0]);
      if nodes[0] >= 0 {
        NodeBytesAsVarint(nodes[0]);
      }
      assert forall k :: 0 <= k < |rest| ==> rest[k] == nodes[k + 1];
      if NoNegative(rest) && nodes[0] >= 0 {
        assert forall k :: 0 <= k < |nodes| ==> nodes[k] == if k == 0 then nodes[0] else rest[k - 1];
      }
    }
  }

  lemma SnapshotSizeExact(s: Snapshot)
    requires SnapshotInts(s)
    ensures SnapshotSize(s) == |EncodeSnapshot(s)| <==> NoNegative(s.nodes)
  {
    NodesSizeExact(s.nodes);
  }

  function NodeFields(nodes: seq<int>): (fs: seq<Field>)
    requires forall k :: 0 <= k < |nodes| ==> 0 <= nodes[k] && Int64(nodes[k])
    ensures |fs| == |nodes| && forall k :: 0 <= k < |fs| ==> fs[k] == VarintField(2, nodes[k])
  {
    seq(|nodes|, k requires 0 <= k < |nodes| => VarintField(2, nodes[k]))
  }

  lemma {:induction false} NodesAsFields(nodes: seq<int>)
    requires forall k :: 0 <= k < |nodes| ==> 0 <= nodes[k] && Int64(nodes[k])
    ensures EncodeNodes(nodes) == EncodeAll(NodeFields(nodes))
  {
    if nodes != [] {
      NodeBytesAsVarint(nodes[0]);
      assert NodeFields(nodes)[1..] == NodeFields(nodes[1..]);
      NodesAsFields(nodes[1..]);
    }
  }

  lemma {:induction false} AssignNodes(s: Snapshot, nodes: seq<int>)
    requires forall k :: 0 <= k < |nodes| ==> 0 <= nodes[k] && Int64(nodes[k])
    ensures AssignAll(SNAPSHOT, s, NodeFields(nodes)) == Parsed(s.(nodes := s.nodes + nodes), NoError)
    decreases |nodes|
  {
    var fs := NodeFields(nodes);
    if nodes == [] {
      assert s.nodes + nodes == s.nodes;
    } else {
      var t := s.(nodes := s.nodes + [nodes[0]]);
      assert fs[1..] == NodeFields(nodes[1..]);
      AssignNodes(t, nodes[1..]);
      MoveHead(s.nodes, nodes);
    }
  }

  function HeadFields(bs: Bytes, nodes: seq<int>): seq<Field>
    requires forall k :: 0 <= k < |nodes| ==> 0 <= nodes[k] && Int64(nodes[k])
  {
    [BytesField(1, bs)] + NodeFields(nodes)
  }

  lemma HeadEncodes(bs: Bytes, nodes: seq<int>)
    requires forall k :: 0 <= k < |nodes| ==> 0 <= nodes[k] && Int64(nodes[k])
    ensures EncodeAll(HeadFields(bs, nodes)) == EncodeField(BytesField(1, bs)) + EncodeNodes(nodes)
  {
    NodesAsFields(nodes);
    assert HeadFields(bs, nodes)[1..] == NodeFields(nodes);
  }

  lemma HeadAssigns(bs: Bytes, nodes: seq<int>)
    requires forall k :: 0 <= k < |nodes| ==> 0 <= nodes[k] && Int64(nodes[k])
    ensures AssignAll(SNAPSHOT, EMPTY_SNAPSHOT, HeadFields(bs, nodes)) == Parsed(Snapshot(bs, nodes, 0, 0), NoError)
  {
    var t := EMPTY_SNAPSHOT.(data := bs);
    assert EMPTY_SNAPSHOT.data + bs == bs;
    AssignNodes(t, nodes);
    assert t.nodes + nodes == nodes;
    assert HeadFields(bs, nodes)[1..] == NodeFields(nodes);
  }

  // Reading the data field and a run of non-negative node ids.
  lemma DataAndNodesRead(data: Bytes, end: nat, bs: Bytes, nodes: seq<int>)
    requires |bs| <= |data| < TWO63 && forall k :: 0 <= k < |nodes| ==> 0 <= nodes[k] && Int64(nodes[k])
    requires end <= |data| && data[..end] == EncodeField(BytesField(1, bs)) + EncodeNodes(nodes)
    ensures UnmarshalFrom(SNAPSHOT, data, 0, EMPTY_SNAPSHOT) ==
            UnmarshalFrom(SNAPSHOT, data, end, Snapshot(bs, nodes, 0, 0))
  {
    HeadEncodes(bs, nodes);
    HeadAssigns(bs, nodes);
    assert data[0..end] == data[..end];
    FieldsReadBack(SNAPSHOT, data, 0, end, HeadFields(bs, nodes), EMPTY_SNAPSHOT, Snapshot(bs, nodes, 0, 0));
  }

  lemma TailRead(data: Bytes, i: nat, s: Snapshot)
    requires Int64(s.index) && Int64(s.term) && i <= |data| < TWO63 && data[i..] == EncodeAll(TailFields(s))
    ensures UnmarshalFrom(SNAPSHOT, data, i, s.(index := 0, term := 0)) == Parsed(s, NoError)
  {
    var fs := TailFields(s);
    var t := s.(index := 0, term := 0);
    OrZero(s.index);
    OrZero(s.term);
    AssignNext(SNAPSHOT, t, fs, 0, s.(term := 0));
    AssignNext(SNAPSHOT, s.(term := 0), fs, 1, s);
    AssignDone(SNAPSHOT, s, fs);
    FieldsReadBack(SNAPSHOT, data, i, |data|, fs, t, s);
  }

  lemma SnapshotReadBack(s: Snapshot)
    requires SnapshotFits(s) && NoNegative(s.nodes)
    ensures UnmarshalFrom(SNAPSHOT, EncodeSnapshot(s), 0, EMPTY_SNAPSHOT) == Parsed(s, NoError)
  {
    var data := EncodeSnapshot(s);
    var head := EncodeField(BytesField(1, s.data)) + EncodeNodes(s.nodes);
    assert data == head + EncodeAll(TailFields(s));
    assert data[..|head|] == head && data[|head|..] == EncodeAll(TailFields(s));
    DataAndNodesRead(data, |head|, s.data, s.nodes);
    TailRead(data, |head|, s);
  }

  lemma SmallNode(t: Snapshot, v: nat)
    requires v < TWO63
    ensures AssignSnapshot(t, VarintField(2, v), true) == Parsed(t.(nodes := t.nodes + [v]), NoError)
  {
  }

  // A cut-off node id reads as some non-negative number.
  lemma CutNodeReads(data: Bytes, p: nat) returns (v: nat, next: nat)
    requires p + 2 < |data| && data[p] == 0x10 && data[p + 2] < 0x20
    ensures ReadField(SNAPSHOT.schema, data, p) == GotField(VarintField(2, v), next) && v < TWO63
  {
    KeyReadBack(data, p);
    if data[p + 1] < 128 {
      KeyReadBack(data, p + 1);
      return data[p + 1] as int, p + 2;
    }
    var d := data[p + 1] as int % 128;
    var c := data[p + 2] as int;
    assert Pow2(0) == 1;
    Pow2Step(0);
    ReadStep(data, p + 1, 0, 0, d);
    ReadStep(data, p + 2, 7, d, c);
    return d + c * 128, p + 3;
  }

  lemma {:induction false} NodesOnlyGrow(data: Bytes, i: nat, t: Snapshot)
    ensures t.nodes <= UnmarshalFrom(SNAPSHOT, data, i, t).value.nodes
    decreases |data| - i
  {
    if i < |data| {
      var r := ReadField(SNAPSHOT.schema, data, i);
      if r.GotField? {
        NodesOnlyGrow(data, r.next, AssignSnapshot(t, r.field, true).value);
      }
    }
  }

  lemma {:induction false} EncodeNodesSplit(a: seq<int>, b: seq<int>)
    ensures EncodeNodes(a + b) == EncodeNodes(a) + EncodeNodes(b)
  {
    if a == [] {
      assert a + b == b;
    } else {
      assert (a + b)[1..] == a[1..] + b;
      EncodeNodesSplit(a[1..], b);
    }
  }

  // Up to the first negative id everything reads back; that id reads as something else.
  lemma NegativeNodeLost(s: Snapshot, k: nat)
    requires SnapshotFits(s) && k < |s.nodes| && s.nodes[k] < 0 && NoNegative(s.nodes[..k])
    ensures UnmarshalFrom(SNAPSHOT, EncodeSnapshot(s), 0, EMPTY_SNAPSHOT).value != s
  {
    var data := EncodeSnapshot(s);
    var head := EncodeField(BytesField(1, s.data)) + EncodeNodes(s.nodes[..k]);
    var p := |head|;
    EncodeNodesAt(s, k);
    DataAndNodesRead(data, p, s.data, s.nodes[..k]);
    var t := Snapshot(s.data, s.nodes[..k], 0, 0);
    var v, next := CutNodeReads(data, p);
    var u := t.(nodes := t.nodes + [v]);
    SmallNode(t, v);
    GotStep(SNAPSHOT, data, p, VarintField(2, v), next, t, u);
    NodesOnlyGrow(data, next, u);
    assert u.nodes[k] == v;
  }

  lemma EncodeNodesAt(s: Snapshot, k: nat)
    requires SnapshotFits(s) && k < |s.nodes| && s.nodes[k] < 0
    ensures var data := EncodeSnapshot(s);
            var head := EncodeField(BytesField(1, s.data)) + EncodeNodes(s.nodes[..k]);
            && |s.data| <= |head| && |head| + 2 < |data| && data[..|head|] == head
            && data[|head|] == 0x10 && data[|head| + 2] < 0x20
  {
    NodesAround(s.nodes, k);
    var more := EncodeNodes(s.nodes[k + 1..]);
    var data := EncodeField(BytesField(1, s.data));
    var tail := EncodeAll(TailFields(s));
    assert |NodeBytes(s.nodes[k])| == 1;
    assert (more + tail)[0] < 0x20;
    Regroup(data, EncodeNodes(s.nodes[..k]), [0x10] + NodeBytes(s.nodes[k]), more, tail);
  }

  lemma Regroup(a: Bytes, b: Bytes, c: Bytes, d: Bytes, e: Bytes)
    requires |c| == 2
    ensures var s := a + (b + c + d) + e;
            var p := |a + b|;
            |s| == p + 2 + |d + e| && s[..p] == a + b && s[p] == c[0] && forall k :: 0 <= k < |d + e| ==>
              s[p + 2 + k] == (d + e)[k]
  {
    assert a + (b + c + d) + e == (a + b) + c + (d + e);
  }

  lemma NodesAround(nodes: seq<int>, k: nat)
    requires k < |nodes|
    ensures EncodeNodes(nodes) == EncodeNodes(nodes[..k]) + ([0x10] + NodeBytes(nodes[k])) + EncodeNodes(nodes[k + 1..])
  {
    var rest := nodes[k..];
    assert nodes == nodes[..k] + rest;
    EncodeNodesSplit(nodes[..k], rest);
    assert rest[0] == nodes[k] && rest[1..] == nodes[k + 1..];
    Assoc(EncodeNodes(nodes[..k]), [0x10] + NodeBytes(nodes[k]), EncodeNodes(nodes[k + 1..]));
  }

  /** A snapshot survives the round trip exactly when no node id is negative. */
  lemma SnapshotRoundTrip(s: Snapshot)
    requires SnapshotFits(s)
    ensures UnmarshalFrom(SNAPSHOT, EncodeSnapshot(s), 0, EMPTY_SNAPSHOT) == Parsed(s, NoError) <==> NoNegative(s.nodes)
  {
    if NoNegative(s.nodes) {
      SnapshotReadBack(s);
    } else {
      var k := FirstNegative(s.nodes);
      NegativeNodeLost(s, k);
    }
  }

  lemma NegativeNodeExample()
    ensures var s := Snapshot([], [-1], 0, 0);
            SnapshotFits(s) && UnmarshalFrom(SNAPSHOT, EncodeSnapshot(s), 0, EMPTY_SNAPSHOT) != Parsed(s, NoError)
  {
    var s := Snapshot([], [-1], 0, 0);
    var fs := TailFields(s);
    VarintsShort(fs);
    assert EncodeNodes(s.nodes) == [0x10] + NodeBytes(-1) + EncodeNodes([]);
    SnapshotRoundTrip(s);
    assert s.nodes[0] < 0;
  }

  lemma {:induction false} FirstNegative(nodes: seq<int>) returns (k: nat)
    requires !NoNegative(nodes)
    ensures k < |nodes| && nodes[k] < 0 && NoNegative(nodes[..k])
  {
    k := 0;
    while nodes[k] >= 0
      invariant k < |nodes| && forall j :: 0 <= j < k ==> nodes[j] >= 0
      decreases |nodes| - k
    {
      k := k + 1;
    }
  }

  // ---- Message (raft.proto, message Message) ----

  const ZERO_MESSAGE := Message(0, 0, 0, 0, 0, 0, [], 0, EMPTY_SNAPSHOT, false)

  predicate MessageInts(m: Message) {
    && Int64(m.typ) && Int64(m.to) && Int64(m.from) && Int64(m.term) && Int64(m.logTerm) && Int64(m.index)
    && Int64(m.commit)
    && forall k :: 0 <= k < |m.entries| ==> EntryInts(m.entries[k])
  }

  function NumberFields(m: Message): seq<Field>
    requires MessageInts(m)
  {
    [VarintField(1, ToWord(m.typ)), VarintField(2, ToWord(m.to)), VarintField(3, ToWord(m.from)),
     VarintField(4, ToWord(m.term)), VarintField(5, ToWord(m.logTerm)), VarintField(6, ToWord(m.index))]
  }

  function EntriesFields(es: seq<Entry>): (fs: seq<Field>)
    requires forall k :: 0 <= k < |es| ==> EntryInts(es[k])
    ensures |fs| == |es| && forall k :: 0 <= k < |fs| ==> fs[k] == BytesField(7, EncodeEntry(es[k]))
  {
    seq(|es|, k requires 0 <= k < |es| => BytesField(7, EncodeEntry(es[k])))
  }

  function BodyFields(m: Message): seq<Field>
    requires MessageInts(m)
  {
    NumberFields(m) + EntriesFields(m.entries) + [VarintField(8, ToWord(m.commit))]
  }

  function DeniedField(m: Message): Field {
    VarintField(10, if m.denied then 1 else 0)
  }

  // The snapshot goes behind its Size, whatever MarshalTo then writes.
  function EncodeMessage(m: Message): Bytes
    requires MessageInts(m) && SnapshotInts(m.snapshot)
  {
    EncodeAll(BodyFields(m)) + [0x4a] + Varint(SnapshotSize(m.snapshot)) +
    (EncodeSnapshot(m.snapshot) + EncodeField(DeniedField(m)))
  }

  function MessageSize(m: Message): nat
    requires MessageInts(m) && SnapshotInts(m.snapshot)
  {
    var size := SnapshotSize(m.snapshot);
    |EncodeAll(BodyFields(m))| + 1 + |Varint(size)| + size + 2
  }

  // An error inside an entry is ignored; one inside the snapshot is returned.
  function AssignMessage(m: Message, f: Field, complete: bool): Parsed<Message> {
    match f
    case VarintField(num, v) =>
      Parsed(
        if num == 1 then m.(typ := OrInt64(m.typ, v))
        else if num == 2 then m.(to := OrInt64(m.to, v))
        else if num == 3 then m.(from := OrInt64(m.from, v))
        else if num == 4 then m.(term := OrInt64(m.term, v))
        else if num == 5 then m.(logTerm := OrInt64(m.logTerm, v))
        else if num == 6 then m.(index := OrInt64(m.index, v))
        else if num == 8 then m.(commit := OrInt64(m.commit, v))
        else if complete then m.(denied := v % TWO64 != 0)
        else m, NoError)
    case BytesField(num, bs) =>
      if num == 7 then
        Parsed(m.(entries := m.entries + [UnmarshalFrom(ENTRY, bs, 0, DUMMY_ENTRY).value]), NoError)
      else
        var s := UnmarshalFrom(SNAPSHOT, bs, 0, m.snapshot);
        Parsed(m.(snapshot := s.value), s.status)
  }

  const MESSAGE := Format(
    map[1 := AsVarint, 2 := AsVarint, 3 := AsVarint, 4 := AsVarint, 5 := AsVarint, 6 := AsVarint,
        7 := AsBytes, 8 := AsVarint, 9 := AsBytes, 10 := AsVarint], AssignMessage)

  ghost predicate EntriesFit(es: seq<Entry>) {
    forall k {:trigger EntryFits(es[k])} :: 0 <= k < |es| ==> EntryFits(es[k])
  }

  ghost predicate MessageFits(m: Message) {
    MessageInts(m) && SnapshotInts(m.snapshot) && MessageSize(m) < TWO63 && EntriesFit(m.entries)
  }

  /** MarshalTo writes exactly Size bytes if and only if the snapshot has no negative node id. */
  lemma MessageSizeExact(m: Message)
    requires MessageInts(m) && SnapshotInts(m.snapshot)
    ensures MessageSize(m) == |EncodeMessage(m)| <==> NoNegative(m.snapshot.nodes)
    ensures |EncodeMessage(m)| <= MessageSize(m)
  {
    NodesSizeExact(m.snapshot.nodes);
  }

  lemma AssignNumbers(m: Message)
    requires MessageInts(m)
    ensures AssignAll(MESSAGE, ZERO_MESSAGE, NumberFields(m)) ==
            Parsed(ZERO_MESSAGE.(typ := m.typ, to := m.to, from := m.from, term := m.term, logTerm := m.logTerm,
                                 index := m.index), NoError)
  {
    var fs := NumberFields(m);
    OrZero(m.typ);
    OrZero(m.to);
    OrZero(m.from);
    OrZero(m.term);
    OrZero(m.logTerm);
    OrZero(m.index);
    var m1 := ZERO_MESSAGE.(typ := m.typ);
    var m2 := m1.(to := m.to);
    var m3 := m2.(from := m.from);
    var m4 := m3.(term := m.term);
    var m5 := m4.(logTerm := m.logTerm);
    var m6 := m5.(index := m.index);
    AssignNext(MESSAGE, ZERO_MESSAGE, fs, 0, m1);
    AssignNext(MESSAGE, m1, fs, 1, m2);
    AssignNext(MESSAGE, m2, fs, 2, m3);
    AssignNext(MESSAGE, m3, fs, 3, m4);
    AssignNext(MESSAGE, m4, fs, 4, m5);
    AssignNext(MESSAGE, m5, fs, 5, m6);
    AssignDone(MESSAGE, m6, fs);
  }

  lemma AssignEntry1(m: Message, e: Entry, t: Message)
    requires EntryFits(e) && t == m.(entries := m.entries + [e])
    ensures AssignMessage(m, BytesField(7, EncodeEntry(e)), true) == Parsed(t, NoError)
  {
    EntryRoundTrip(e);
  }

  lemma RestFits(es: seq<Entry>)
    requires es != [] && EntriesFit(es)
    ensures EntriesFit(es[1..])
  {
    var rest := es[1..];
    forall k | 0 <= k < |rest| ensures EntryFits(rest[k]) {
      assert EntryFits(es[k + 1]);
    }
  }

  lemma EntriesHead(m: Message, es: seq<Entry>, t: Message)
    requires es != [] && forall k :: 0 <= k < |es| ==> EntryInts(es[k])
    requires EntryFits(es[0]) && t == m.(entries := m.entries + [es[0]])
    ensures AssignAll(MESSAGE, m, EntriesFields(es)) == AssignAll(MESSAGE, t, EntriesFields(es[1..]))
  {
    var fs := EntriesFields(es);
    AssignEntry1(m, es[0], t);
    AssignNext(MESSAGE, m, fs, 0, t);
    assert fs[0..] == fs && fs[1..] == EntriesFields(es[1..]);
  }

  lemma {:induction false} AssignEntries(m: Message, es: seq<Entry>, u: Message)
    requires forall k :: 0 <= k < |es| ==> EntryInts(es[k])
    requires EntriesFit(es) && u == m.(entries := m.entries + es)
    ensures AssignAll(MESSAGE, m, EntriesFields(es)) == Parsed(u, NoError)
    decreases |es|
  {
    if es == [] {
      assert u == m;
    } else {
      var rest := es[1..];
      var t := m.(entries := m.entries + [es[0]]);
      assert EntryFits(es[0]);
      EntriesHead(m, es, t);
      RestFits(es);
      MoveHead(m.entries, es);
      AssignEntries(t, rest, u);
    }
  }

  lemma AssignCommit(m: Message, t: Message, u: Message)
    requires MessageInts(m) && t.commit == 0 && u == t.(commit := m.commit)
    ensures AssignAll(MESSAGE, t, [VarintField(8, ToWord(m.commit))]) == Parsed(u, NoError)
  {
    OrZero(m.commit);
  }

  lemma AssignBody(m: Message)
    requires MessageFits(m)
    ensures AssignAll(MESSAGE, ZERO_MESSAGE, BodyFields(m)) ==
            Parsed(m.(snapshot := EMPTY_SNAPSHOT, denied := false), NoError)
  {
    var fs, es, c := NumberFields(m), EntriesFields(m.entries), [VarintField(8, ToWord(m.commit))];
    var m1 := m.(entries := [], commit := 0, snapshot := EMPTY_SNAPSHOT, denied := false);
    var m2 := m1.(entries := m.entries);
    var m3 := m2.(commit := m.commit);
    AssignNumbers(m);
    assert m1.entries + m.entries == m.entries;
    AssignEntries(m1, m.entries, m2);
    AssignCommit(m, m2, m3);
    AssignAllSplit(MESSAGE, ZERO_MESSAGE, fs, es);
    AssignAllSplit(MESSAGE, ZERO_MESSAGE, fs + es, c);
  }

  lemma EntriesWithin(fs: seq<Field>, es: seq<Entry>, gs: seq<Field>)
    requires forall k :: 0 <= k < |es| ==> EntryInts(es[k])
    requires EntriesFit(es)
    requires AllFit(MESSAGE.schema, fs) && AllFit(MESSAGE.schema, gs)
    ensures AllFit(MESSAGE.schema, fs + EntriesFields(es) + gs)
  {
    var all := fs + EntriesFields(es) + gs;
    forall k | 0 <= k < |all| ensures FieldFits(MESSAGE.schema, all[k]) {
      if k < |fs| {
        assert all[k] == fs[k];
      } else if k < |fs| + |es| {
        assert EntryFits(es[k - |fs|]);
        assert all[k] == BytesField(7, EncodeEntry(es[k - |fs|]));
      } else {
        assert all[k] == gs[k - |fs| - |es|];
      }
    }
  }

  lemma BodyFits(m: Message)
    requires MessageFits(m)
    ensures AllFit(MESSAGE.schema, BodyFields(m))
  {
    NumbersFit(m);
    EntriesWithin(NumberFields(m), m.entries, [VarintField(8, ToWord(m.commit))]);
  }

  lemma NumbersFit(m: Message)
    requires MessageInts(m)
    ensures AllFit(MESSAGE.schema, NumberFields(m)) && AllFit(MESSAGE.schema, [VarintField(8, ToWord(m.commit))])
  {
  }

  lemma BodyRead(data: Bytes, end: nat, m: Message, t: Message)
    requires MessageFits(m) && t == m.(snapshot := EMPTY_SNAPSHOT, denied := false)
    requires end <= |data| < TWO63 && data[0..end] == EncodeAll(BodyFields(m))
    ensures UnmarshalFrom(MESSAGE, data, 0, ZERO_MESSAGE) == UnmarshalFrom(MESSAGE, data, end, t)
  {
    BodyFits(m);
    AssignBody(m);
    FieldsReadBack(MESSAGE, data, 0, end, BodyFields(m), ZERO_MESSAGE, t);
  }

  function SnapshotField(m: Message): Field
    requires SnapshotInts(m.snapshot)
  {
    BytesField(9, EncodeSnapshot(m.snapshot))
  }

  lemma AssignSnapshotField(m: Message, t: Message, u: Message)
    requires SnapshotFits(m.snapshot) && NoNegative(m.snapshot.nodes)
    requires t.snapshot == EMPTY_SNAPSHOT && u == t.(snapshot := m.snapshot)
    ensures AssignMessage(t, SnapshotField(m), true) == Parsed(u, NoError)
  {
    SnapshotReadBack(m.snapshot);
  }

  lemma AssignDenied(m: Message, t: Message)
    requires t == m.(denied := false)
    ensures AssignMessage(t, DeniedField(m), true) == Parsed(m, NoError)
  {
  }

  lemma AssignLast(m: Message, t: Message)
    requires SnapshotFits(m.snapshot) && NoNegative(m.snapshot.nodes)
    requires t == m.(snapshot := EMPTY_SNAPSHOT, denied := false)
    ensures AssignAll(MESSAGE, t, [SnapshotField(m), DeniedField(m)]) == Parsed(m, NoError)
  {
    var fs := [SnapshotField(m), DeniedField(m)];
    var u := m.(denied := false);
    AssignSnapshotField(m, t, u);
    AssignDenied(m, u);
    AssignNext(MESSAGE, t, fs, 0, u);
    AssignNext(MESSAGE, u, fs, 1, m);
    AssignDone(MESSAGE, m, fs);
  }

  // Where the pieces of an encoded message stand.
  lemma MessageLayout(m: Message) returns (data: Bytes, p: nat, head: Bytes, q: nat)
    requires MessageFits(m)
    ensures data == EncodeMessage(m) && |data| < TWO63
    ensures head == Varint(SnapshotSize(m.snapshot)) && q == p + 1 + |head| && q + SnapshotSize(m.snapshot) < TWO63
    ensures p < q < |data| && data[0..p] == EncodeAll(BodyFields(m))
    ensures data[p] == 0x4a && data[p + 1..q] == head
    ensures data[q..] == EncodeSnapshot(m.snapshot) + EncodeField(DeniedField(m))
    ensures |data| == q + |EncodeSnapshot(m.snapshot)| + 2
  {
    MessageSizeExact(m);
    data := EncodeMessage(m);
    var body := EncodeAll(BodyFields(m));
    head := Varint(SnapshotSize(m.snapshot));
    p := |body|;
    q := p + 1 + |head|;
    Pieces(body, 0x4a, head, EncodeSnapshot(m.snapshot) + EncodeField(DeniedField(m)));
  }

  lemma LastAt(data: Bytes, p: nat, head: Bytes, q: nat, m: Message)
    requires SnapshotInts(m.snapshot) && NoNegative(m.snapshot.nodes)
    requires head == Varint(SnapshotSize(m.snapshot)) && q == p + 1 + |head| <= |data|
    requires data[p] == 0x4a && data[p + 1..q] == head
    requires data[q..] == EncodeSnapshot(m.snapshot) + EncodeField(DeniedField(m))
    ensures data[p..|data|] == EncodeAll([SnapshotField(m), DeniedField(m)])
  {
    SnapshotSizeExact(m.snapshot);
    LastEncodes(m);
    Reassemble(data, p, 0x4a, head, EncodeSnapshot(m.snapshot) + EncodeField(DeniedField(m)));
  }

  lemma LastRead(data: Bytes, p: nat, m: Message, t: Message)
    requires SnapshotFits(m.snapshot) && NoNegative(m.snapshot.nodes) && p <= |data| < TWO63
    requires data[p..|data|] == EncodeAll([SnapshotField(m), DeniedField(m)])
    requires t == m.(snapshot := EMPTY_SNAPSHOT, denied := false)
    ensures UnmarshalFrom(MESSAGE, data, p, t) == Parsed(m, NoError)
  {
    AssignLast(m, t);
    LastFits(m);
    FieldsReadBack(MESSAGE, data, p, |data|, [SnapshotField(m), DeniedField(m)], t, m);
  }

  lemma MessageReadBack(m: Message)
    requires MessageFits(m) && NoNegative(m.snapshot.nodes)
    ensures UnmarshalFrom(MESSAGE, EncodeMessage(m), 0, ZERO_MESSAGE) == Parsed(m, NoError)
  {
    var data, p, head, q := MessageLayout(m);
    var t := m.(snapshot := EMPTY_SNAPSHOT, denied := false);
    BodyRead(data, p, m, t);
    LastAt(data, p, head, q, m);
    LastRead(data, p, m, t);
  }

  lemma LastEncodes(m: Message)
    requires SnapshotInts(m.snapshot)
    ensures EncodeAll([SnapshotField(m), DeniedField(m)]) ==
            [0x4a] + Varint(|EncodeSnapshot(m.snapshot)|) + (EncodeSnapshot(m.snapshot) + EncodeField(DeniedField(m)))
  {
    EncodePair(SnapshotField(m), DeniedField(m));
  }

  lemma EncodePair(f: Field, g: Field)
    requires 1 <= f.num < 16 && 1 <= g.num < 16 && f.BytesField?
    ensures EncodeAll([f, g]) == [Tag(f)] + Varint(|f.bytes|) + (f.bytes + EncodeField(g))
  {
    var fs := [f, g];
    assert fs[1..] == [g] && fs[1..][1..] == [];
    assert EncodeAll(fs[1..]) == EncodeField(g);
  }

  lemma LastFits(m: Message)
    requires SnapshotFits(m.snapshot)
    ensures AllFit(MESSAGE.schema, [SnapshotField(m), DeniedField(m)])
  {
  }

  lemma SizeRunsOver(s: Snapshot)
    requires SnapshotInts(s) && !NoNegative(s.nodes)
    ensures SnapshotSize(s) >= |EncodeSnapshot(s)| + 9
  {
    NodesSizeExact(s.nodes);
  }

  // The size announced for the snapshot then runs past the end of the buffer.
  lemma NegativeNodeFails(m: Message)
    requires MessageFits(m) && !NoNegative(m.snapshot.nodes)
    ensures UnmarshalFrom(MESSAGE, EncodeMessage(m), 0, ZERO_MESSAGE).status == Failed(UnexpectedEOF)
  {
    var data, p, head, q := MessageLayout(m);
    var size := SnapshotSize(m.snapshot);
    SizeRunsOver(m.snapshot);
    var t := m.(snapshot := EMPTY_SNAPSHOT, denied := false);
    BodyRead(data, p, m, t);
    OverlongMessage(data, p, q, size, head, t);
  }

  lemma OverlongMessage(data: Bytes, p: nat, q: nat, size: nat, head: Bytes, t: Message)
    requires head == Varint(size) && q == p + 1 + |head| <= |data| < q + size < TWO63
    requires data[p] == 0x4a && data[p + 1..q] == head
    ensures UnmarshalFrom(MESSAGE, data, p, t) == Parsed(t, Failed(UnexpectedEOF))
  {
    VarintRoundTrip(data, p + 1, size);
    OverlongFails(data, p, q, size);
    BadStep(MESSAGE, data, p, UnexpectedEOF, t);
  }

  lemma OverlongFails(data: Bytes, p: nat, q: nat, size: nat)
    requires p < |data| && data[p] == 0x4a && ReadVarint(data, p + 1, 0, 0) == GotVarint(size, q)
    requires |data| < q + size < TWO63
    ensures ReadField(MESSAGE.schema, data, p) == BadField(UnexpectedEOF)
  {
    KeyOfField(MESSAGE.schema, data, p, BytesField(9, []));
  }

  /** A message survives the round trip exactly when its snapshot has no negative node id. */
  lemma MessageRoundTrip(m: Message)
    requires MessageFits(m)
    ensures UnmarshalFrom(MESSAGE, EncodeMessage(m), 0, ZERO_MESSAGE) == Parsed(m, NoError) <==>
            NoNegative(m.snapshot.nodes)
  {
    if NoNegative(m.snapshot.nodes) {
      MessageReadBack(m);
    } else {
      NegativeNodeFails(m);
    }
  }
}
