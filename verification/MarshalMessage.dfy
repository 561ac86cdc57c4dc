/** Size and MarshalTo of snapshots and messages. */
module MessageMarshalling {
  import opened Collections
  import opened RaftTypes
  import opened Wire
  import opened Unmarshalling
  import opened RaftCodec
  import opened MessageCodec
  import opened WireBytes
  import opened Marshalling

  // ---- Snapshot ----

  lemma NodeStep(done: Bytes, rest: int, b: byte, num: int)
    requires rest >= 128 && b as int == rest % 128 + 128 && done + NodeBytes(rest) == NodeBytes(num)
    ensures done + [b] + NodeBytes(rest / 128) == NodeBytes(num)
  {
    Assoc(done, [b], NodeBytes(rest / 128));
  }

  // Writes one node id: the varint loop on a signed number.
  method PutNode(buf: array<byte>, offset: nat, num: int) returns (next: nat)
    requires offset + |NodeBytes(num)| <= buf.Length
    modifies buf
    ensures next == offset + |NodeBytes(num)| && Wrote(old(buf[..]), buf[..], offset, NodeBytes(num))
  {
    var rest := num;
    next := offset;
    ghost var was, done: Bytes := buf[..], [];
    WroteNothing(was, offset);
    while rest >= 128
      invariant done + NodeBytes(rest) == NodeBytes(num) && next == offset + |done|
      invariant Wrote(was, buf[..], offset, done)
    {
      var b := (rest % 128 + 128) as byte;
      NodeStep(done, rest, b, num);
      next := PutNextByte(buf, next, b, was, offset, done);
      done := done + [b];
      rest := rest / 128;
    }
    next := PutNextByte(buf, next, (rest % 256) as byte, was, offset, done);
  }

  lemma NodesStep(nodes: seq<int>, k: nat)
    requires k < |nodes|
    ensures EncodeNodes(nodes[..k + 1]) == EncodeNodes(nodes[..k]) + ([0x10] + NodeBytes(nodes[k]))
    ensures |EncodeNodes(nodes[..k + 1])| <= |EncodeNodes(nodes)|
  {
    CutAt(nodes, k);
    CutAt(nodes, k + 1);
    EncodeNodesSplit(nodes[..k], [nodes[k]]);
    EncodeNodesSplit(nodes[..k + 1], nodes[k + 1..]);
    assert EncodeNodes([nodes[k]]) == [0x10] + NodeBytes(nodes[k]) + EncodeNodes([]);
  }

  method PutNodes(buf: array<byte>, start: nat, nodes: seq<int>) returns (i: nat)
    requires start + |EncodeNodes(nodes)| <= buf.Length
    modifies buf
    ensures i == start + |EncodeNodes(nodes)| && Wrote(old(buf[..]), buf[..], start, EncodeNodes(nodes))
  {
    i := start;
    ghost var was := buf[..];
    WroteNothing(was, start);
    for k := 0 to |nodes|
      invariant i == start + |EncodeNodes(nodes[..k])| && Wrote(was, buf[..], start, EncodeNodes(nodes[..k]))
    {
      NodesStep(nodes, k);
      i := PutTaggedNode(buf, i, nodes[k], was, start, EncodeNodes(nodes[..k]));
    }
    CutAt(nodes, |nodes|);
  }

  method PutTaggedNode(buf: array<byte>, i: nat, num: int, ghost was: Bytes, ghost start: nat, ghost done: Bytes)
    returns (next: nat)
    requires i == start + |done| && i + 1 + |NodeBytes(num)| <= buf.Length && Wrote(was, buf[..], start, done)
    modifies buf
    ensures next == i + 1 + |NodeBytes(num)| && Wrote(was, buf[..], start, done + ([0x10] + NodeBytes(num)))
  {
    ghost var a := buf[..];
    next := PutByte(buf, i, 0x10);
    ghost var b := buf[..];
    next := PutNode(buf, next, num);
    WroteThen(a, b, buf[..], i, [0x10], NodeBytes(num));
    WroteThen(was, a, buf[..], start, done, [0x10] + NodeBytes(num));
  }

  method PutNextNodes(buf: array<byte>, i: nat, nodes: seq<int>, ghost was: Bytes, ghost start: nat, ghost done: Bytes)
    returns (next: nat)
    requires i == start + |done| && i + |EncodeNodes(nodes)| <= buf.Length && Wrote(was, buf[..], start, done)
    modifies buf
    ensures next == i + |EncodeNodes(nodes)| && Wrote(was, buf[..], start, done + EncodeNodes(nodes))
  {
    ghost var now := buf[..];
    next := PutNodes(buf, i, nodes);
    WroteThen(was, now, buf[..], start, done, EncodeNodes(nodes));
  }

  method PutNextTwo(buf: array<byte>, i: nat, f: Field, g: Field, ghost was: Bytes, ghost start: nat, ghost done: Bytes)
    returns (next: nat)
    requires 1 <= f.num < 16 && 1 <= g.num < 16
    requires i == start + |done| && i + |EncodeAll([f, g])| <= buf.Length && Wrote(was, buf[..], start, done)
    modifies buf
    ensures next == i + |EncodeAll([f, g])| && Wrote(was, buf[..], start, done + EncodeAll([f, g]))
  {
    ghost var now := buf[..];
    next := PutTwo(buf, i, f, g);
    WroteThen(was, now, buf[..], start, done, EncodeAll([f, g]));
  }

  /** Snapshot.MarshalTo. */
  method MarshalSnapshot(buf: array<byte>, start: nat, s: Snapshot) returns (i: nat)
    requires SnapshotInts(s) && start + |EncodeSnapshot(s)| <= buf.Length
    modifies buf
    ensures i == start + |EncodeSnapshot(s)| && Wrote(old(buf[..]), buf[..], start, EncodeSnapshot(s))
    ensures Wrote(old(buf[..]), buf[..], start, SnapshotBytes(s))
  {
    SnapshotOnWire(s);
    var f := BytesField(1, s.data);
    ghost var was, x, y := buf[..], EncodeField(f), EncodeNodes(s.nodes);
    i := PutField(buf, start, f);
    i := PutNextNodes(buf, i, s.nodes, was, start, x);
    i := PutNextTwo(buf, i, VarintField(3, ToWord(s.index)), VarintField(4, ToWord(s.term)), was, start, x + y);
  }

  // The same, for what is written around it.
  method PutSnapshot(buf: array<byte>, start: nat, s: Snapshot) returns (i: nat)
    requires SnapshotInts(s) && start + |EncodeSnapshot(s)| <= buf.Length
    modifies buf
    ensures i == start + |EncodeSnapshot(s)| && Wrote(old(buf[..]), buf[..], start, EncodeSnapshot(s))
  {
    i := MarshalSnapshot(buf, start, s);
  }

  method SizeNodes(nodes: seq<int>) returns (n: nat)
    requires forall k :: 0 <= k < |nodes| ==> Int64(nodes[k])
    ensures n == NodesSize(nodes)
  {
    n := 0;
    for k := 0 to |nodes|
      invariant n + NodesSize(nodes[k..]) == NodesSize(nodes)
    {
      var l := SizeOfVarint(ToWord(nodes[k]));
      assert nodes[k..][1..] == nodes[k + 1..];
      n := n + (1 + l);
    }
  }

  /** Snapshot.Size. */
  method SizeSnapshot(s: Snapshot) returns (n: nat)
    requires SnapshotInts(s)
    ensures n == SnapshotSize(s)
  {
    var l := SizeOfVarint(|s.data|);
    n := 1 + |s.data| + l;
    var m := SizeNodes(s.nodes);
    var u := SizeOfVarint(ToWord(s.index));
    var v := SizeOfVarint(ToWord(s.term));
    n := n + m + (1 + u) + (1 + v);
    EncodeTwo(VarintField(3, ToWord(s.index)), VarintField(4, ToWord(s.term)));
  }

  // ---- Message ----

  // Writes a tag, the announced size and the entry itself.
  method PutEntry(buf: array<byte>, i: nat, e: Entry) returns (next: nat)
    requires EntryInts(e) && i + |EncodeField(BytesField(7, EncodeEntry(e)))| <= buf.Length
    modifies buf
    ensures var bs := EncodeField(BytesField(7, EncodeEntry(e)));
            next == i + |bs| && Wrote(old(buf[..]), buf[..], i, bs)
  {
    ghost var a, enc := buf[..], EncodeEntry(e);
    next := PutByte(buf, i, 0x3a);
    var size := SizeEntry(e);
    next := PutNextVarint(buf, next, size, a, i, [0x3a]);
    ghost var c := buf[..];
    next := MarshalEntry(buf, next, e);
    WroteThen(a, c, buf[..], i, [0x3a] + Varint(size), enc);
  }

  lemma EntriesStep(es: seq<Entry>, k: nat)
    requires k < |es| && forall j :: 0 <= j < |es| ==> EntryInts(es[j])
    ensures EncodeAll(EntriesFields(es[..k + 1])) ==
            EncodeAll(EntriesFields(es[..k])) + EncodeField(BytesField(7, EncodeEntry(es[k])))
    ensures |EncodeAll(EntriesFields(es[..k + 1]))| <= |EncodeAll(EntriesFields(es))|
  {
    var fs := EntriesFields(es);
    assert EntriesFields(es[..k]) == fs[..k] && EntriesFields(es[..k + 1]) == fs[..k + 1];
    ListStep(fs, k);
  }

  lemma ListStep(fs: seq<Field>, k: nat)
    requires k < |fs| && forall j :: 0 <= j < |fs| ==> 1 <= fs[j].num < 16
    ensures EncodeAll(fs[..k + 1]) == EncodeAll(fs[..k]) + EncodeField(fs[k])
    ensures |EncodeAll(fs[..k + 1])| <= |EncodeAll(fs)|
  {
    CutAt(fs, k);
    CutAt(fs, k + 1);
    EncodeAllSplit(fs[..k], [fs[k]]);
    EncodeAllSplit(fs[..k + 1], fs[k + 1..]);
    EncodeOne(fs[k]);
  }

  method PutNextEntry(buf: array<byte>, i: nat, e: Entry, ghost was: Bytes, ghost start: nat, ghost done: Bytes,
                      ghost bs: Bytes)
    returns (next: nat)
    requires EntryInts(e) && bs == EncodeField(BytesField(7, EncodeEntry(e)))
    requires i == start + |done| && i + |bs| <= buf.Length && Wrote(was, buf[..], start, done)
    modifies buf
    ensures next == i + |bs| && Wrote(was, buf[..], start, done + bs)
  {
    ghost var now := buf[..];
    next := PutEntry(buf, i, e);
    WroteThen(was, now, buf[..], start, done, bs);
  }

  method PutEntries(buf: array<byte>, start: nat, es: seq<Entry>) returns (i: nat)
    requires forall j :: 0 <= j < |es| ==> EntryInts(es[j])
    requires start + |EncodeAll(EntriesFields(es))| <= buf.Length
    modifies buf
    ensures var bs := EncodeAll(EntriesFields(es));
            i == start + |bs| && Wrote(old(buf[..]), buf[..], start, bs)
  {
    i := start;
    ghost var was := buf[..];
    ghost var done := EncodeAll(EntriesFields(es[..0]));
    WroteNothing(was, start);
    for k := 0 to |es|
      invariant done == EncodeAll(EntriesFields(es[..k])) && i == start + |done|
      invariant Wrote(was, buf[..], start, done)
    {
      EntriesStep(es, k);
      ghost var bs := EncodeField(BytesField(7, EncodeEntry(es[k])));
      i := PutNextEntry(buf, i, es[k], was, start, done, bs);
      done := done + bs;
    }
    CutAt(es, |es|);
  }

  method PutNextEntries(buf: array<byte>, i: nat, es: seq<Entry>, ghost was: Bytes, ghost start: nat, ghost done: Bytes)
    returns (next: nat)
    requires forall j :: 0 <= j < |es| ==> EntryInts(es[j])
    requires i == start + |done| && i + |EncodeAll(EntriesFields(es))| <= buf.Length && Wrote(was, buf[..], start, done)
    modifies buf
    ensures next == i + |EncodeAll(EntriesFields(es))|
    ensures Wrote(was, buf[..], start, done + EncodeAll(EntriesFields(es)))
  {
    ghost var now := buf[..];
    next := PutEntries(buf, i, es);
    WroteThen(was, now, buf[..], start, done, EncodeAll(EntriesFields(es)));
  }

  method PutSix(buf: array<byte>, start: nat, f1: Field, f2: Field, f3: Field, f4: Field, f5: Field, f6: Field)
    returns (i: nat)
    requires 1 <= f1.num < 16 && 1 <= f2.num < 16 && 1 <= f3.num < 16
    requires 1 <= f4.num < 16 && 1 <= f5.num < 16 && 1 <= f6.num < 16
    requires start + |EncodeAll([f1, f2, f3])| + |EncodeAll([f4, f5, f6])| <= buf.Length
    modifies buf
    ensures i == start + |EncodeAll([f1, f2, f3]) + EncodeAll([f4, f5, f6])|
    ensures Wrote(old(buf[..]), buf[..], start, EncodeAll([f1, f2, f3]) + EncodeAll([f4, f5, f6]))
  {
    ghost var a := buf[..];
    i := PutThree(buf, start, f1, f2, f3);
    ghost var b := buf[..];
    i := PutThree(buf, i, f4, f5, f6);
    WroteThen(a, b, buf[..], start, EncodeAll([f1, f2, f3]), EncodeAll([f4, f5, f6]));
  }

  method PutNumbers(buf: array<byte>, start: nat, m: Message) returns (i: nat)
    requires MessageInts(m) && start + |EncodeAll(NumberFields(m))| <= buf.Length
    modifies buf
    ensures i == start + |EncodeAll(NumberFields(m))| && Wrote(old(buf[..]), buf[..], start, EncodeAll(NumberFields(m)))
  {
    NumbersSplit(m);
    var f1, f2, f3 := VarintField(1, ToWord(m.typ)), VarintField(2, ToWord(m.to)), VarintField(3, ToWord(m.from));
    var f4, f5, f6 :=
      VarintField(4, ToWord(m.term)), VarintField(5, ToWord(m.logTerm)), VarintField(6, ToWord(m.index));
    assert NumberFields(m)[..3] == [f1, f2, f3] && NumberFields(m)[3..] == [f4, f5, f6];
    i := PutSix(buf, start, f1, f2, f3, f4, f5, f6);
  }

  method PutBody(buf: array<byte>, start: nat, m: Message) returns (i: nat)
    requires MessageInts(m) && start + |EncodeAll(BodyFields(m))| <= buf.Length
    modifies buf
    ensures i == start + |EncodeAll(BodyFields(m))| && Wrote(old(buf[..]), buf[..], start, EncodeAll(BodyFields(m)))
  {
    BodySplit(m);
    ghost var a, x, y := buf[..], EncodeAll(NumberFields(m)), EncodeAll(EntriesFields(m.entries));
    i := PutNumbers(buf, start, m);
    i := PutNextEntries(buf, i, m.entries, a, start, x);
    i := PutNext(buf, i, VarintField(8, ToWord(m.commit)), a, start, x + y);
  }

  // The snapshot behind its announced size, then the flag.
  method PutLast(buf: array<byte>, start: nat, m: Message, ghost head: Bytes, ghost last: Bytes) returns (i: nat)
    requires SnapshotInts(m.snapshot) && head == [0x4a] + Varint(SnapshotSize(m.snapshot))
    requires last == EncodeSnapshot(m.snapshot) + EncodeField(DeniedField(m)) && start + |head| + |last| <= buf.Length
    modifies buf
    ensures i == start + |head| + |last| && Wrote(old(buf[..]), buf[..], start, head + last)
  {
    ghost var a := buf[..];
    i := PutByte(buf, start, 0x4a);
    var size := SizeSnapshot(m.snapshot);
    i := PutNextVarint(buf, i, size, a, start, [0x4a]);
    ghost var c := buf[..];
    i := PutSnapshot(buf, i, m.snapshot);
    i := PutNext(buf, i, DeniedField(m), c, start + |head|, EncodeSnapshot(m.snapshot));
    WroteThen(a, c, buf[..], start, head, last);
  }

  lemma MessageParts(m: Message) returns (body: Bytes, head: Bytes, last: Bytes)
    requires MessageInts(m) && SnapshotInts(m.snapshot)
    ensures body == EncodeAll(BodyFields(m)) && head == [0x4a] + Varint(SnapshotSize(m.snapshot))
    ensures last == EncodeSnapshot(m.snapshot) + EncodeField(DeniedField(m))
    ensures EncodeMessage(m) == body + (head + last)
  {
    body, head := EncodeAll(BodyFields(m)), [0x4a] + Varint(SnapshotSize(m.snapshot));
    last := EncodeSnapshot(m.snapshot) + EncodeField(DeniedField(m));
    Assoc(body, [0x4a], Varint(SnapshotSize(m.snapshot)));
    Assoc(body, head, last);
  }

  /** Message.MarshalTo. */
  method MarshalMessage(buf: array<byte>, start: nat, m: Message) returns (i: nat)
    requires MessageInts(m) && SnapshotInts(m.snapshot) && start + |EncodeMessage(m)| <= buf.Length
    modifies buf
    ensures i == start + |EncodeMessage(m)| && Wrote(old(buf[..]), buf[..], start, EncodeMessage(m))
    ensures Wrote(old(buf[..]), buf[..], start, MessageBytes(m))
  {
    ghost var a := buf[..];
    ghost var body, head, last := MessageParts(m);
    i := PutBody(buf, start, m);
    ghost var b := buf[..];
    i := PutLast(buf, i, m, head, last);
    WroteThen(a, b, buf[..], start, body, head + last);
    MessageOnWire(m);
  }

  method SizeEntries(es: seq<Entry>) returns (n: nat)
    requires forall j :: 0 <= j < |es| ==> EntryInts(es[j])
    ensures n == |EncodeAll(EntriesFields(es))|
  {
    n := 0;
    for k := 0 to |es|
      invariant n == |EncodeAll(EntriesFields(es[..k]))|
    {
      EntriesStep(es, k);
      var l := SizeEntry(es[k]);
      var v := SizeOfVarint(l);
      n := n + (1 + l + v);
    }
    CutAt(es, |es|);
  }

  lemma NumbersLength(m: Message)
    requires MessageInts(m)
    ensures |EncodeAll(NumberFields(m))| ==
            6 + |Varint(ToWord(m.typ))| + |Varint(ToWord(m.to))| + |Varint(ToWord(m.from))| +
            |Varint(ToWord(m.term))| + |Varint(ToWord(m.logTerm))| + |Varint(ToWord(m.index))|
  {
    NumbersSplit(m);
    var f1, f2, f3 := VarintField(1, ToWord(m.typ)), VarintField(2, ToWord(m.to)), VarintField(3, ToWord(m.from));
    var f4, f5, f6 := VarintField(4, ToWord(m.term)), VarintField(5, ToWord(m.logTerm)),
      VarintField(6, ToWord(m.index));
    assert NumberFields(m)[..3] == [f1, f2, f3] && NumberFields(m)[3..] == [f4, f5, f6];
    EncodeThree(f1, f2, f3);
    EncodeThree(f4, f5, f6);
  }

  /** Message.Size. */
  method SizeMessage(m: Message) returns (n: nat)
    requires MessageInts(m) && SnapshotInts(m.snapshot)
    ensures n == MessageSize(m)
  {
    BodySplit(m);
    NumbersLength(m);
    var a := SizeOfVarint(ToWord(m.typ));
    var b := SizeOfVarint(ToWord(m.to));
    var c := SizeOfVarint(ToWord(m.from));
    var d := SizeOfVarint(ToWord(m.term));
    var e := SizeOfVarint(ToWord(m.logTerm));
    var f := SizeOfVarint(ToWord(m.index));
    n := (1 + a) + (1 + b) + (1 + c) + (1 + d) + (1 + e) + (1 + f);
    var es := SizeEntries(m.entries);
    var g := SizeOfVarint(ToWord(m.commit));
    var l := SizeSnapshot(m.snapshot);
    var h := SizeOfVarint(l);
    n := n + es + (1 + g) + (1 + l + h) + 2;
  }
}
