/** The bytes on the wire, tag by tag: what each format writes is said here without the list of
    its fields, and bytes of that form are what each format reads. */
module WireBytes {
  import opened Collections
  import opened RaftTypes
  import opened Wire
  import opened Unmarshalling
  import opened RaftCodec
  import opened MessageCodec

  // A tag and a number; a tag, a length and that many bytes.
  function Number(tag: byte, x: int): Bytes
    requires Int64(x)
  {
    [tag] + Varint(ToWord(x))
  }

  function Lump(tag: byte, bs: Bytes): Bytes { [tag] + Varint(|bs|) + bs }

  lemma NumberEncodes(num: nat, tag: byte, x: int)
    requires Int64(x) && 1 <= num < 16 && tag as int == 8 * num
    ensures EncodeField(VarintField(num, ToWord(x))) == Number(tag, x)
  {
  }

  lemma LumpEncodes(num: nat, tag: byte, bs: Bytes)
    requires 1 <= num < 16 && tag as int == 8 * num + 2
    ensures EncodeField(BytesField(num, bs)) == Lump(tag, bs)
  {
  }

  // ---- Varints ----

  // Seven bits of each byte, the lowest first.
  function Value(bs: Bytes): nat {
    if bs == [] then 0 else bs[0] as int % 128 + 128 * Value(bs[1..])
  }

  /** A varint holds the number in groups of seven bits, the lowest first and no more of them
      than it takes; the top bit of a byte says that more follow. */
  lemma {:induction false} VarintMeans(v: nat)
    ensures Value(Varint(v)) == v
    ensures forall k :: 0 <= k < |Varint(v)| ==> (Varint(v)[k] >= 128 <==> k + 1 < |Varint(v)|)
    ensures |Varint(v)| > 1 ==> Varint(v)[|Varint(v)| - 1] != 0
    decreases v
  {
    if v >= 128 {
      VarintMeans(v / 128);
      var bs, rest := Varint(v), Varint(v / 128);
      assert bs[1..] == rest;
      assert forall k :: 1 <= k < |bs| ==> bs[k] == rest[k - 1];
    } else {
      assert Varint(v)[1..] == [];
    }
  }

  lemma VarintExample()
    ensures Varint(300) == [0xac, 0x02]
  {
  }

  // ---- Reading a varint, whoever wrote it ----

  lemma {:induction false} PowAdds(s: nat, k: nat)
    ensures Pow2(s + k) == Pow2(s) * Pow2(k)
    decreases k
  {
    if k > 0 {
      PowAdds(s, k - 1);
      assert Pow2(s + k) == 2 * Pow2(s + k - 1);
    }
  }

  lemma Pow64()
    ensures Pow2(8) == 256 && Pow2(63) == TWO63 && Pow2(64) == TWO64
  {
    assert Pow2(4) == 16;
    PowAdds(4, 4);
    PowAdds(8, 8);
    PowAdds(16, 16);
    PowAdds(32, 32);
    assert Pow2(64) == 2 * Pow2(63);
  }

  lemma {:induction false} PowGrows(a: nat, b: nat)
    requires a <= b
    ensures Pow2(a) <= Pow2(b)
    decreases b - a
  {
    if a < b {
      PowGrows(a, b - 1);
    }
  }

  // The same word, whatever multiple of 2^64 is left out before.
  lemma ModAdd(a: nat, b: nat)
    ensures (a % TWO64 + b) % TWO64 == (a + b) % TWO64
  {
    ModMultiple(a % TWO64 + b, a / TWO64);
  }

  lemma ModMultiple(r: nat, q: nat)
    ensures (q * TWO64 + r) % TWO64 == r % TWO64
  {
  }

  // One byte more: its seven bits go above what was read, as far as the word reaches.
  lemma DigitAdds(acc: nat, d: nat, s: nat)
    requires acc < Pow2(s) && acc < TWO64 && d < 128 && s % 7 == 0
    ensures var acc' := Or(acc, ShiftLeft(d, s));
            acc' == (acc + d * Pow2(s)) % TWO64 && acc' < Pow2(s + 7)
  {
    Pow64();
    if s <= 56 {
      LowDigit(acc, d, s);
    } else {
      PowGrows(64, s + 7);
      if s == 63 {
        TopBit(acc, d);
      } else {
        PowAdds(64, s - 64);
        HighDigits(acc, d, Pow2(s - 64));
      }
    }
  }

  lemma LowDigit(acc: nat, d: nat, s: nat)
    requires acc < Pow2(s) && d < 128 && s <= 56
    ensures var acc' := Or(acc, ShiftLeft(d, s));
            acc' == (acc + d * Pow2(s)) % TWO64 && acc' < Pow2(s + 7)
  {
    LowPower(s);
    var p := Pow2(s);
    DigitBound(d, p);
    LowBounds(acc, d * p, p);
    DigitRead(acc, d, s);
  }

  lemma LowPower(s: nat)
    requires s <= 56
    ensures Pow2(s) <= 0x100_0000_0000_0000 && Pow2(s + 7) == 128 * Pow2(s)
  {
    Pow56();
    PowGrows(s, 56);
    Pow2Step(s);
  }

  lemma Pow56()
    ensures Pow2(56) == 0x100_0000_0000_0000
  {
    Pow64();
    PowAdds(56, 8);
  }

  lemma DigitBound(d: nat, p: nat)
    requires d < 128
    ensures d * p <= 127 * p
  {
  }

  lemma LowBounds(acc: nat, x: nat, p: nat)
    requires acc < p <= 0x100_0000_0000_0000 && x <= 127 * p
    ensures x < TWO64 && acc + x < 128 * p && (acc + x) % TWO64 == acc + x
  {
  }

  lemma TopBit(acc: nat, d: nat)
    requires acc < TWO63 && d < 128 && Pow2(63) == TWO63
    ensures Or(acc, ShiftLeft(d, 63)) == (acc + d * TWO63) % TWO64 < TWO64
  {
    var b := d % 2;
    assert d * TWO63 == (d / 2) * TWO64 + b * TWO63;
    ModMultiple(b * TWO63, d / 2);
    ModMultiple(acc + b * TWO63, d / 2);
    assert ShiftLeft(d, 63) == b * TWO63;
    OrDisjoint(acc, b, 63);
  }

  lemma HighDigits(acc: nat, d: nat, p: nat)
    requires acc < TWO64
    ensures (d * (TWO64 * p)) % TWO64 == 0 && (acc + d * (TWO64 * p)) % TWO64 == acc && Or(acc, 0) == acc
  {
    assert d * (TWO64 * p) == (d * p) * TWO64;
    ModMultiple(0, d * p);
    ModMultiple(acc, d * p);
  }

  // Bytes i to j - 1 are a varint: all but the last have their top bit set.
  predicate IsVarint(data: Bytes, i: nat, j: nat) {
    i < j <= |data| && data[j - 1] < 128 && forall k :: i <= k < j - 1 ==> data[k] >= 128
  }

  lemma {:induction false} ReadsOn(data: Bytes, i: nat, s: nat, acc: nat)
    requires acc < Pow2(s) && acc < TWO64 && s % 7 == 0 && i <= |data|
    ensures var r := ReadVarint(data, i, s, acc);
            && (r.NoVarint? ==> forall k :: i <= k < |data| ==> data[k] >= 128)
            && (r.GotVarint? ==> IsVarint(data, i, r.next))
            && (r.GotVarint? ==> r.value == (acc + Pow2(s) * Value(data[i..r.next])) % TWO64)
    decreases |data| - i
  {
    if i < |data| {
      var d := data[i] as int % 128;
      var acc' := Or(acc, ShiftLeft(d, s));
      DigitAdds(acc, d, s);
      if data[i] < 128 {
        assert data[i..i + 1][1..] == [];
        assert Value(data[i..i + 1]) == d;
      } else {
        ReadsOn(data, i + 1, s + 7, acc');
        var r := ReadVarint(data, i + 1, s + 7, acc');
        if r.GotVarint? {
          assert data[i..r.next][1..] == data[i + 1..r.next];
          JoinDigits(acc, acc', d, s, Value(data[i + 1..r.next]));
        }
      }
    }
  }

  lemma JoinDigits(acc: nat, acc': nat, d: nat, s: nat, rest: nat)
    requires acc' == (acc + d * Pow2(s)) % TWO64
    ensures (acc' + Pow2(s + 7) * rest) % TWO64 == (acc + Pow2(s) * (d + 128 * rest)) % TWO64
  {
    Pow2Step(s);
    var p := Pow2(s);
    assert p * (d + 128 * rest) == d * p + (128 * p) * rest;
    ModAdd(acc + d * p, (128 * p) * rest);
  }

  /** Reading a varint gives the number its bytes stand for, cut to 64 bits, however long it is;
      it fails if and only if no byte up to the end ends one. */
  lemma ReadVarintMeans(data: Bytes, i: nat)
    requires i <= |data|
    ensures var r := ReadVarint(data, i, 0, 0);
            && (r.NoVarint? ==> forall k :: i <= k < |data| ==> data[k] >= 128)
            && (r.GotVarint? ==> IsVarint(data, i, r.next) && r.value == Value(data[i..r.next]) % TWO64)
  {
    ReadsOn(data, i, 0, 0);
  }

  /** A field is accepted only if its key names a field of the format with that field's wire type,
      0 for a number and 2 for bytes, and what follows is a varint, or as many bytes as one says. */
  lemma AcceptedMeans(schema: Schema, data: Bytes, i: nat) returns (j: nat, k: nat)
    requires i <= |data| < TWO63 && ReadField(schema, data, i).GotField?
    ensures IsVarint(data, i, j)
    ensures var f, key := ReadField(schema, data, i).field, Value(data[i..j]) % TWO64;
            && f.num in schema && (key / 8) % 0x1_0000_0000 == f.num
            && (f.VarintField? ==>
                  && schema[f.num] == AsVarint && key % 8 == 0 && k == ReadField(schema, data, i).next
                  && IsVarint(data, j, k) && f.value == Value(data[j..k]) % TWO64)
            && (f.BytesField? ==>
                  && schema[f.num] == AsBytes && key % 8 == 2 && IsVarint(data, j, k)
                  && ReadField(schema, data, i).next == k + |f.bytes| <= |data|
                  && |f.bytes| == Value(data[j..k]) % TWO64 && f.bytes == data[k..k + |f.bytes|])
  {
    ReadVarintMeans(data, i);
    j := ReadVarint(data, i, 0, 0).next;
    ReadVarintMeans(data, j);
    k := ReadVarint(data, j, 0, 0).next;
  }

  // ---- Entry ----

  function EntryBytes(e: Entry): Bytes
    requires EntryInts(e)
  {
    Number(0x08, e.typ) + Number(0x10, e.term) + Number(0x18, e.index) + Lump(0x22, e.data)
  }

  lemma EntryOnWire(e: Entry)
    requires EntryInts(e)
    ensures EncodeEntry(e) == EntryBytes(e)
  {
    NumberEncodes(1, 0x08, e.typ);
    NumberEncodes(2, 0x10, e.term);
    NumberEncodes(3, 0x18, e.index);
    LumpEncodes(4, 0x22, e.data);
    EncodeFour(VarintField(1, ToWord(e.typ)), VarintField(2, ToWord(e.term)), VarintField(3, ToWord(e.index)),
               BytesField(4, e.data));
  }

  /** Bytes of that form are read as that entry. */
  lemma EntryFromWire(e: Entry)
    requires EntryInts(e) && |EntryBytes(e)| < TWO63
    ensures UnmarshalFrom(ENTRY, EntryBytes(e), 0, DUMMY_ENTRY) == Parsed(e, NoError)
  {
    EntryOnWire(e);
    EntryRoundTrip(e);
  }

  // ---- HardState ----

  function HardStateBytes(st: HardState): Bytes
    requires Int64(st.term) && Int64(st.vote) && Int64(st.commit)
  {
    Number(0x08, st.term) + Number(0x10, st.vote) + Number(0x18, st.commit)
  }

  lemma HardStateOnWire(st: HardState)
    requires HardStateFits(st)
    ensures EncodeHardState(st) == HardStateBytes(st)
  {
    NumberEncodes(1, 0x08, st.term);
    NumberEncodes(2, 0x10, st.vote);
    NumberEncodes(3, 0x18, st.commit);
    EncodeThree(VarintField(1, ToWord(st.term)), VarintField(2, ToWord(st.vote)), VarintField(3, ToWord(st.commit)));
  }

  lemma HardStateFromWire(st: HardState)
    requires HardStateFits(st)
    ensures UnmarshalFrom(HARD_STATE, HardStateBytes(st), 0, EMPTY_HARD_STATE) == Parsed(st, NoError)
  {
    HardStateOnWire(st);
    HardStateRoundTrip(st);
  }

  // ---- ConfChange ----

  function ConfChangeBytes(cc: ConfChange): Bytes
    requires Int64(cc.id) && Int32(cc.typ) && Int64(cc.nodeID)
  {
    Number(0x08, cc.id) + Number(0x10, cc.typ) + Number(0x18, cc.nodeID) + Lump(0x22, cc.context)
  }

  lemma ConfChangeOnWire(cc: ConfChange)
    requires Int64(cc.id) && Int32(cc.typ) && Int64(cc.nodeID)
    ensures EncodeConfChange(cc) == ConfChangeBytes(cc)
  {
    NumberEncodes(1, 0x08, cc.id);
    NumberEncodes(2, 0x10, cc.typ);
    NumberEncodes(3, 0x18, cc.nodeID);
    LumpEncodes(4, 0x22, cc.context);
    EncodeFour(VarintField(1, ToWord(cc.id)), VarintField(2, ToWord(cc.typ)), VarintField(3, ToWord(cc.nodeID)),
               BytesField(4, cc.context));
  }

  lemma ConfChangeFromWire(cc: ConfChange)
    requires Int64(cc.id) && Int32(cc.typ) && Int64(cc.nodeID) && |ConfChangeBytes(cc)| < TWO63
    ensures UnmarshalFrom(CONF_CHANGE, ConfChangeBytes(cc), 0, ZERO_CONF_CHANGE) == Parsed(cc, NoError)
  {
    ConfChangeOnWire(cc);
    ConfChangeRoundTrip(cc);
  }

  // ---- Record and Info ----

  lemma RecordParts(rec: Record)
    requires Int64(rec.typ) && 0 <= rec.crc < TWO32
    ensures var done := EncodeAll([VarintField(1, ToWord(rec.typ)), VarintField(2, rec.crc)]);
            EncodeRecord(rec) == if rec.data == Nothing then done else done + EncodeField(BytesField(3, rec.data.value))
  {
    var a, b := VarintField(1, ToWord(rec.typ)), VarintField(2, rec.crc);
    if rec.data == Nothing {
      assert RecordFields(rec) == [a, b];
    } else {
      assert RecordFields(rec) == [a, b, BytesField(3, rec.data.value)];
      EncodeTwo(a, b);
      EncodeThree(a, b, BytesField(3, rec.data.value));
    }
  }

  function RecordBytes(rec: Record): Bytes
    requires Int64(rec.typ) && 0 <= rec.crc < TWO32
  {
    Number(0x08, rec.typ) + Number(0x10, rec.crc) + if rec.data == Nothing then [] else Lump(0x1a, rec.data.value)
  }

  lemma RecordOnWire(rec: Record)
    requires Int64(rec.typ) && 0 <= rec.crc < TWO32
    ensures EncodeRecord(rec) == RecordBytes(rec)
  {
    RecordParts(rec);
    EncodeTwo(VarintField(1, ToWord(rec.typ)), VarintField(2, rec.crc));
    NumberEncodes(1, 0x08, rec.typ);
    NumberEncodes(2, 0x10, rec.crc);
    if rec.data != Nothing {
      LumpEncodes(3, 0x1a, rec.data.value);
    }
  }

  lemma RecordFromWire(rec: Record)
    requires Int64(rec.typ) && 0 <= rec.crc < TWO32 && |RecordBytes(rec)| < TWO63
    ensures UnmarshalFrom(RECORD, RecordBytes(rec), 0, ZERO_RECORD) ==
            Parsed(rec.(data := if rec.data == Just([]) then Nothing else rec.data), NoError)
  {
    RecordOnWire(rec);
    RecordRoundTrip(rec);
  }

  lemma InfoOnWire(id: int)
    requires Int64(id)
    ensures EncodeInfo(id) == Number(0x08, id)
    ensures UnmarshalFrom(INFO, Number(0x08, id), 0, 0) == Parsed(id, NoError)
  {
    EncodeOne(VarintField(1, ToWord(id)));
    NumberEncodes(1, 0x08, id);
    InfoRoundTrip(id);
  }

  // ---- Snapshot ----

  function NodesBytes(nodes: seq<int>): Bytes {
    if nodes == [] then [] else [0x10] + NodeBytes(nodes[0]) + NodesBytes(nodes[1..])
  }

  function SnapshotBytes(s: Snapshot): Bytes
    requires SnapshotInts(s)
  {
    Lump(0x0a, s.data) + NodesBytes(s.nodes) + (Number(0x18, s.index) + Number(0x20, s.term))
  }

  lemma {:induction false} NodesOnWire(nodes: seq<int>)
    ensures EncodeNodes(nodes) == NodesBytes(nodes)
  {
    if nodes != [] {
      NodesOnWire(nodes[1..]);
    }
  }

  lemma SnapshotOnWire(s: Snapshot)
    requires SnapshotInts(s)
    ensures EncodeSnapshot(s) == SnapshotBytes(s)
  {
    LumpEncodes(1, 0x0a, s.data);
    NodesOnWire(s.nodes);
    NumberEncodes(3, 0x18, s.index);
    NumberEncodes(4, 0x20, s.term);
    EncodeTwo(VarintField(3, ToWord(s.index)), VarintField(4, ToWord(s.term)));
  }

  lemma SnapshotFromWire(s: Snapshot)
    requires SnapshotFits(s)
    ensures UnmarshalFrom(SNAPSHOT, SnapshotBytes(s), 0, EMPTY_SNAPSHOT) == Parsed(s, NoError) <==> NoNegative(s.nodes)
  {
    SnapshotOnWire(s);
    SnapshotRoundTrip(s);
  }

  // ---- Message ----

  lemma NumbersSplit(m: Message)
    requires MessageInts(m)
    ensures EncodeAll(NumberFields(m)) == EncodeAll(NumberFields(m)[..3]) + EncodeAll(NumberFields(m)[3..])
  {
    var fs := NumberFields(m);
    CutAt(fs, 3);
    EncodeAllSplit(fs[..3], fs[3..]);
  }

  lemma BodySplit(m: Message)
    requires MessageInts(m)
    ensures EncodeAll(BodyFields(m)) ==
            EncodeAll(NumberFields(m)) + EncodeAll(EntriesFields(m.entries)) +
            EncodeField(VarintField(8, ToWord(m.commit)))
  {
    var fs, es, c := NumberFields(m), EntriesFields(m.entries), VarintField(8, ToWord(m.commit));
    EncodeAllSplit(fs, es);
    OneMore(fs + es, c);
  }

  lemma OneMore(fs: seq<Field>, f: Field)
    requires 1 <= f.num < 16 && forall j :: 0 <= j < |fs| ==> 1 <= fs[j].num < 16
    ensures EncodeAll(fs + [f]) == EncodeAll(fs) + EncodeField(f)
  {
    EncodeAllSplit(fs, [f]);
    EncodeOne(f);
  }

  function EntriesBytes(es: seq<Entry>): Bytes
    requires forall k :: 0 <= k < |es| ==> EntryInts(es[k])
  {
    if es == [] then [] else Lump(0x3a, EntryBytes(es[0])) + EntriesBytes(es[1..])
  }

  function HeaderBytes(m: Message): Bytes
    requires MessageInts(m)
  {
    Number(0x08, m.typ) + Number(0x10, m.to) + Number(0x18, m.from) +
    (Number(0x20, m.term) + Number(0x28, m.logTerm) + Number(0x30, m.index))
  }

  function MessageBytes(m: Message): Bytes
    requires MessageInts(m) && SnapshotInts(m.snapshot)
  {
    HeaderBytes(m) + EntriesBytes(m.entries) + Number(0x40, m.commit) +
    [0x4a] + Varint(SnapshotSize(m.snapshot)) + (SnapshotBytes(m.snapshot) + [0x50, if m.denied then 1 else 0])
  }

  lemma {:induction false} EntriesOnWire(es: seq<Entry>)
    requires forall k :: 0 <= k < |es| ==> EntryInts(es[k])
    ensures EncodeAll(EntriesFields(es)) == EntriesBytes(es)
  {
    if es != [] {
      EntriesOnWire(es[1..]);
      EntryOnWire(es[0]);
      LumpEncodes(7, 0x3a, EncodeEntry(es[0]));
      assert EntriesFields(es)[1..] == EntriesFields(es[1..]);
    }
  }

  lemma HeaderOnWire(m: Message)
    requires MessageInts(m)
    ensures EncodeAll(NumberFields(m)) == HeaderBytes(m)
  {
    NumbersSplit(m);
    var f1, f2, f3 := VarintField(1, ToWord(m.typ)), VarintField(2, ToWord(m.to)), VarintField(3, ToWord(m.from));
    var f4, f5, f6 :=
      VarintField(4, ToWord(m.term)), VarintField(5, ToWord(m.logTerm)), VarintField(6, ToWord(m.index));
    assert NumberFields(m)[..3] == [f1, f2, f3] && NumberFields(m)[3..] == [f4, f5, f6];
    EncodeThree(f1, f2, f3);
    EncodeThree(f4, f5, f6);
    NumberEncodes(1, 0x08, m.typ);
    NumberEncodes(2, 0x10, m.to);
    NumberEncodes(3, 0x18, m.from);
    NumberEncodes(4, 0x20, m.term);
    NumberEncodes(5, 0x28, m.logTerm);
    NumberEncodes(6, 0x30, m.index);
  }

  lemma FlagOnWire(m: Message)
    ensures EncodeField(DeniedField(m)) == [0x50, if m.denied then 1 else 0]
  {
  }

  lemma MessageOnWire(m: Message)
    requires MessageInts(m) && SnapshotInts(m.snapshot)
    ensures EncodeMessage(m) == MessageBytes(m)
  {
    BodySplit(m);
    HeaderOnWire(m);
    EntriesOnWire(m.entries);
    NumberEncodes(8, 0x40, m.commit);
    SnapshotOnWire(m.snapshot);
    FlagOnWire(m);
  }

  lemma MessageFromWire(m: Message)
    requires MessageFits(m)
    ensures UnmarshalFrom(MESSAGE, MessageBytes(m), 0, ZERO_MESSAGE) == Parsed(m, NoError) <==>
            NoNegative(m.snapshot.nodes)
  {
    MessageOnWire(m);
    MessageRoundTrip(m);
  }
}
