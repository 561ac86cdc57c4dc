/** Size and MarshalTo: the loops that count and write the encodings of RaftCodec and
    MessageCodec, in place, into a byte buffer. */
module Marshalling {
  import opened Collections
  import opened RaftTypes
  import opened Wire
  import opened Unmarshalling
  import opened RaftCodec
  import opened WireBytes

  // b is a with bs written over it from position i on.
  ghost predicate Wrote(a: Bytes, b: Bytes, i: nat, bs: Bytes) {
    i + |bs| <= |a| && b == a[..i] + bs + a[i + |bs|..]
  }

  lemma WroteNothing(a: Bytes, i: nat)
    requires i <= |a|
    ensures Wrote(a, a, i, [])
  {
    assert a == a[..i] + [] + a[i..];
  }

  lemma WroteThen(a: Bytes, b: Bytes, c: Bytes, i: nat, x: Bytes, y: Bytes)
    requires Wrote(a, b, i, x) && Wrote(b, c, i + |x|, y)
    ensures Wrote(a, c, i, x + y)
  {
    assert b[..i + |x|] == a[..i] + x;
    assert b[i + |x| + |y|..] == a[i + |x| + |y|..];
    Assoc(a[..i], x, y);
  }

  method PutByte(buf: array<byte>, i: nat, b: byte) returns (next: nat)
    requires i < buf.Length
    modifies buf
    ensures next == i + 1 && Wrote(old(buf[..]), buf[..], i, [b])
  {
    buf[i] := b;
    next := i + 1;
  }

  // Appends one more byte to the bytes written from start on.
  method PutNextByte(buf: array<byte>, i: nat, b: byte, ghost was: Bytes, ghost start: nat, ghost done: Bytes)
    returns (next: nat)
    requires i == start + |done| && i < buf.Length && Wrote(was, buf[..], start, done)
    modifies buf
    ensures next == i + 1 && Wrote(was, buf[..], start, done + [b])
  {
    ghost var now := buf[..];
    next := PutByte(buf, i, b);
    WroteThen(was, now, buf[..], start, done, [b]);
  }

  lemma VarintStep(done: Bytes, rest: nat, b: byte, v: nat)
    requires rest >= 128 && b as int == rest % 128 + 128 && done + Varint(rest) == Varint(v)
    ensures done + [b] + Varint(rest / 128) == Varint(v)
  {
    Assoc(done, [b], Varint(rest / 128));
  }

  /** Writes the varint of v, low seven bits first. */
  method EncodeVarint(buf: array<byte>, offset: nat, v: nat) returns (next: nat)
    requires offset + |Varint(v)| <= buf.Length
    modifies buf
    ensures next == offset + |Varint(v)| && Wrote(old(buf[..]), buf[..], offset, Varint(v))
  {
    var rest := v;
    next := offset;
    ghost var was, done: Bytes := buf[..], [];
    WroteNothing(was, offset);
    while rest >= 128
      invariant done + Varint(rest) == Varint(v) && next == offset + |done|
      invariant Wrote(was, buf[..], offset, done)
    {
      var b := (rest % 128 + 128) as byte;
      VarintStep(done, rest, b, v);
      next := PutNextByte(buf, next, b, was, offset, done);
      done := done + [b];
      rest := rest / 128;
    }
    next := PutNextByte(buf, next, rest as byte, was, offset, done);
  }

  method Copy(buf: array<byte>, offset: nat, src: Bytes) returns (next: nat)
    requires offset + |src| <= buf.Length
    modifies buf
    ensures next == offset + |src| && Wrote(old(buf[..]), buf[..], offset, src)
  {
    next := offset;
    ghost var was := buf[..];
    WroteNothing(was, offset);
    for k := 0 to |src|
      invariant next == offset + k && Wrote(was, buf[..], offset, src[..k])
    {
      CutAt(src, k);
      next := PutNextByte(buf, next, src[k], was, offset, src[..k]);
    }
    CutAt(src, |src|);
  }

  // A varint, and a byte string, behind what was written from start on.
  method PutNextVarint(buf: array<byte>, i: nat, v: nat, ghost was: Bytes, ghost start: nat, ghost done: Bytes)
    returns (next: nat)
    requires i == start + |done| && i + |Varint(v)| <= buf.Length && Wrote(was, buf[..], start, done)
    modifies buf
    ensures next == i + |Varint(v)| && Wrote(was, buf[..], start, done + Varint(v))
  {
    ghost var now := buf[..];
    next := EncodeVarint(buf, i, v);
    WroteThen(was, now, buf[..], start, done, Varint(v));
  }

  method PutNextBytes(buf: array<byte>, i: nat, src: Bytes, ghost was: Bytes, ghost start: nat, ghost done: Bytes)
    returns (next: nat)
    requires i == start + |done| && i + |src| <= buf.Length && Wrote(was, buf[..], start, done)
    modifies buf
    ensures next == i + |src| && Wrote(was, buf[..], start, done + src)
  {
    ghost var now := buf[..];
    next := Copy(buf, i, src);
    WroteThen(was, now, buf[..], start, done, src);
  }

  method PutField(buf: array<byte>, i: nat, f: Field) returns (next: nat)
    requires 1 <= f.num < 16 && i + |EncodeField(f)| <= buf.Length
    modifies buf
    ensures next == i + |EncodeField(f)| && Wrote(old(buf[..]), buf[..], i, EncodeField(f))
  {
    ghost var was, tag := buf[..], [Tag(f)];
    next := PutByte(buf, i, Tag(f));
    match f {
      case VarintField(_, v) =>
        next := PutNextVarint(buf, next, v, was, i, tag);
      case BytesField(_, payload) =>
        next := PutNextVarint(buf, next, |payload|, was, i, tag);
        next := PutNextBytes(buf, next, payload, was, i, tag + Varint(|payload|));
    }
  }

  /** Counts the bytes of a varint without writing it. */
  method SizeOfVarint(v: nat) returns (n: nat)
    ensures n == |Varint(v)|
  {
    n := 0;
    var x := v;
    while true
      invariant n + |Varint(x)| == |Varint(v)|
      decreases x
    {
      n := n + 1;
      if x < 128 {
        break;
      }
      x := x / 128;
    }
  }

  // Appends one more field to the bytes written from start on.
  method PutNext(buf: array<byte>, i: nat, f: Field, ghost was: Bytes, ghost start: nat, ghost done: Bytes)
    returns (next: nat)
    requires 1 <= f.num < 16 && i == start + |done| && i + |EncodeField(f)| <= buf.Length
    requires Wrote(was, buf[..], start, done)
    modifies buf
    ensures next == i + |EncodeField(f)| && Wrote(was, buf[..], start, done + EncodeField(f))
  {
    ghost var now := buf[..];
    next := PutField(buf, i, f);
    WroteThen(was, now, buf[..], start, done, EncodeField(f));
  }

  method PutTwo(buf: array<byte>, start: nat, a: Field, b: Field) returns (i: nat)
    requires 1 <= a.num < 16 && 1 <= b.num < 16 && start + |EncodeAll([a, b])| <= buf.Length
    modifies buf
    ensures i == start + |EncodeAll([a, b])| && Wrote(old(buf[..]), buf[..], start, EncodeAll([a, b]))
  {
    EncodeTwo(a, b);
    ghost var was := buf[..];
    i := PutField(buf, start, a);
    i := PutNext(buf, i, b, was, start, EncodeField(a));
  }

  method PutThree(buf: array<byte>, start: nat, a: Field, b: Field, c: Field) returns (i: nat)
    requires 1 <= a.num < 16 && 1 <= b.num < 16 && 1 <= c.num < 16
    requires start + |EncodeAll([a, b, c])| <= buf.Length
    modifies buf
    ensures i == start + |EncodeAll([a, b, c])| && Wrote(old(buf[..]), buf[..], start, EncodeAll([a, b, c]))
  {
    EncodeThree(a, b, c);
    EncodeTwo(a, b);
    ghost var was := buf[..];
    i := PutTwo(buf, start, a, b);
    i := PutNext(buf, i, c, was, start, EncodeAll([a, b]));
  }

  method PutFour(buf: array<byte>, start: nat, a: Field, b: Field, c: Field, d: Field) returns (i: nat)
    requires 1 <= a.num < 16 && 1 <= b.num < 16 && 1 <= c.num < 16 && 1 <= d.num < 16
    requires start + |EncodeAll([a, b, c, d])| <= buf.Length
    modifies buf
    ensures i == start + |EncodeAll([a, b, c, d])| && Wrote(old(buf[..]), buf[..], start, EncodeAll([a, b, c, d]))
  {
    EncodeFour(a, b, c, d);
    EncodeThree(a, b, c);
    ghost var was := buf[..];
    i := PutThree(buf, start, a, b, c);
    i := PutNext(buf, i, d, was, start, EncodeAll([a, b, c]));
  }

  // ---- Entry, HardState, ConfChange, Record ----

  /** Entry.MarshalTo. */
  method MarshalEntry(buf: array<byte>, start: nat, e: Entry) returns (i: nat)
    requires EntryInts(e) && start + |EncodeEntry(e)| <= buf.Length
    modifies buf
    ensures i == start + |EncodeEntry(e)| && Wrote(old(buf[..]), buf[..], start, EncodeEntry(e))
    ensures Wrote(old(buf[..]), buf[..], start, EntryBytes(e))
  {
    EntryOnWire(e);
    i := PutFour(buf, start, VarintField(1, ToWord(e.typ)), VarintField(2, ToWord(e.term)),
                 VarintField(3, ToWord(e.index)), BytesField(4, e.data));
  }

  /** Entry.Size: exactly the bytes MarshalEntry writes. */
  method SizeEntry(e: Entry) returns (n: nat)
    requires EntryInts(e)
    ensures n == |EncodeEntry(e)|
  {
    var t := SizeOfVarint(ToWord(e.typ));
    var u := SizeOfVarint(ToWord(e.term));
    var v := SizeOfVarint(ToWord(e.index));
    var l := SizeOfVarint(|e.data|);
    n := (1 + t) + (1 + u) + (1 + v) + (1 + |e.data| + l);
    EncodeFour(VarintField(1, ToWord(e.typ)), VarintField(2, ToWord(e.term)), VarintField(3, ToWord(e.index)),
               BytesField(4, e.data));
  }

  /** HardState.MarshalTo. */
  method MarshalHardState(buf: array<byte>, start: nat, st: HardState) returns (i: nat)
    requires HardStateFits(st) && start + |EncodeHardState(st)| <= buf.Length
    modifies buf
    ensures i == start + |EncodeHardState(st)| && Wrote(old(buf[..]), buf[..], start, EncodeHardState(st))
    ensures Wrote(old(buf[..]), buf[..], start, HardStateBytes(st))
  {
    HardStateOnWire(st);
    i := PutThree(buf, start, VarintField(1, ToWord(st.term)), VarintField(2, ToWord(st.vote)),
                  VarintField(3, ToWord(st.commit)));
  }

  /** HardState.Size. */
  method SizeHardState(st: HardState) returns (n: nat)
    requires HardStateFits(st)
    ensures n == |EncodeHardState(st)|
  {
    var t := SizeOfVarint(ToWord(st.term));
    var u := SizeOfVarint(ToWord(st.vote));
    var v := SizeOfVarint(ToWord(st.commit));
    n := (1 + t) + (1 + u) + (1 + v);
    EncodeThree(VarintField(1, ToWord(st.term)), VarintField(2, ToWord(st.vote)), VarintField(3, ToWord(st.commit)));
  }

  /** ConfChange.MarshalTo. */
  method MarshalConfChange(buf: array<byte>, start: nat, cc: ConfChange) returns (i: nat)
    requires Int64(cc.id) && Int32(cc.typ) && Int64(cc.nodeID) && start + |EncodeConfChange(cc)| <= buf.Length
    modifies buf
    ensures i == start + |EncodeConfChange(cc)| && Wrote(old(buf[..]), buf[..], start, EncodeConfChange(cc))
    ensures Wrote(old(buf[..]), buf[..], start, ConfChangeBytes(cc))
  {
    ConfChangeOnWire(cc);
    i := PutFour(buf, start, VarintField(1, ToWord(cc.id)), VarintField(2, ToWord(cc.typ)),
                 VarintField(3, ToWord(cc.nodeID)), BytesField(4, cc.context));
  }

  /** ConfChange.Size. */
  method SizeConfChange(cc: ConfChange) returns (n: nat)
    requires Int64(cc.id) && Int32(cc.typ) && Int64(cc.nodeID)
    ensures n == |EncodeConfChange(cc)|
  {
    var t := SizeOfVarint(ToWord(cc.id));
    var u := SizeOfVarint(ToWord(cc.typ));
    var v := SizeOfVarint(ToWord(cc.nodeID));
    var l := SizeOfVarint(|cc.context|);
    n := (1 + t) + (1 + u) + (1 + v) + (1 + |cc.context| + l);
    EncodeFour(VarintField(1, ToWord(cc.id)), VarintField(2, ToWord(cc.typ)), VarintField(3, ToWord(cc.nodeID)),
               BytesField(4, cc.context));
  }

  /** Record.MarshalTo: a nil data field is left out. */
  method MarshalRecord(buf: array<byte>, start: nat, rec: Record) returns (i: nat)
    requires Int64(rec.typ) && 0 <= rec.crc < TWO32 && start + |EncodeRecord(rec)| <= buf.Length
    modifies buf
    ensures i == start + |EncodeRecord(rec)| && Wrote(old(buf[..]), buf[..], start, EncodeRecord(rec))
    ensures Wrote(old(buf[..]), buf[..], start, RecordBytes(rec))
  {
    RecordOnWire(rec);
    ghost var was, done := buf[..], EncodeRecord(rec.(data := Nothing));
    RecordParts(rec);
    RecordParts(rec.(data := Nothing));
    i := PutTwo(buf, start, VarintField(1, ToWord(rec.typ)), VarintField(2, rec.crc));
    if rec.data != Nothing {
      i := PutNext(buf, i, BytesField(3, rec.data.value), was, start, done);
    }
  }

  /** Record.Size. */
  method SizeRecord(rec: Record) returns (n: nat)
    requires Int64(rec.typ) && 0 <= rec.crc < TWO32
    ensures n == |EncodeRecord(rec)|
  {
    var t := SizeOfVarint(ToWord(rec.typ));
    var u := SizeOfVarint(rec.crc);
    n := (1 + t) + (1 + u);
    if rec.data != Nothing {
      var l := SizeOfVarint(|rec.data.value|);
      n := n + (1 + |rec.data.value| + l);
    }
    EncodeTwo(VarintField(1, ToWord(rec.typ)), VarintField(2, rec.crc));
    RecordParts(rec);
  }
}
