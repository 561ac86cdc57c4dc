/** Records as bytes in a file: an eight-byte little-endian length, then the encoded record. */
module WalFrames {
  import opened Collections
  import opened RaftTypes
  import opened Wire
  import opened Unmarshalling
  import opened RaftCodec
  import opened WalModel

  function LittleEndian(n: nat, k: nat): (bs: Bytes)
    ensures |bs| == k
    decreases k
  {
    if k == 0 then [] else [(n % 256) as byte] + LittleEndian(n / 256, k - 1)
  }

  function FromLittleEndian(bs: Bytes): nat {
    if bs == [] then 0 else bs[0] as int + 256 * FromLittleEndian(bs[1..])
  }

  function Pow256(k: nat): (p: nat)
    ensures p >= 1
  {
    if k == 0 then 1 else 256 * Pow256(k - 1)
  }

  lemma {:induction false} LittleEndianRoundTrip(n: nat, k: nat)
    requires n < Pow256(k)
    ensures FromLittleEndian(LittleEndian(n, k)) == n
    decreases k
  {
    if k > 0 {
      LittleEndianRoundTrip(n / 256, k - 1);
      var bs := LittleEndian(n, k);
      assert bs[1..] == LittleEndian(n / 256, k - 1);
    }
  }

  lemma LittleEndianExample()
    ensures LittleEndian(0x0102, 8) == [2, 1, 0, 0, 0, 0, 0, 0]
  {
  }

  // A record that comes back as it was written.
  ghost predicate Storable(rec: Record) {
    RecordFits(rec) && rec.data != Just([])
  }

  ghost predicate AllStorable(recs: seq<Record>) {
    forall k :: 0 <= k < |recs| ==> Storable(recs[k])
  }

  function Frame(rec: Record): Bytes
    requires Int64(rec.typ) && 0 <= rec.crc < TWO32
  {
    LittleEndian(|EncodeRecord(rec)|, 8) + EncodeRecord(rec)
  }

  ghost function Frames(recs: seq<Record>): Bytes
    requires AllStorable(recs)
  {
    if recs == [] then [] else
      assert Storable(recs[0]);
      Frame(recs[0]) + Frames(recs[1..])
  }

  // ---- The decoder ----

  datatype DecodeResult = AtEnd | Decoded(rec: Record, next: nat) | Undecodable(why: WalError)

  function LengthAt(data: Bytes, pos: nat): int
    requires pos + 8 <= |data|
  {
    FromWord(FromLittleEndian(data[pos..pos + 8]) % TWO64)
  }

  // A length without any byte behind it ends the stream like a missing length does.
  function DecodeBody(data: Bytes, start: nat, l: int): (r: DecodeResult)
    requires start <= |data|
    ensures r.Decoded? ==> start <= r.next <= |data|
  {
    if l < 0 then Undecodable(BadData)
    else if l > 0 && start == |data| then AtEnd
    else if |data| < start + l then Undecodable(ShortRead)
    else
      var p := UnmarshalFrom(RECORD, data[start..start + l], 0, ZERO_RECORD);
      if p.status.Failed? then Undecodable(BadData) else Decoded(p.value, start + l)
  }

  function DecodeAt(data: Bytes, pos: nat): (r: DecodeResult)
    requires pos <= |data|
    ensures r.Decoded? ==> pos < r.next <= |data|
  {
    if pos == |data| then AtEnd
    else if |data| < pos + 8 then Undecodable(ShortRead)
    else DecodeBody(data, pos + 8, LengthAt(data, pos))
  }

  function ReadBytes(r: Replay, ri: int, data: Bytes, pos: nat): ReadResult
    requires pos <= |data|
    decreases |data| - pos
  {
    match DecodeAt(data, pos)
    case AtEnd => Reading(r)
    case Undecodable(why) => ReadFailed(why)
    case Decoded(rec, next) =>
      match ReadRecord(r, ri, rec)
      case ReadFailed(why) => ReadFailed(why)
      case Reading(r') => ReadBytes(r', ri, data, next)
  }

  lemma LengthReadBack(data: Bytes, pos: nat, n: nat)
    requires n < TWO63 && pos + 8 <= |data| && data[pos..pos + 8] == LittleEndian(n, 8)
    ensures LengthAt(data, pos) == n
  {
    assert Pow256(8) == TWO64;
    LittleEndianRoundTrip(n, 8);
  }

  lemma BodyReadBack(data: Bytes, start: nat, body: Bytes, rec: Record)
    requires Storable(rec) && body == EncodeRecord(rec)
    requires start + |body| <= |data| && data[start..start + |body|] == body
    ensures DecodeBody(data, start, |body|) == Decoded(rec, start + |body|)
  {
    RecordRoundTrip(rec);
  }

  lemma FrameReadBack(data: Bytes, pos: nat, rec: Record, body: Bytes, head: Bytes)
    requires Storable(rec) && body == EncodeRecord(rec) && head == LittleEndian(|body|, 8)
    requires pos + |head| + |body| <= |data| && data[pos..pos + |head| + |body|] == head + body
    ensures DecodeAt(data, pos) == Decoded(rec, pos + 8 + |body|)
  {
    SplitAt(data, pos, head, body);
    LengthReadBack(data, pos, |body|);
    BodyReadBack(data, pos + 8, body, rec);
  }

  lemma FirstFrame(data: Bytes, pos: nat, recs: seq<Record>) returns (next: nat)
    requires recs != [] && AllStorable(recs) && pos <= |data| && data[pos..] == Frames(recs)
    ensures DecodeAt(data, pos) == Decoded(recs[0], next) && next <= |data|
    ensures AllStorable(recs[1..]) && data[next..] == Frames(recs[1..])
  {
    var rec, rest := recs[0], Frames(recs[1..]);
    var body := EncodeRecord(rec);
    var head := LittleEndian(|body|, 8);
    next := pos + 8 + |body|;
    assert data[pos..|data|] == Frame(rec) + rest;
    SplitAt(data, pos, Frame(rec), rest);
    FrameReadBack(data, pos, rec, body, head);
  }

  lemma OneRecord(r: Replay, ri: int, data: Bytes, pos: nat, rec: Record, next: nat)
    requires pos <= |data| && DecodeAt(data, pos) == Decoded(rec, next)
    ensures ReadBytes(r, ri, data, pos) ==
            match ReadRecord(r, ri, rec)
            case ReadFailed(why) => ReadFailed(why)
            case Reading(r') => ReadBytes(r', ri, data, next)
  {
  }

  /** Reading the frames of a record list reads exactly those records, then ends. */
  lemma {:induction false} FramesReadBack(r: Replay, ri: int, data: Bytes, pos: nat, recs: seq<Record>)
    requires AllStorable(recs) && pos <= |data| && data[pos..] == Frames(recs)
    ensures ReadBytes(r, ri, data, pos) == ReadRecords(r, ri, recs)
    decreases |recs|
  {
    if recs != [] {
      var next := FirstFrame(data, pos, recs);
      OneRecord(r, ri, data, pos, recs[0], next);
      var res := ReadRecord(r, ri, recs[0]);
      if res.Reading? {
        FramesReadBack(res.r, ri, data, next, recs[1..]);
      }
    }
  }

  lemma {:induction false} FramesSplit(a: seq<Record>, b: seq<Record>)
    requires AllStorable(a) && AllStorable(b)
    ensures AllStorable(a + b) && Frames(a + b) == Frames(a) + Frames(b)
  {
    if a == [] {
      assert a + b == b;
    } else {
      assert (a + b)[1..] == a[1..] + b;
      FramesSplit(a[1..], b);
      Assoc(Frame(a[0]), Frames(a[1..]), Frames(b));
    }
  }
}
