/** The write-ahead log as an object over a directory of byte files. */
module Wals {
  import opened Collections
  import opened RaftTypes
  import opened Wire
  import opened Unmarshalling
  import opened RaftCodec
  import opened WireBytes
  import opened Marshalling
  import opened Checksum
  import opened WalModel
  import opened WalFrames

  datatype DiskFile = DiskFile(seqno: int, index: int, data: Bytes)

  // The directory holds the frames of the model's records, file by file.
  ghost predicate Stores(disk: seq<DiskFile>, files: seq<WalFile>) {
    |disk| == |files| && forall k {:trigger disk[k]} {:trigger files[k]} :: 0 <= k < |disk| ==>
      StoresFile(disk[k], files[k])
  }

  ghost predicate StoresFile(d: DiskFile, f: WalFile) {
    d.seqno == f.seqno && d.index == f.index && AllStorable(f.recs) && d.data == Frames(f.recs)
  }

  predicate PayloadFits(data: Option<Bytes>) {
    data == Nothing || (data.value != [] && |data.value| + 40 < TWO63)
  }

  lemma FieldLength(f: Field)
    requires 1 <= f.num < 16 && f.BytesField? && |f.bytes| < TWO63
    ensures |EncodeField(f)| <= |f.bytes| + 11
  {
    WordLength(|f.bytes|);
  }

  lemma RecordLength(rec: Record)
    requires Int64(rec.typ) && 0 <= rec.crc < TWO32 && PayloadFits(rec.data)
    ensures |EncodeRecord(rec)| < TWO63
  {
    RecordParts(rec);
    VarintsShort([VarintField(1, ToWord(rec.typ)), VarintField(2, rec.crc)]);
    if rec.data != Nothing {
      FieldLength(BytesField(3, rec.data.value));
    }
  }

  lemma RecordStorable(typ: int, crc: bv32, data: Option<Bytes>, rec: Record)
    requires Int64(typ) && PayloadFits(data) && rec == Record(typ, Sum(crc), data)
    ensures Storable(rec)
  {
    SumRoundTrip(crc);
    RecordLength(rec);
  }

  method FrameOf(rec: Record) returns (bs: Bytes)
    requires Storable(rec)
    ensures bs == Frame(rec)
  {
    var n := SizeRecord(rec);
    var buf := new byte[n];
    ghost var was := buf[..];
    var _ := MarshalRecord(buf, 0, rec);
    WroteAll(was, buf[..], EncodeRecord(rec));
    bs := LittleEndian(n, 8) + buf[..];
  }

  lemma WroteAll(was: Bytes, now: Bytes, bs: Bytes)
    requires Wrote(was, now, 0, bs) && |was| == |bs|
    ensures now == bs
  {
  }

  lemma StoresOneMore(disk: seq<DiskFile>, files: seq<WalFile>, rec: Record, disk': seq<DiskFile>, files': seq<WalFile>)
    requires Stores(disk, files) && disk != [] && Storable(rec)
    requires var n := |disk| - 1;
             && disk' == disk[n := disk[n].(data := disk[n].data + Frame(rec))]
             && files' == files[n := files[n].(recs := files[n].recs + [rec])]
    ensures Stores(disk', files')
  {
    OneMoreFrame(files[|disk| - 1].recs, rec);
  }

  // ---- Choosing the file to start from ----

  method SearchFile(disk: seq<DiskFile>, index: int) returns (k: int)
    ensures -1 <= k < |disk|
    ensures k >= 0 ==> disk[k].index <= index
    ensures forall j :: k < j < |disk| ==> disk[j].index > index
  {
    k := |disk| - 1;
    while k >= 0
      invariant -1 <= k < |disk|
      invariant forall j :: k < j < |disk| ==> disk[j].index > index
    {
      if index >= disk[k].index {
        return;
      }
      k := k - 1;
    }
  }

  lemma SearchAgrees(disk: seq<DiskFile>, files: seq<WalFile>, index: int, k: int)
    requires Stores(disk, files) && -1 <= k < |disk|
    requires (k >= 0 ==> disk[k].index <= index) && forall j :: k < j < |disk| ==> disk[j].index > index
    ensures k == SearchIndex(files, index)
  {
    var s := SearchIndex(files, index);
    if k >= 0 {
      assert files[k].index <= index;
    }
    if s >= 0 {
      assert disk[s].index == files[s].index;
    }
  }

  // Sequence numbers increase by one, with no check behind sequence number zero.
  method CheckSequence(disk: seq<DiskFile>) returns (ok: bool)
    ensures ok <==> forall k :: 0 < k < |disk| && disk[k - 1].seqno != 0 ==> disk[k].seqno == disk[k - 1].seqno + 1
  {
    var lastSeq := 0;
    for i := 0 to |disk|
      invariant lastSeq == if i == 0 then 0 else disk[i - 1].seqno
      invariant forall k :: 0 < k < i && disk[k - 1].seqno != 0 ==> disk[k].seqno == disk[k - 1].seqno + 1
    {
      var cur := disk[i].seqno;
      if lastSeq != 0 && lastSeq != cur - 1 {
        return false;
      }
      lastSeq := cur;
    }
    return true;
  }

  function Concat(disk: seq<DiskFile>): Bytes {
    if disk == [] then [] else disk[0].data + Concat(disk[1..])
  }

  // The bytes of the files from k on are the frames of their records.
  lemma {:induction false} ConcatFrames(disk: seq<DiskFile>, files: seq<WalFile>, k: nat)
    requires Stores(disk, files) && k <= |disk|
    ensures AllStorable(RecordsFrom(files, k)) && Concat(disk[k..]) == Frames(RecordsFrom(files, k))
    decreases |disk| - k
  {
    if k < |disk| {
      ConcatFrames(disk, files, k + 1);
      assert disk[k..][1..] == disk[k + 1..];
      FramesSplit(files[k].recs, RecordsFrom(files, k + 1));
    }
  }

  lemma BytesOfRecords(disk: seq<DiskFile>, files: seq<WalFile>, k: nat, input: Bytes, ri: int)
    requires Stores(disk, files) && k <= |disk| && input == Concat(disk[k..])
    ensures var res := ReadBytes(FRESH_REPLAY, ri, input, 0);
            WalModel.ReadAll(files, k, ri) ==
            if res.Reading? && res.r.enti < ri then ReadFailed(IndexNotFound) else res
  {
    ConcatFrames(disk, files, k);
    assert input[0..] == input;
    FramesReadBack(FRESH_REPLAY, ri, input, 0, RecordsFrom(files, k));
  }

  class Wal {
    var disk: seq<DiskFile>     // the directory, in name order
    var seqno: int              // sequence number of the file being written
    var enti: int               // index of the last entry saved
    var crc: bv32               // the encoder's running checksum
    var ri: int                 // index of the entry to start reading at
    var input: Bytes            // what the decoder reads, and how far it got
    var pos: nat
    ghost var model: Log

    ghost predicate Appending()
      reads this
    {
      && disk != [] && Stores(disk, model.files) && seqno == disk[|disk| - 1].seqno
      && enti == model.enti && crc == model.crc
    }

    ghost predicate Opened(k: nat)
      reads this
    {
      && disk != [] && Stores(disk, model.files) && seqno == disk[|disk| - 1].seqno && k <= |disk|
      && pos == 0 && enti == 0 && input == Concat(disk[k..])
    }

    /** Create. */
    constructor Create()
      ensures Appending() && model == WalModel.Create()
    {
      disk := [DiskFile(0, 0, [])];
      seqno, enti, crc, ri, input, pos := 0, 0, 0, 0, [], 0;
      model := Log([WalFile(0, 0, [])], 0, 0);
      new;
      Encode(CRC_TYPE, Nothing);
    }

    // Appends a framed record to the current file and moves on to checksum c.
    method AppendFrame(frame: Bytes, c: bv32, ghost rec: Record)
      requires Appending() && Storable(rec) && frame == Frame(rec)
      modifies this`disk, this`crc, this`model
      ensures Appending() && model == old(model).Append(rec, c)
    {
      crc := c;
      var last := disk[|disk| - 1];
      disk := disk[|disk| - 1 := last.(data := last.data + frame)];
      model := model.Append(rec, c);
      StoresOneMore(old(disk), old(model).files, rec, disk, model.files);
    }

    // encoder.encode: checksum, marshal, frame, append to the current file.
    method Encode(typ: int, data: Option<Bytes>)
      requires Appending() && Int64(typ) && PayloadFits(data)
      modifies this`disk, this`crc, this`model
      ensures Appending() && model == old(model).Encode(typ, data)
    {
      var c := Update(crc, if data == Nothing then [] else data.value);
      var rec := Record(typ, Sum(c), data);
      RecordStorable(typ, c, data, rec);
      var frame := FrameOf(rec);
      AppendFrame(frame, c, rec);
    }

    method SaveInfo(id: int)
      requires Appending() && Int64(id)
      modifies this`disk, this`crc, this`model
      ensures Appending() && model == old(model).SaveInfo(id)
    {
      InfoFits(id);
      Encode(INFO_TYPE, Just(EncodeInfo(id)));
    }

    method SaveEntry(e: Entry)
      requires Appending() && Savable(e)
      modifies this`disk, this`crc, this`model, this`enti
      ensures Appending() && model == old(model).SaveEntry(e)
    {
      var n := SizeEntry(e);
      var buf := new byte[n];
      ghost var was := buf[..];
      var _ := MarshalEntry(buf, 0, e);
      WroteAll(was, buf[..], EncodeEntry(e));
      EntryPayload(e);
      Encode(ENTRY_TYPE, Just(buf[..]));
      enti := e.index;
      model := model.(enti := e.index);
    }

    // An empty state is not saved.
    method SaveState(st: HardState)
      requires Appending() && HardStateFits(st)
      modifies this`disk, this`crc, this`model
      ensures Appending() && model == old(model).SaveState(st)
    {
      if st == EMPTY_HARD_STATE {
        return;
      }
      var n := SizeHardState(st);
      var buf := new byte[n];
      ghost var was := buf[..];
      var _ := MarshalHardState(buf, 0, st);
      WroteAll(was, buf[..], EncodeHardState(st));
      StatePayload(st);
      Encode(STATE_TYPE, Just(buf[..]));
    }

    /** Save: the state, then each entry. */
    method Save(st: HardState, es: seq<Entry>)
      requires Appending() && HardStateFits(st) && AllSavable(es)
      modifies this`disk, this`crc, this`model, this`enti
      ensures Appending() && model == old(model).Save(st, es)
    {
      SaveState(st);
      ghost var start := model;
      for i := 0 to |es|
        invariant Appending() && model.SaveEntries(es[i..]) == start.SaveEntries(es)
      {
        assert Savable(es[i]);
        assert es[i..][0] == es[i] && es[i..][1..] == es[i + 1..];
        SaveEntry(es[i]);
      }
    }

    /** Cut: a new file named after the next sequence number and entry index. */
    method Cut()
      requires Appending()
      modifies this`disk, this`crc, this`model, this`seqno
      ensures Appending() && model == old(model).Cut()
    {
      ghost var file := WalFile(seqno + 1, enti + 1, []);
      disk := disk + [DiskFile(seqno + 1, enti + 1, [])];
      seqno := seqno + 1;
      StoresNewFile(old(disk), model.files, disk, file);
      CutIs(model, file);
      model := model.(files := model.files + [file]);
      Encode(CRC_TYPE, Nothing);
    }

    /** ReadAll: the loop over decoded records; afterwards the log accepts new records. */
    method ReadAll(ghost k: nat) returns (res: ReadResult)
      requires Opened(k)
      modifies this
      ensures model.files == old(model).files && res == WalModel.ReadAll(old(model).files, k, old(ri))
      ensures res.Reading? ==> Appending() && model == old(model).(enti := res.r.enti, crc := res.r.crc)
    {
      BytesOfRecords(disk, model.files, k, input, ri);
      res := ReadLoop();
      if res.ReadFailed? {
        return;
      }
      if res.r.enti < ri {
        return ReadFailed(IndexNotFound);
      }
      StartAppending(res.r.enti, res.r.crc);
    }

    // The encoder continues the decoder's checksum.
    method StartAppending(last: int, c: bv32)
      requires disk != [] && Stores(disk, model.files) && seqno == disk[|disk| - 1].seqno
      modifies this`ri, this`enti, this`crc, this`model
      ensures Appending() && model == old(model).(enti := last, crc := c)
    {
      ri, enti, crc := 0, last, c;
      model := model.(enti := last, crc := c);
    }

    method ReadLoop() returns (res: ReadResult)
      requires pos == 0
      modifies this`pos
      ensures res == ReadBytes(FRESH_REPLAY, ri, input, 0)
    {
      var r := FRESH_REPLAY;
      while true
        invariant pos <= |input| && ReadBytes(r, ri, input, pos) == ReadBytes(FRESH_REPLAY, ri, input, 0)
        decreases |input| - pos
      {
        var d := ReadNext();
        if d.AtEnd? {
          return Reading(r);
        }
        if d.Undecodable? {
          return ReadFailed(d.why);
        }
        var step := ReadRecord(r, ri, d.rec);
        if step.ReadFailed? {
          return step;
        }
        r := step.r;
        pos := d.next;
      }
    }

    // decoder.decode, up to its checksum test.
    method ReadNext() returns (d: DecodeResult)
      requires pos <= |input|
      ensures d == DecodeAt(input, pos)
    {
      if pos == |input| {
        return AtEnd;
      }
      if |input| < pos + 8 {
        return Undecodable(ShortRead);
      }
      var l := LengthAt(input, pos);
      var start := pos + 8;
      if l < 0 {
        return Undecodable(BadData);
      }
      if l > 0 && start == |input| {
        return AtEnd;
      }
      if |input| < start + l {
        return Undecodable(ShortRead);
      }
      var p := Unmarshal(RECORD, input[start..start + l], ZERO_RECORD);
      return if p.status.Failed? then Undecodable(BadData) else Decoded(p.value, start + l);
    }

    // The object OpenAtIndex builds around the files from k on.
    constructor Open(disk: seq<DiskFile>, k: nat, index: int, ghost files: seq<WalFile>)
      requires Stores(disk, files) && k < |disk|
      ensures Opened(k) && ri == index && model.files == files && this.disk == disk
    {
      this.disk := disk;
      seqno, enti, crc, ri, pos := disk[|disk| - 1].seqno, 0, 0, index, 0;
      input := Concat(disk[k..]);
      model := Log(files, 0, 0);
    }
  }

  /** OpenAtIndex: the log opened for reading from the file found, or null when there is no
      such file or the sequence numbers behind it have a gap. */
  method OpenAtIndex(disk: seq<DiskFile>, index: int, ghost files: seq<WalFile>) returns (w: Wal?)
    requires Stores(disk, files)
    ensures var k := SearchIndex(files, index);
            && (w == null <==> k < 0 || !ValidSeq(files[k..]))
            && (w != null ==> w.Opened(k) && w.ri == index && w.model.files == files && fresh(w))
  {
    var k := SearchFile(disk, index);
    SearchAgrees(disk, files, index, k);
    if k < 0 {
      return null;
    }
    var ok := CheckSequence(disk[k..]);
    SequenceAgrees(disk[k..], files[k..]);
    if !ok {
      return null;
    }
    w := new Wal.Open(disk, k, index, files);
  }

  lemma SequenceAgrees(disk: seq<DiskFile>, files: seq<WalFile>)
    requires |disk| == |files| && forall k :: 0 <= k < |disk| ==> disk[k].seqno == files[k].seqno
    ensures ValidSeq(files) <==>
            forall k :: 0 < k < |disk| && disk[k - 1].seqno != 0 ==> disk[k].seqno == disk[k - 1].seqno + 1
  {
  }

  lemma EntryPayload(e: Entry)
    requires Savable(e)
    ensures PayloadFits(Just(EncodeEntry(e)))
  {
  }

  lemma StatePayload(st: HardState)
    requires HardStateFits(st)
    ensures PayloadFits(Just(EncodeHardState(st)))
  {
    VarintsShort(HardStateFields(st));
  }

  lemma InfoFits(id: int)
    requires Int64(id)
    ensures PayloadFits(Just(EncodeInfo(id)))
  {
    VarintsShort([VarintField(1, ToWord(id))]);
  }

  lemma CutIs(w: Log, file: WalFile)
    requires w.files != [] && file == WalFile(w.files[|w.files| - 1].seqno + 1, w.enti + 1, [])
    ensures w.Cut() == w.(files := w.files + [file]).Encode(CRC_TYPE, Nothing)
  {
  }

  lemma StoresNewFile(disk: seq<DiskFile>, files: seq<WalFile>, disk': seq<DiskFile>, file: WalFile)
    requires Stores(disk, files) && file.recs == []
    requires disk' == disk + [DiskFile(file.seqno, file.index, [])]
    ensures Stores(disk', files + [file])
  {
  }

  lemma OneMoreFrame(recs: seq<Record>, rec: Record)
    requires AllStorable(recs) && Storable(rec)
    ensures AllStorable(recs + [rec]) && Frames(recs + [rec]) == Frames(recs) + Frame(rec)
  {
    FramesSplit(recs, [rec]);
    assert [rec][1..] == [];
    assert Frame(rec) + [] == Frame(rec);
  }
}
