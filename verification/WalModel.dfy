/** The write-ahead log as a value: files of checksummed records, the operations that append
    to them and the replay that reads them back. Each operation here is the specification
    of the method of the same name of class `Wal`. */
module WalModel {
  import opened Collections
  import opened RaftTypes
  import opened Wire
  import opened Unmarshalling
  import opened RaftCodec
  import opened Checksum

  const INFO_TYPE := 1
  const ENTRY_TYPE := 2
  const STATE_TYPE := 3
  const CRC_TYPE := 4

  // The checksum as a record carries it, and back.
  function Sum(c: bv32): int { c as int }

  function FromSum(x: int): bv32 { if 0 <= x < TWO32 then x as bv32 else 0 }

  lemma SumRoundTrip(c: bv32)
    ensures 0 <= Sum(c) < TWO32 && FromSum(Sum(c)) == c
  {
  }

  // An entry whose record, too, has a 64-bit length.
  predicate Savable(e: Entry) {
    EntryInts(e) && |EncodeEntry(e)| + 40 < TWO63
  }

  predicate AllSavable(es: seq<Entry>) {
    forall k :: 0 <= k < |es| ==> Savable(es[k])
  }

  // ---- Writing ----

  // A file named (seqno, index): index is the first entry index expected in it.
  datatype WalFile = WalFile(seqno: int, index: int, recs: seq<Record>)

  datatype Log = Log(files: seq<WalFile>, enti: int, crc: bv32)
  {
    // The encoder: the checksum runs over the record's data and is stored with it.
    function Encode(typ: int, data: Option<Bytes>): Log
      requires files != []
    {
      var c := Update(crc, if data == Nothing then [] else data.value);
      Append(Record(typ, Sum(c), data), c)
    }

    function Append(rec: Record, c: bv32): Log
      requires files != []
    {
      var last := files[|files| - 1];
      this.(files := files[|files| - 1 := last.(recs := last.recs + [rec])], crc := c)
    }

    function SaveInfo(id: int): Log
      requires files != [] && Int64(id)
    {
      Encode(INFO_TYPE, Just(EncodeInfo(id)))
    }

    function SaveEntry(e: Entry): Log
      requires files != [] && EntryInts(e)
    {
      Encode(ENTRY_TYPE, Just(EncodeEntry(e))).(enti := e.index)
    }

    function SaveState(st: HardState): Log
      requires files != [] && HardStateFits(st)
    {
      if st == EMPTY_HARD_STATE then this else Encode(STATE_TYPE, Just(EncodeHardState(st)))
    }

    function SaveEntries(es: seq<Entry>): (w: Log)
      requires files != [] && forall k :: 0 <= k < |es| ==> EntryInts(es[k])
      ensures w.files != []
      decreases |es|
    {
      if es == [] then this else SaveEntry(es[0]).SaveEntries(es[1..])
    }

    function Save(st: HardState, es: seq<Entry>): Log
      requires files != [] && HardStateFits(st) && forall k :: 0 <= k < |es| ==> EntryInts(es[k])
    {
      SaveState(st).SaveEntries(es)
    }

    // A new file, named after the next sequence number and the next entry index, that
    // starts with the checksum so far.
    function Cut(): Log
      requires files != []
    {
      var file := WalFile(files[|files| - 1].seqno + 1, enti + 1, []);
      this.(files := files + [file]).Encode(CRC_TYPE, Nothing)
    }
  }

  function Create(): Log {
    Log([WalFile(0, 0, [])], 0, 0).Encode(CRC_TYPE, Nothing)
  }

  // ---- Reading ----

  datatype WalError =
    | FileNotFound | IndexNotFound | IDMismatch | CrcMismatch | UnexpectedType
    | EntryGap        // ents[:k] reaches past the entries read so far
    | BadData         // a payload that does not unmarshal: the source panics
    | ShortRead       // the bytes end inside a record

  datatype Replay = Replay(id: int, state: HardState, ents: seq<Entry>, enti: int, crc: bv32)

  datatype ReadResult = Reading(r: Replay) | ReadFailed(why: WalError)

  const FRESH_REPLAY := Replay(0, EMPTY_HARD_STATE, [], 0, 0)

  // decode's check of one record, then ReadAll's treatment of it.
  function ReadRecord(r: Replay, ri: int, rec: Record): ReadResult {
    if rec.typ == CRC_TYPE then
      if r.crc != 0 && rec.crc != Sum(r.crc) then ReadFailed(CrcMismatch)
      else Reading(r.(crc := FromSum(rec.crc)))
    else
      var data := if rec.data == Nothing then [] else rec.data.value;
      var c := Update(r.crc, data);
      if rec.crc != Sum(c) then ReadFailed(CrcMismatch)
      else ReadPayload(r.(crc := c), ri, rec.typ, data)
  }

  function ReadPayload(r: Replay, ri: int, typ: int, data: Bytes): ReadResult {
    if typ == ENTRY_TYPE then
      var p := UnmarshalFrom(ENTRY, data, 0, DUMMY_ENTRY);
      if p.status.Failed? then ReadFailed(BadData) else ReadEntry(r, ri, p.value)
    else if typ == STATE_TYPE then
      var p := UnmarshalFrom(HARD_STATE, data, 0, EMPTY_HARD_STATE);
      if p.status.Failed? then ReadFailed(BadData) else Reading(r.(state := p.value))
    else if typ == INFO_TYPE then
      var p := UnmarshalFrom(INFO, data, 0, 0);
      if p.status.Failed? then ReadFailed(BadData)
      else if r.id != 0 && r.id != p.value then ReadFailed(IDMismatch)
      else Reading(r.(id := p.value))
    else ReadFailed(UnexpectedType)
  }

  // Truncate and append.
  function ReadEntry(r: Replay, ri: int, e: Entry): ReadResult {
    if e.index < ri then Reading(r.(enti := e.index))
    else if e.index - ri > |r.ents| then ReadFailed(EntryGap)
    else Reading(r.(ents := r.ents[..e.index - ri] + [e], enti := e.index))
  }

  function ReadRecords(r: Replay, ri: int, recs: seq<Record>): ReadResult
    decreases |recs|
  {
    if recs == [] then Reading(r)
    else
      match ReadRecord(r, ri, recs[0])
      case ReadFailed(why) => ReadFailed(why)
      case Reading(r') => ReadRecords(r', ri, recs[1..])
  }

  // The records of the files from k on, in order.
  function RecordsFrom(files: seq<WalFile>, k: nat): seq<Record>
    requires k <= |files|
    decreases |files| - k
  {
    if k == |files| then [] else files[k].recs + RecordsFrom(files, k + 1)
  }

  function ReadAll(files: seq<WalFile>, k: nat, ri: int): ReadResult
    requires k <= |files|
  {
    match ReadRecords(FRESH_REPLAY, ri, RecordsFrom(files, k))
    case ReadFailed(why) => ReadFailed(why)
    case Reading(r) => if r.enti < ri then ReadFailed(IndexNotFound) else Reading(r)
  }

  // The last file whose index does not exceed the given one; -1 if there is none.
  function SearchIndex(files: seq<WalFile>, index: int): (k: int)
    ensures -1 <= k < |files|
    ensures k >= 0 ==> files[k].index <= index
    ensures forall j :: k < j < |files| ==> files[j].index > index
  {
    if files == [] then -1
    else if index >= files[|files| - 1].index then |files| - 1
    else SearchIndex(files[..|files| - 1], index)
  }

  predicate ValidSeq(files: seq<WalFile>) {
    forall k :: 0 < k < |files| && files[k - 1].seqno != 0 ==> files[k].seqno == files[k - 1].seqno + 1
  }

  /** Files numbered 0 and 5 pass for a sequence, files numbered 1 and 5 do not. */
  lemma GapAfterZero()
    ensures ValidSeq([WalFile(0, 0, []), WalFile(5, 0, [])])
    ensures !ValidSeq([WalFile(1, 0, []), WalFile(5, 0, [])])
  {
    var files := [WalFile(1, 0, []), WalFile(5, 0, [])];
    assert files[0].seqno != 0 && files[1].seqno != files[0].seqno + 1;
  }
}
