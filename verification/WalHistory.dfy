/** Every history of saves and cuts, and what replaying the log from any of its files gives. */
module WalHistory {
  import opened Collections
  import opened RaftTypes
  import opened Wire
  import opened RaftCodec
  import opened Checksum
  import opened WalModel

  datatype Op = PutInfo(id: int) | PutState(st: HardState) | PutEntry(e: Entry) | CutFile

  // The log with what it stands for: the entries by truncate and append, and the last state.
  datatype Journal = Journal(wal: Log, log: seq<Entry>, state: HardState)

  const NEW_JOURNAL := Journal(Create(), [], EMPTY_HARD_STATE)

  // An entry lands inside the log or right behind it; every info names the same node.
  ghost predicate Allowed(id: int, h: Journal, op: Op) {
    match op
    case PutInfo(i) => i == id && Int64(i)
    case PutState(st) => HardStateFits(st)
    case PutEntry(e) => EntryFits(e) && 0 <= e.index <= |h.log|
    case CutFile => true
  }

  ghost function Apply(id: int, h: Journal, op: Op): Journal
    requires h.wal.files != [] && Allowed(id, h, op)
  {
    match op
    case PutInfo(i) => h.(wal := h.wal.SaveInfo(i))
    case PutState(st) => h.(wal := h.wal.SaveState(st), state := if st == EMPTY_HARD_STATE then h.state else st)
    case PutEntry(e) => h.(wal := h.wal.SaveEntry(e), log := h.log[..e.index] + [e])
    case CutFile => h.(wal := h.wal.Cut())
  }

  // ---- What replaying from a file gives ----

  ghost predicate HasState(recs: seq<Record>) {
    exists j :: 0 <= j < |recs| && recs[j].typ == STATE_TYPE
  }

  // r is what reading recs at ri leaves, against the logical log and state.
  ghost predicate Faithful(id: int, h: Journal, ri: nat, recs: seq<Record>, r: Replay) {
    && r.crc == h.wal.crc && (r.id == 0 || r.id == id)
    && (|h.log| > ri ==> r.ents == h.log[ri..] && r.enti == |h.log| - 1)
    && (|h.log| <= ri ==> r.enti == 0 || r.enti < ri)
    && r.state == (if HasState(recs) then h.state else EMPTY_HARD_STATE)
  }

  ghost predicate ReplaysAs(id: int, h: Journal, ri: nat, recs: seq<Record>) {
    var res := ReadRecords(FRESH_REPLAY, ri, recs);
    res.Reading? && Faithful(id, h, ri, recs, res.r)
  }

  ghost predicate ReplaysFrom(id: int, h: Journal, k: nat)
    requires k < |h.wal.files|
  {
    forall ri: nat {:trigger ReplaysAs(id, h, ri, RecordsFrom(h.wal.files, k))} ::
      ri >= h.wal.files[k].index ==> ReplaysAs(id, h, ri, RecordsFrom(h.wal.files, k))
  }

  ghost predicate Consistent(id: int, h: Journal) {
    && h.wal.files != [] && h.wal.files[0].index == 0
    && h.wal.enti == (if h.log == [] then 0 else |h.log| - 1)
    && (forall k :: 0 <= k < |h.wal.files| ==> h.wal.files[k].seqno == k)
    && (forall k {:trigger ReplaysFrom(id, h, k)} :: 0 <= k < |h.wal.files| ==> ReplaysFrom(id, h, k))
  }

  // ---- One more record ----

  lemma {:induction false} ReadOneMore(r: Replay, ri: int, recs: seq<Record>, rec: Record)
    ensures ReadRecords(r, ri, recs + [rec]) ==
            match ReadRecords(r, ri, recs)
            case ReadFailed(why) => ReadFailed(why)
            case Reading(r') => ReadRecord(r', ri, rec)
    decreases |recs|
  {
    var all := recs + [rec];
    if recs == [] {
      assert all == [rec] && all[1..] == [];
    } else {
      assert all[0] == recs[0] && all[1..] == recs[1..] + [rec];
      var first := ReadRecord(r, ri, recs[0]);
      if first.Reading? {
        ReadOneMore(first.r, ri, recs[1..], rec);
      }
    }
  }

  lemma {:induction false} LastFileGrows(files: seq<WalFile>, k: nat, rec: Record)
    requires k < |files|
    ensures var last := files[|files| - 1];
            RecordsFrom(files[|files| - 1 := last.(recs := last.recs + [rec])], k) == RecordsFrom(files, k) + [rec]
    decreases |files| - k
  {
    var last := files[|files| - 1];
    var grown := files[|files| - 1 := last.(recs := last.recs + [rec])];
    if k < |files| - 1 {
      LastFileGrows(files, k + 1, rec);
      Assoc(files[k].recs, RecordsFrom(files, k + 1), [rec]);
    } else {
      assert RecordsFrom(grown, k + 1) == [] && RecordsFrom(files, k + 1) == [];
      Assoc(last.recs, [rec], []);
      assert last.recs + [] == last.recs;
    }
  }

  lemma {:induction false} NewFileAdds(files: seq<WalFile>, k: nat, file: WalFile)
    requires k <= |files| && file.recs == []
    ensures RecordsFrom(files + [file], k) == RecordsFrom(files, k)
    decreases |files| - k
  {
    if k < |files| {
      NewFileAdds(files, k + 1, file);
    }
  }

  lemma HasStateOneMore(recs: seq<Record>, rec: Record)
    ensures HasState(recs + [rec]) <==> HasState(recs) || rec.typ == STATE_TYPE
  {
    var all := recs + [rec];
    assert all[|recs|] == rec;
    assert forall j :: 0 <= j < |recs| ==> all[j] == recs[j];
  }

  // A record written with the running checksum passes the reader's check.
  lemma ChecksumPasses(r: Replay, ri: int, w: Log, typ: int, data: Bytes, rec: Record)
    requires r.crc == w.crc && typ != CRC_TYPE && rec == Record(typ, Sum(Update(w.crc, data)), Just(data))
    ensures ReadRecord(r, ri, rec) == ReadPayload(r.(crc := Update(w.crc, data)), ri, typ, data)
  {
  }

  // The record an operation writes, and the checksum after it.
  function Written(w: Log, typ: int, data: Bytes): Record {
    Record(typ, Sum(Update(w.crc, data)), Just(data))
  }

  lemma EntryReplays(id: int, h: Journal, h': Journal, e: Entry, ri: nat, recs: seq<Record>, rec: Record)
    requires ReplaysAs(id, h, ri, recs) && Allowed(id, h, PutEntry(e)) && h.wal.files != []
    requires h' == Apply(id, h, PutEntry(e)) && rec == Written(h.wal, ENTRY_TYPE, EncodeEntry(e))
    ensures ReplaysAs(id, h', ri, recs + [rec])
  {
    var r := ReadRecords(FRESH_REPLAY, ri, recs).r;
    ReadOneMore(FRESH_REPLAY, ri, recs, rec);
    HasStateOneMore(recs, rec);
    ChecksumPasses(r, ri, h.wal, ENTRY_TYPE, EncodeEntry(e), rec);
    EntryRoundTrip(e);
    TruncateAndAppend(h.log, r.ents, ri, e);
  }

  // The suffix kept by a reader follows the log through a truncate and append.
  lemma TruncateAndAppend(log: seq<Entry>, ents: seq<Entry>, ri: nat, e: Entry)
    requires 0 <= e.index <= |log| && (|log| > ri ==> ents == log[ri..])
    ensures e.index >= ri ==>
              e.index - ri <= |ents| && ents[..e.index - ri] + [e] == (log[..e.index] + [e])[ri..]
  {
    if e.index > ri {
      assert ents[..e.index - ri] == log[ri..e.index];
    }
  }

  lemma StateReplays(id: int, h: Journal, h': Journal, st: HardState, ri: nat, recs: seq<Record>, rec: Record)
    requires ReplaysAs(id, h, ri, recs) && Allowed(id, h, PutState(st)) && h.wal.files != [] && st != EMPTY_HARD_STATE
    requires h' == Apply(id, h, PutState(st)) && rec == Written(h.wal, STATE_TYPE, EncodeHardState(st))
    ensures ReplaysAs(id, h', ri, recs + [rec])
  {
    var r := ReadRecords(FRESH_REPLAY, ri, recs).r;
    ReadOneMore(FRESH_REPLAY, ri, recs, rec);
    HasStateOneMore(recs, rec);
    ChecksumPasses(r, ri, h.wal, STATE_TYPE, EncodeHardState(st), rec);
    HardStateRoundTrip(st);
  }

  lemma InfoReplays(id: int, h: Journal, h': Journal, ri: nat, recs: seq<Record>, rec: Record)
    requires ReplaysAs(id, h, ri, recs) && Allowed(id, h, PutInfo(id)) && h.wal.files != []
    requires h' == Apply(id, h, PutInfo(id)) && rec == Written(h.wal, INFO_TYPE, EncodeInfo(id))
    ensures ReplaysAs(id, h', ri, recs + [rec])
  {
    var r := ReadRecords(FRESH_REPLAY, ri, recs).r;
    ReadOneMore(FRESH_REPLAY, ri, recs, rec);
    HasStateOneMore(recs, rec);
    ChecksumPasses(r, ri, h.wal, INFO_TYPE, EncodeInfo(id), rec);
    InfoRoundTrip(id);
  }

  // The checksum record of a new file agrees with the reader's own checksum.
  lemma CutReplays(id: int, h: Journal, h': Journal, ri: nat, recs: seq<Record>, rec: Record)
    requires ReplaysAs(id, h, ri, recs) && h.wal.files != []
    requires h' == Apply(id, h, CutFile) && rec == Record(CRC_TYPE, Sum(h.wal.crc), Nothing)
    ensures h'.wal.crc == h.wal.crc && ReplaysAs(id, h', ri, recs + [rec])
  {
    UpdateNothing(h.wal.crc);
    SumRoundTrip(h.wal.crc);
    ReadOneMore(FRESH_REPLAY, ri, recs, rec);
    HasStateOneMore(recs, rec);
  }

  // ---- Every history ----

  lemma RecordWritten(w: Log, typ: int, data: Option<Bytes>, k: nat) returns (rec: Record)
    requires k < |w.files|
    ensures var c := Update(w.crc, if data == Nothing then [] else data.value);
            rec == Record(typ, Sum(c), data) && w.Encode(typ, data).crc == c
    ensures |w.Encode(typ, data).files| == |w.files|
    ensures w.Encode(typ, data).files[k].index == w.files[k].index
    ensures w.Encode(typ, data).files[k].seqno == w.files[k].seqno
    ensures RecordsFrom(w.Encode(typ, data).files, k) == RecordsFrom(w.files, k) + [rec]
  {
    rec := Record(typ, Sum(Update(w.crc, if data == Nothing then [] else data.value)), data);
    LastFileGrows(w.files, k, rec);
  }

  lemma PutReplays(id: int, h: Journal, op: Op, k: nat)
    requires Consistent(id, h) && Allowed(id, h, op) && !op.CutFile? && op != PutState(EMPTY_HARD_STATE)
    requires k < |h.wal.files|
    ensures var h' := Apply(id, h, op);
            && |h'.wal.files| == |h.wal.files| && h'.wal.files[k].index == h.wal.files[k].index
            && h'.wal.files[k].seqno == h.wal.files[k].seqno && ReplaysFrom(id, h', k)
  {
    var h' := Apply(id, h, op);
    var recs := RecordsFrom(h.wal.files, k);
    var (typ, data) := match op {
      case PutInfo(i) => (INFO_TYPE, EncodeInfo(i))
      case PutState(st) => (STATE_TYPE, EncodeHardState(st))
      case PutEntry(e) => (ENTRY_TYPE, EncodeEntry(e))
      case CutFile => (0, [])
    };
    var rec := RecordWritten(h.wal, typ, Just(data), k);
    assert ReplaysFrom(id, h, k);
    forall ri: nat | ri >= h.wal.files[k].index ensures ReplaysAs(id, h', ri, recs + [rec]) {
      assert ReplaysAs(id, h, ri, recs);
      match op {
        case PutInfo(_) => InfoReplays(id, h, h', ri, recs, rec);
        case PutState(st) => StateReplays(id, h, h', st, ri, recs, rec);
        case PutEntry(e) => EntryReplays(id, h, h', e, ri, recs, rec);
        case CutFile =>
      }
    }
  }

  lemma PutConsistent(id: int, h: Journal, op: Op)
    requires Consistent(id, h) && Allowed(id, h, op) && !op.CutFile? && op != PutState(EMPTY_HARD_STATE)
    ensures Consistent(id, Apply(id, h, op))
  {
    var h' := Apply(id, h, op);
    forall k | 0 <= k < |h.wal.files|
      ensures |h'.wal.files| == |h.wal.files| && h'.wal.files[k].index == h.wal.files[k].index &&
              h'.wal.files[k].seqno == k && ReplaysFrom(id, h', k) {
      PutReplays(id, h, op, k);
    }
    assert |h'.wal.files| == |h.wal.files| by {
      PutReplays(id, h, op, 0);
    }
  }

  lemma CutOldFile(id: int, h: Journal, k: nat)
    requires Consistent(id, h) && k < |h.wal.files|
    ensures var h' := Apply(id, h, CutFile);
            && |h'.wal.files| == |h.wal.files| + 1 && h'.wal.files[k].index == h.wal.files[k].index
            && h'.wal.files[k].seqno == h.wal.files[k].seqno && ReplaysFrom(id, h', k)
  {
    var h' := Apply(id, h, CutFile);
    var w := h.wal;
    var file := WalFile(w.files[|w.files| - 1].seqno + 1, w.enti + 1, []);
    var recs := RecordsFrom(w.files, k);
    NewFileAdds(w.files, k, file);
    var rec := RecordWritten(w.(files := w.files + [file]), CRC_TYPE, Nothing, k);
    UpdateNothing(w.crc);
    assert ReplaysFrom(id, h, k);
    forall ri: nat | ri >= w.files[k].index ensures ReplaysAs(id, h', ri, recs + [rec]) {
      assert ReplaysAs(id, h, ri, recs);
      CutReplays(id, h, h', ri, recs, rec);
    }
  }

  // Replaying from a file just cut: nothing to read yet but the checksum.
  lemma CutNewFile(id: int, h: Journal)
    requires Consistent(id, h)
    ensures var h' := Apply(id, h, CutFile);
            var k := |h.wal.files|;
            |h'.wal.files| == k + 1 && h'.wal.files[k].seqno == k && ReplaysFrom(id, h', k)
  {
    var h' := Apply(id, h, CutFile);
    var w, k := h.wal, |h.wal.files|;
    assert w.files[k - 1].seqno == k - 1;
    var file := WalFile(k, w.enti + 1, []);
    var rec := RecordWritten(w.(files := w.files + [file]), CRC_TYPE, Nothing, k);
    assert RecordsFrom(w.files + [file], k + 1) == [];
    assert RecordsFrom(w.files + [file], k) == [];
    UpdateNothing(w.crc);
    forall ri: nat | ri >= w.enti + 1 ensures ReplaysAs(id, h', ri, [] + [rec]) {
      StartReplays(id, h', ri, rec);
    }
  }

  lemma StartReplays(id: int, h: Journal, ri: nat, rec: Record)
    requires |h.log| <= ri && rec == Record(CRC_TYPE, Sum(h.wal.crc), Nothing)
    ensures ReplaysAs(id, h, ri, [] + [rec])
  {
    SumRoundTrip(h.wal.crc);
    ReadOneMore(FRESH_REPLAY, ri, [], rec);
    HasStateOneMore([], rec);
  }

  lemma CutConsistent(id: int, h: Journal)
    requires Consistent(id, h)
    ensures Consistent(id, Apply(id, h, CutFile))
  {
    var h' := Apply(id, h, CutFile);
    CutNewFile(id, h);
    forall k | 0 <= k < |h'.wal.files| ensures h'.wal.files[k].seqno == k && ReplaysFrom(id, h', k) {
      if k < |h.wal.files| {
        CutOldFile(id, h, k);
      }
    }
    CutOldFile(id, h, 0);
  }

  lemma NewConsistent(id: int)
    ensures Consistent(id, NEW_JOURNAL)
  {
    var h := NEW_JOURNAL;
    var w := Log([WalFile(0, 0, [])], 0, 0);
    var rec := RecordWritten(w, CRC_TYPE, Nothing, 0);
    assert RecordsFrom(w.files, 1) == [];
    assert RecordsFrom(w.files, 0) == [];
    UpdateNothing(0);
    forall ri: nat | ri >= 0 ensures ReplaysAs(id, h, ri, [] + [rec]) {
      StartReplays(id, h, ri, rec);
    }
    assert ReplaysFrom(id, h, 0);
  }

  lemma StepConsistent(id: int, h: Journal, op: Op)
    requires Consistent(id, h) && Allowed(id, h, op)
    ensures Consistent(id, Apply(id, h, op))
  {
    if op.CutFile? {
      CutConsistent(id, h);
    } else if op != PutState(EMPTY_HARD_STATE) {
      PutConsistent(id, h, op);
    }
  }

  // The history a list of operations leaves, if each is allowed in its turn.
  ghost function After(id: int, ops: seq<Op>): (r: Option<Journal>)
    ensures r.Just? ==> Consistent(id, r.value)
  {
    if ops == [] then NewConsistent(id); Just(NEW_JOURNAL)
    else
      var last := ops[|ops| - 1];
      match After(id, ops[..|ops| - 1])
      case Nothing => Nothing
      case Just(h) =>
        if Allowed(id, h, last) then StepConsistent(id, h, last); Just(Apply(id, h, last)) else Nothing
  }

  lemma SearchFinds(id: int, h: Journal, ri: nat) returns (k: nat)
    requires Consistent(id, h)
    ensures k == SearchIndex(h.wal.files, ri) && k < |h.wal.files| && h.wal.files[k].index <= ri
    ensures ValidSeq(h.wal.files[k..])
  {
    var found := SearchIndex(h.wal.files, ri);
    assert h.wal.files[0].index <= ri;
    assert found >= 0;
    k := found;
    var rest := h.wal.files[k..];
    forall j | 0 < j < |rest| ensures rest[j].seqno == rest[j - 1].seqno + 1 {
      assert rest[j] == h.wal.files[k + j] && rest[j - 1] == h.wal.files[k + j - 1];
    }
  }

  lemma ReadFromFile(id: int, h: Journal, k: nat, ri: nat)
    requires Consistent(id, h) && k < |h.wal.files| && ri >= h.wal.files[k].index
    ensures ReplaysAs(id, h, ri, RecordsFrom(h.wal.files, k))
  {
    assert ReplaysFrom(id, h, k);
  }

  /** Opening the log at any index of it: the file found passes every check from there on,
      and yields exactly the entries of the logical log from that index, the suffix of what
      reading from the first file yields. An index behind the log is reported as missing. */
  lemma OpenAtAnyIndex(id: int, ops: seq<Op>, h: Journal, ri: nat)
    requires After(id, ops) == Just(h)
    ensures var k := SearchIndex(h.wal.files, ri);
            && k >= 0 && ValidSeq(h.wal.files[k..])
            && var res, whole := ReadAll(h.wal.files, k, ri), ReadAll(h.wal.files, 0, 0);
               && (ri < |h.log| ==>
                     && res.Reading? && res.r.ents == h.log[ri..]
                     && res.r.enti == h.wal.enti && res.r.crc == h.wal.crc
                     && res.r.state == (if HasState(RecordsFrom(h.wal.files, k)) then h.state else EMPTY_HARD_STATE)
                     && whole.Reading? && whole.r.ents == h.log && res.r.ents == whole.r.ents[ri..])
               && (ri >= |h.log| && ri > 0 ==> res == ReadFailed(IndexNotFound))
  {
    var k := SearchFinds(id, h, ri);
    ReadFromFile(id, h, k, ri);
    ReadFromFile(id, h, 0, 0);
  }

  /** Reading from the first file gives back everything: log, state, last index, checksum. */
  lemma ReadWholeLog(id: int, ops: seq<Op>, h: Journal)
    requires After(id, ops) == Just(h) && h.log != []
    ensures var res := ReadAll(h.wal.files, 0, 0);
            && res.Reading? && res.r.ents == h.log && res.r.state == h.state
            && res.r.enti == h.wal.enti && res.r.crc == h.wal.crc
  {
    ReadFromFile(id, h, 0, 0);
    StateRecorded(id, ops);
  }

  // A history whose state is not empty has recorded it.
  lemma {:induction false} StateRecorded(id: int, ops: seq<Op>)
    requires After(id, ops).Just?
    ensures var h := After(id, ops).value; HasState(RecordsFrom(h.wal.files, 0)) || h.state == EMPTY_HARD_STATE
    decreases |ops|
  {
    if ops != [] {
      var op := ops[|ops| - 1];
      StateRecorded(id, ops[..|ops| - 1]);
      var h := After(id, ops[..|ops| - 1]).value;
      StateStays(id, h, op);
    }
  }

  lemma StateStays(id: int, h: Journal, op: Op)
    requires Consistent(id, h) && Allowed(id, h, op)
    requires HasState(RecordsFrom(h.wal.files, 0)) || h.state == EMPTY_HARD_STATE
    ensures var h' := Apply(id, h, op); HasState(RecordsFrom(h'.wal.files, 0)) || h'.state == EMPTY_HARD_STATE
  {
    var recs := RecordsFrom(h.wal.files, 0);
    match op {
      case PutInfo(i) =>
        var rec := RecordWritten(h.wal, INFO_TYPE, Just(EncodeInfo(i)), 0);
        HasStateOneMore(recs, rec);
      case PutState(st) =>
        if st != EMPTY_HARD_STATE {
          var rec := RecordWritten(h.wal, STATE_TYPE, Just(EncodeHardState(st)), 0);
          HasStateOneMore(recs, rec);
        }
      case PutEntry(e) =>
        var rec := RecordWritten(h.wal, ENTRY_TYPE, Just(EncodeEntry(e)), 0);
        HasStateOneMore(recs, rec);
      case CutFile =>
        var w := h.wal;
        var file := WalFile(w.files[|w.files| - 1].seqno + 1, w.enti + 1, []);
        NewFileAdds(w.files, 0, file);
        var rec := RecordWritten(w.(files := w.files + [file]), CRC_TYPE, Nothing, 0);
        HasStateOneMore(recs, rec);
    }
  }
}
