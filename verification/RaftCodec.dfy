/** The codecs of raft/raftpb and wal/walpb: what each message type puts on the wire and what
    each field does when it is read back, with their round trips. */
module RaftCodec {
  import opened Collections
  import opened RaftTypes
  import opened Wire
  import opened Unmarshalling

  const TWO32: int := 0x1_0000_0000

  predicate Int32(x: int) { -0x8000_0000 <= x < 0x8000_0000 }

  // f |= v on an int64 field.
  function OrInt64(f: int, v: nat): int {
    FromWord(Or(ToWord(if Int64(f) then f else 0), v) % TWO64)
  }

  // f |= v on an int32 field, and on a uint32 field.
  function OrInt32(f: int, v: nat): int {
    ToInt32(Or((if Int32(f) then ToWord(f) else 0) % TWO32, v % TWO32))
  }

  function OrUint32(f: nat, v: nat): nat {
    Or(f, v % TWO32) % TWO32
  }

  lemma OrZero(x: int)
    requires Int64(x)
    ensures OrInt64(0, ToWord(x)) == x
    ensures Int32(x) ==> OrInt32(0, ToWord(x)) == x
    ensures 0 <= x < TWO32 ==> OrUint32(0, ToWord(x)) == x
  {
  }

  // ---- Entry (raft.proto, message Entry) ----

  const ENTRY_SCHEMA: Schema := map[1 := AsVarint, 2 := AsVarint, 3 := AsVarint, 4 := AsBytes]

  function AssignEntry(e: Entry, f: Field, complete: bool): Parsed<Entry> {
    Parsed(
      match f {
        case VarintField(num, v) =>
          if num == 1 then e.(typ := OrInt32(e.typ, v))
          else if num == 2 then e.(term := OrInt64(e.term, v))
          else e.(index := OrInt64(e.index, v))
        case BytesField(_, bs) => e.(data := e.data + bs)
      }, NoError)
  }

  const ENTRY := Format(ENTRY_SCHEMA, AssignEntry)

  predicate EntryInts(e: Entry) { Int32(e.typ) && Int64(e.term) && Int64(e.index) }

  ghost predicate EntryFits(e: Entry) {
    EntryInts(e) && |EncodeEntry(e)| < TWO63
  }

  function EntryFields(e: Entry): (fs: seq<Field>)
    requires EntryInts(e)
  {
    [VarintField(1, ToWord(e.typ)), VarintField(2, ToWord(e.term)), VarintField(3, ToWord(e.index)),
      BytesField(4, e.data)]
  }

  function EncodeEntry(e: Entry): Bytes
    requires EntryInts(e)
  {
    EncodeAll(EntryFields(e))
  }

  /** Unmarshal after MarshalTo is the identity on entries. */
  lemma EntryRoundTrip(e: Entry)
    requires EntryFits(e)
    ensures UnmarshalFrom(ENTRY, EncodeEntry(e), 0, DUMMY_ENTRY) == Parsed(e, NoError)
  {
    var fs := EntryFields(e);
    OrZero(e.typ);
    OrZero(e.term);
    OrZero(e.index);
    assert [] + e.data == e.data;
    var e1 := DUMMY_ENTRY.(typ := e.typ);
    var e2 := e1.(term := e.term);
    var e3 := e2.(index := e.index);
    AssignNext(ENTRY, DUMMY_ENTRY, fs, 0, e1);
    AssignNext(ENTRY, e1, fs, 1, e2);
    AssignNext(ENTRY, e2, fs, 2, e3);
    AssignNext(ENTRY, e3, fs, 3, e);
    AssignDone(ENTRY, e, fs);
    PayloadWithin(fs, 3);
    WholeReadBack(ENTRY, EncodeEntry(e), fs, DUMMY_ENTRY, e);
  }

  // ---- HardState (raft.proto, message HardState) ----

  function AssignHardState(st: HardState, f: Field, complete: bool): Parsed<HardState> {
    if f.BytesField? then Parsed(st, NoError)
    else
      Parsed(
        if f.num == 1 then st.(term := OrInt64(st.term, f.value))
        else if f.num == 2 then st.(vote := OrInt64(st.vote, f.value))
        else st.(commit := OrInt64(st.commit, f.value)), NoError)
  }

  const HARD_STATE := Format(map[1 := AsVarint, 2 := AsVarint, 3 := AsVarint], AssignHardState)

  ghost predicate HardStateFits(st: HardState) {
    Int64(st.term) && Int64(st.vote) && Int64(st.commit)
  }

  function HardStateFields(st: HardState): seq<Field>
    requires HardStateFits(st)
  {
    [VarintField(1, ToWord(st.term)), VarintField(2, ToWord(st.vote)), VarintField(3, ToWord(st.commit))]
  }

  function EncodeHardState(st: HardState): Bytes
    requires HardStateFits(st)
  {
    EncodeAll(HardStateFields(st))
  }

  /** Unmarshal after MarshalTo is the identity on hard states. */
  lemma HardStateRoundTrip(st: HardState)
    requires HardStateFits(st)
    ensures UnmarshalFrom(HARD_STATE, EncodeHardState(st), 0, EMPTY_HARD_STATE) == Parsed(st, NoError)
  {
    var fs := HardStateFields(st);
    OrZero(st.term);
    OrZero(st.vote);
    OrZero(st.commit);
    var s1 := EMPTY_HARD_STATE.(term := st.term);
    var s2 := s1.(vote := st.vote);
    AssignNext(HARD_STATE, EMPTY_HARD_STATE, fs, 0, s1);
    AssignNext(HARD_STATE, s1, fs, 1, s2);
    AssignNext(HARD_STATE, s2, fs, 2, st);
    AssignDone(HARD_STATE, st, fs);
    VarintsShort(fs);
    WholeReadBack(HARD_STATE, EncodeHardState(st), fs, EMPTY_HARD_STATE, st);
  }

  // ---- ConfChange (raft.proto, message ConfChange) ----

  datatype ConfChange = ConfChange(id: int, typ: int, nodeID: int, context: Bytes)

  const ZERO_CONF_CHANGE := ConfChange(0, 0, 0, [])

  function AssignConfChange(cc: ConfChange, f: Field, complete: bool): Parsed<ConfChange> {
    Parsed(
      match f {
        case VarintField(num, v) =>
          if num == 1 then cc.(id := OrInt64(cc.id, v))
          else if num == 2 then cc.(typ := OrInt32(cc.typ, v))
          else cc.(nodeID := OrInt64(cc.nodeID, v))
        case BytesField(_, bs) => cc.(context := cc.context + bs)
      }, NoError)
  }

  const CONF_CHANGE := Format(map[1 := AsVarint, 2 := AsVarint, 3 := AsVarint, 4 := AsBytes], AssignConfChange)

  function ConfChangeFields(cc: ConfChange): seq<Field>
    requires Int64(cc.id) && Int32(cc.typ) && Int64(cc.nodeID)
  {
    [VarintField(1, ToWord(cc.id)), VarintField(2, ToWord(cc.typ)), VarintField(3, ToWord(cc.nodeID)),
     BytesField(4, cc.context)]
  }

  function EncodeConfChange(cc: ConfChange): Bytes
    requires Int64(cc.id) && Int32(cc.typ) && Int64(cc.nodeID)
  {
    EncodeAll(ConfChangeFields(cc))
  }

  ghost predicate ConfChangeFits(cc: ConfChange) {
    Int64(cc.id) && Int32(cc.typ) && Int64(cc.nodeID) && |EncodeConfChange(cc)| < TWO63
  }

  /** Unmarshal after MarshalTo is the identity on configuration changes. */
  lemma ConfChangeRoundTrip(cc: ConfChange)
    requires ConfChangeFits(cc)
    ensures UnmarshalFrom(CONF_CHANGE, EncodeConfChange(cc), 0, ZERO_CONF_CHANGE) == Parsed(cc, NoError)
  {
    var fs := ConfChangeFields(cc);
    OrZero(cc.id);
    OrZero(cc.typ);
    OrZero(cc.nodeID);
    assert [] + cc.context == cc.context;
    var c1 := ZERO_CONF_CHANGE.(id := cc.id);
    var c2 := c1.(typ := cc.typ);
    var c3 := c2.(nodeID := cc.nodeID);
    AssignNext(CONF_CHANGE, ZERO_CONF_CHANGE, fs, 0, c1);
    AssignNext(CONF_CHANGE, c1, fs, 1, c2);
    AssignNext(CONF_CHANGE, c2, fs, 2, c3);
    AssignNext(CONF_CHANGE, c3, fs, 3, cc);
    AssignDone(CONF_CHANGE, cc, fs);
    PayloadWithin(fs, 3);
    WholeReadBack(CONF_CHANGE, EncodeConfChange(cc), fs, ZERO_CONF_CHANGE, cc);
  }

  // ---- Record (record.proto, message Record) ----

  // data is Nothing for a nil slice, whose field is not written at all.
  datatype Record = Record(typ: int, crc: int, data: Option<Bytes>)

  const ZERO_RECORD := Record(0, 0, Nothing)

  // append(data, bs...): appending nothing to a nil slice leaves it nil.
  function AppendBytes(data: Option<Bytes>, bs: Bytes): Option<Bytes> {
    match data
    case Nothing => if bs == [] then Nothing else Just(bs)
    case Just(d) => Just(d + bs)
  }

  function AssignRecord(rec: Record, f: Field, complete: bool): Parsed<Record> {
    Parsed(
      match f {
        case VarintField(num, v) =>
          if num == 1 then rec.(typ := OrInt64(rec.typ, v))
          else rec.(crc := OrUint32(if rec.crc < 0 then 0 else rec.crc, v))
        case BytesField(_, bs) => rec.(data := AppendBytes(rec.data, bs))
      }, NoError)
  }

  const RECORD := Format(map[1 := AsVarint, 2 := AsVarint, 3 := AsBytes], AssignRecord)

  function RecordFields(rec: Record): seq<Field>
    requires Int64(rec.typ) && 0 <= rec.crc < TWO32
  {
    [VarintField(1, ToWord(rec.typ)), VarintField(2, rec.crc)] +
    (if rec.data == Nothing then [] else [BytesField(3, rec.data.value)])
  }

  function EncodeRecord(rec: Record): Bytes
    requires Int64(rec.typ) && 0 <= rec.crc < TWO32
  {
    EncodeAll(RecordFields(rec))
  }

  ghost predicate RecordFits(rec: Record) {
    Int64(rec.typ) && 0 <= rec.crc < TWO32 && |EncodeRecord(rec)| < TWO63
  }

  /** Unmarshal after MarshalTo is the identity on records, except that an empty non-nil
      data comes back nil; so it is the identity exactly when data is not empty. */
  lemma RecordRoundTrip(rec: Record)
    requires RecordFits(rec)
    ensures UnmarshalFrom(RECORD, EncodeRecord(rec), 0, ZERO_RECORD) ==
            Parsed(rec.(data := if rec.data == Just([]) then Nothing else rec.data), NoError)
  {
    var fs := RecordFields(rec);
    OrZero(rec.typ);
    OrZero(rec.crc);
    var r1 := ZERO_RECORD.(typ := rec.typ);
    var r2 := r1.(crc := rec.crc);
    var r3 := rec.(data := if rec.data == Just([]) then Nothing else rec.data);
    AssignNext(RECORD, ZERO_RECORD, fs, 0, r1);
    AssignNext(RECORD, r1, fs, 1, r2);
    if rec.data != Nothing {
      AssignNext(RECORD, r2, fs, 2, r3);
      PayloadWithin(fs, 2);
    }
    AssignDone(RECORD, r3, fs);
    WholeReadBack(RECORD, EncodeRecord(rec), fs, ZERO_RECORD, r3);
  }

  // ---- Info (raft.proto, message Info): a node id ----

  function AssignInfo(id: int, f: Field, complete: bool): Parsed<int> {
    if f.BytesField? then Parsed(id, NoError) else Parsed(OrInt64(id, f.value), NoError)
  }

  const INFO := Format(map[1 := AsVarint], AssignInfo)

  function EncodeInfo(id: int): Bytes
    requires Int64(id)
  {
    EncodeAll([VarintField(1, ToWord(id))])
  }

  lemma InfoRoundTrip(id: int)
    requires Int64(id)
    ensures UnmarshalFrom(INFO, EncodeInfo(id), 0, 0) == Parsed(id, NoError)
  {
    var fs := [VarintField(1, ToWord(id))];
    OrZero(id);
    AssignNext(INFO, 0, fs, 0, id);
    AssignDone(INFO, id, fs);
    VarintsShort(fs);
    WholeReadBack(INFO, EncodeInfo(id), fs, 0, id);
  }
}
