/** Which logs can be read: exactly those in which every record carries the checksum of the data
    up to it, and makes sense where it stands. The first record that does not decides the error. */
module WalChecks {
  import opened Collections
  import opened RaftTypes
  import opened Unmarshalling
  import opened Wire
  import opened RaftCodec
  import opened WireBytes
  import opened Checksum
  import opened WalModel
  import opened WalHistory

  function DataOf(rec: Record): Bytes { if rec.data == Nothing then [] else rec.data.value }

  // ---- The checksum a record should carry ----

  // What the last checksum record before record n says, and the data of the records since.
  function Seed(recs: seq<Record>, n: nat): bv32
    requires n <= |recs|
  {
    if n == 0 then 0 else if recs[n - 1].typ == CRC_TYPE then FromSum(recs[n - 1].crc) else Seed(recs, n - 1)
  }

  function Since(recs: seq<Record>, n: nat): Bytes
    requires n <= |recs|
  {
    if n == 0 || recs[n - 1].typ == CRC_TYPE then [] else Since(recs, n - 1) + DataOf(recs[n - 1])
  }

  // The checksum of everything before record n.
  function SumBefore(recs: seq<Record>, n: nat): bv32
    requires n <= |recs|
  {
    Update(Seed(recs, n), Since(recs, n))
  }

  // A checksum record repeats the checksum so far, unless that is 0; any other record carries
  // the checksum of the data up to and including its own.
  predicate Intact(recs: seq<Record>, n: nat)
    requires n < |recs|
  {
    if recs[n].typ == CRC_TYPE then SumBefore(recs, n) == 0 || recs[n].crc == Sum(SumBefore(recs, n))
    else recs[n].crc == Sum(Update(Seed(recs, n), Since(recs, n) + DataOf(recs[n])))
  }

  // ---- What else may be wrong with it ----

  function AsEntry(rec: Record): Parsed<Entry> { UnmarshalFrom(ENTRY, DataOf(rec), 0, DUMMY_ENTRY) }

  function AsState(rec: Record): Parsed<HardState> { UnmarshalFrom(HARD_STATE, DataOf(rec), 0, EMPTY_HARD_STATE) }

  function AsInfo(rec: Record): Parsed<int> { UnmarshalFrom(INFO, DataOf(rec), 0, 0) }

  // The id in the last info record before record n, or 0.
  function IdBefore(recs: seq<Record>, n: nat): int
    requires n <= |recs|
  {
    if n == 0 then 0 else if recs[n - 1].typ == INFO_TYPE then AsInfo(recs[n - 1]).value else IdBefore(recs, n - 1)
  }

  // The state in the last state record before record n, or the empty one.
  function StateBefore(recs: seq<Record>, n: nat): HardState
    requires n <= |recs|
  {
    if n == 0 then EMPTY_HARD_STATE
    else if recs[n - 1].typ == STATE_TYPE then AsState(recs[n - 1]).value else StateBefore(recs, n - 1)
  }

  // The index of the last entry before record n, or 0.
  function LastBefore(recs: seq<Record>, n: nat): int
    requires n <= |recs|
  {
    if n == 0 then 0
    else if recs[n - 1].typ == ENTRY_TYPE then AsEntry(recs[n - 1]).value.index else LastBefore(recs, n - 1)
  }

  // How many entries from ri on there are before record n: as many as lead up to the last one.
  function KeptBefore(recs: seq<Record>, n: nat, ri: int): int
    requires n <= |recs|
  {
    if n == 0 then 0
    else if recs[n - 1].typ == ENTRY_TYPE && AsEntry(recs[n - 1]).value.index >= ri then
      AsEntry(recs[n - 1]).value.index - ri + 1
    else KeptBefore(recs, n - 1, ri)
  }

  // The last entry at index x before record n.
  function EntryBefore(recs: seq<Record>, n: nat, x: int): Option<Entry>
    requires n <= |recs|
  {
    if n == 0 then Nothing
    else if recs[n - 1].typ == ENTRY_TYPE && AsEntry(recs[n - 1]).value.index == x then Just(AsEntry(recs[n - 1]).value)
    else EntryBefore(recs, n - 1, x)
  }

  // What is wrong with record n, if anything.
  function Fault(recs: seq<Record>, n: nat, ri: int): Option<WalError>
    requires n < |recs|
  {
    if !Intact(recs, n) then Just(CrcMismatch)
    else if recs[n].typ == CRC_TYPE then Nothing
    else PayloadFault(recs, n, ri)
  }

  function PayloadFault(recs: seq<Record>, n: nat, ri: int): Option<WalError>
    requires n < |recs|
  {
    var rec := recs[n];
    if rec.typ == ENTRY_TYPE then
      if AsEntry(rec).status.Failed? then Just(BadData)
      else if AsEntry(rec).value.index - ri > KeptBefore(recs, n, ri) then Just(EntryGap)
      else Nothing
    else if rec.typ == STATE_TYPE then if AsState(rec).status.Failed? then Just(BadData) else Nothing
    else if rec.typ == INFO_TYPE then
      if AsInfo(rec).status.Failed? then Just(BadData)
      else if IdBefore(recs, n) != 0 && IdBefore(recs, n) != AsInfo(rec).value then Just(IDMismatch)
      else Nothing
    else Just(UnexpectedType)
  }

  // ---- Reading goes by exactly that ----

  // The replay of the first n records.
  ghost predicate ReplayOf(recs: seq<Record>, n: nat, ri: int, r: Replay)
    requires n <= |recs|
  {
    r.crc == SumBefore(recs, n) && Yields(recs, n, ri, r)
  }

  ghost predicate Yields(recs: seq<Record>, n: nat, ri: int, r: Replay)
    requires n <= |recs|
  {
    && r.id == IdBefore(recs, n) && r.state == StateBefore(recs, n)
    && r.enti == LastBefore(recs, n) && |r.ents| == KeptBefore(recs, n, ri)
    && forall i :: 0 <= i < |r.ents| ==> EntryBefore(recs, n, ri + i) == Just(r.ents[i])
  }

  // The running checksum is that of the data since, taken in piece by piece.
  lemma SumNext(recs: seq<Record>, n: nat)
    requires n < |recs|
    ensures recs[n].typ == CRC_TYPE ==> SumBefore(recs, n + 1) == FromSum(recs[n].crc)
    ensures recs[n].typ != CRC_TYPE ==>
              && SumBefore(recs, n + 1) == Update(SumBefore(recs, n), DataOf(recs[n]))
              && SumBefore(recs, n + 1) == Update(Seed(recs, n), Since(recs, n) + DataOf(recs[n]))
  {
    UpdateSplit(Seed(recs, n), Since(recs, n), DataOf(recs[n]));
    UpdateNothing(FromSum(recs[n].crc));
  }

  lemma ReadNext(recs: seq<Record>, n: nat, ri: int, r: Replay)
    requires n < |recs| && ReplayOf(recs, n, ri, r)
    ensures match ReadRecord(r, ri, recs[n])
            case ReadFailed(why) => Fault(recs, n, ri) == Just(why)
            case Reading(r') => Fault(recs, n, ri) == Nothing && ReplayOf(recs, n + 1, ri, r')
  {
    SumNext(recs, n);
    if recs[n].typ != CRC_TYPE {
      PayloadNext(recs, n, ri, r.(crc := SumBefore(recs, n + 1)));
    }
  }

  lemma PayloadNext(recs: seq<Record>, n: nat, ri: int, r: Replay)
    requires n < |recs| && Yields(recs, n, ri, r) && recs[n].typ != CRC_TYPE
    ensures match ReadPayload(r, ri, recs[n].typ, DataOf(recs[n]))
            case ReadFailed(why) => PayloadFault(recs, n, ri) == Just(why)
            case Reading(r') => PayloadFault(recs, n, ri) == Nothing && Yields(recs, n + 1, ri, r') && r'.crc == r.crc
  {
  }

  ghost predicate Faultless(recs: seq<Record>, n: nat, ri: int)
    requires n <= |recs|
  {
    forall k {:trigger Fault(recs, k, ri)} :: 0 <= k < n ==> Fault(recs, k, ri) == Nothing
  }

  // Records without fault are read.
  lemma {:induction false} ReadsFaultless(recs: seq<Record>, n: nat, ri: int) returns (r: Replay)
    requires n <= |recs| && Faultless(recs, n, ri)
    ensures ReadRecords(FRESH_REPLAY, ri, recs[..n]) == Reading(r) && ReplayOf(recs, n, ri, r)
  {
    if n == 0 {
      r := FRESH_REPLAY;
      UpdateNothing(0);
    } else {
      var r1 := ReadsFaultless(recs, n - 1, ri);
      assert recs[..n] == recs[..n - 1] + [recs[n - 1]];
      ReadOneMore(FRESH_REPLAY, ri, recs[..n - 1], recs[n - 1]);
      ReadNext(recs, n - 1, ri, r1);
      assert Fault(recs, n - 1, ri) == Nothing;
      r := ReadRecord(r1, ri, recs[n - 1]).r;
    }
  }

  // After an error nothing more is read.
  lemma {:induction false} ErrorStays(r: Replay, ri: int, a: seq<Record>, b: seq<Record>)
    requires ReadRecords(r, ri, a).ReadFailed?
    ensures ReadRecords(r, ri, a + b) == ReadRecords(r, ri, a)
    decreases |a|
  {
    assert (a + b)[0] == a[0] && (a + b)[1..] == a[1..] + b;
    var first := ReadRecord(r, ri, a[0]);
    if first.Reading? {
      ErrorStays(first.r, ri, a[1..], b);
    }
  }

  /** The first record with a fault decides the error, whatever follows. */
  lemma FirstFault(recs: seq<Record>, n: nat, ri: int, why: WalError)
    requires n < |recs| && Faultless(recs, n, ri) && Fault(recs, n, ri) == Just(why)
    ensures ReadRecords(FRESH_REPLAY, ri, recs) == ReadFailed(why)
  {
    var r := ReadsFaultless(recs, n, ri);
    ReadOneMore(FRESH_REPLAY, ri, recs[..n], recs[n]);
    ReadNext(recs, n, ri, r);
    CutAt(recs, n);
    CutAt(recs, n + 1);
    FailsAt(recs[..n + 1], recs[n + 1..], ri, why);
  }

  lemma FailsAt(a: seq<Record>, b: seq<Record>, ri: int, why: WalError)
    requires ReadRecords(FRESH_REPLAY, ri, a) == ReadFailed(why)
    ensures ReadRecords(FRESH_REPLAY, ri, a + b) == ReadFailed(why)
  {
    ErrorStays(FRESH_REPLAY, ri, a, b);
  }

  lemma {:induction false} SomeFault(recs: seq<Record>, n: nat, ri: int) returns (k: nat)
    requires n <= |recs| && !Faultless(recs, n, ri)
    ensures k < n && Faultless(recs, k, ri) && Fault(recs, k, ri).Just?
  {
    if Faultless(recs, n - 1, ri) {
      k := n - 1;
    } else {
      k := SomeFault(recs, n - 1, ri);
    }
  }

  /** A log can be read if and only if every record carries the checksum of the data up to it,
      has a known type and a payload that parses, agrees with the id before it and leaves no gap
      between entries, and the last entry reaches the index asked for. What is read is then the
      last state, and of each index up to the last entry's the last entry. */
  lemma ReadableMeans(files: seq<WalFile>, k: nat, ri: int)
    requires k <= |files|
    ensures var recs := RecordsFrom(files, k);
            ReadAll(files, k, ri).Reading? <==> Faultless(recs, |recs|, ri) && LastBefore(recs, |recs|) >= ri
    ensures var recs := RecordsFrom(files, k);
            ReadAll(files, k, ri).Reading? ==> ReplayOf(recs, |recs|, ri, ReadAll(files, k, ri).r)
  {
    var recs := RecordsFrom(files, k);
    if Faultless(recs, |recs|, ri) {
      var r := ReadsFaultless(recs, |recs|, ri);
      assert recs[..|recs|] == recs;
    } else {
      var n := SomeFault(recs, |recs|, ri);
      FirstFault(recs, n, ri, Fault(recs, n, ri).value);
    }
  }

  // ---- Damage ----

  // What comes before record n decides what is expected of it.
  lemma {:induction false} SameBefore(a: seq<Record>, b: seq<Record>, n: nat, ri: int)
    requires n <= |a| && n <= |b| && a[..n] == b[..n]
    ensures Seed(a, n) == Seed(b, n) && Since(a, n) == Since(b, n) && IdBefore(a, n) == IdBefore(b, n)
    ensures KeptBefore(a, n, ri) == KeptBefore(b, n, ri)
  {
    if n > 0 {
      assert a[n - 1] == a[..n][n - 1] == b[..n][n - 1] == b[n - 1];
      ShorterPrefix(a, b, n, n - 1);
      SameBefore(a, b, n - 1, ri);
    }
  }

  lemma FaultlessSame(a: seq<Record>, b: seq<Record>, n: nat, ri: int)
    requires n <= |a| && n <= |b| && a[..n] == b[..n] && Faultless(a, n, ri)
    ensures Faultless(b, n, ri)
  {
    forall k | 0 <= k < n ensures Fault(b, k, ri) == Nothing {
      assert a[k] == a[..n][k] == b[..n][k] == b[k];
      ShorterPrefix(a, b, n, k);
      SameBefore(a, b, k, ri);
      assert Fault(a, k, ri) == Nothing;
    }
  }

  lemma SumDiffers(c: bv32, d: bv32)
    requires c != d
    ensures Sum(c) != Sum(d)
  {
    SumRoundTrip(c);
    SumRoundTrip(d);
  }

  // A byte of what a record holds has changed.
  predicate Damaged(rec: Record, bad: Record, j: nat) {
    && rec.data.Just? && j < |rec.data.value| && bad == rec.(data := bad.data) && bad.data.Just?
    && |bad.data.value| == |rec.data.value| && bad.data.value[j] != rec.data.value[j]
    && bad.data.value == rec.data.value[j := bad.data.value[j]]
  }

  lemma DamageShows(recs: seq<Record>, n: nat, bad: Record, j: nat)
    requires n < |recs| && recs[n].typ != CRC_TYPE && Intact(recs, n) && Damaged(recs[n], bad, j)
    ensures !Intact(recs[n := bad], n)
  {
    var all := recs[n := bad];
    assert all[..n] == recs[..n];
    SameBefore(recs, all, n, 0);
    var since, data := Since(recs, n), recs[n].data.value;
    assert since + bad.data.value == (since + data)[|since| + j := bad.data.value[j]];
    OneByteShows(Seed(recs, n), since + data, |since| + j, bad.data.value[j]);
    SumDiffers(Update(Seed(recs, n), since + data), Update(Seed(recs, n), since + bad.data.value));
  }

  /** Whatever byte of whatever record has changed, reading reports it: no log is read as if a
      vote, a term or an entry had been saved that was not. */
  lemma DamageRefused(files: seq<WalFile>, bad: seq<WalFile>, k: nat, ri: int, n: nat, rec: Record, j: nat)
    requires k <= |files| && k <= |bad| && ReadAll(files, k, ri).Reading?
    requires var recs := RecordsFrom(files, k);
             && n < |recs| && recs[n].typ != CRC_TYPE && Damaged(recs[n], rec, j)
             && RecordsFrom(bad, k) == recs[n := rec]
    ensures ReadAll(bad, k, ri) == ReadFailed(CrcMismatch)
  {
    var recs := RecordsFrom(files, k);
    var all := recs[n := rec];
    ReadableMeans(files, k, ri);
    assert Fault(recs, n, ri) == Nothing;
    assert Faultless(recs, n, ri) && all[..n] == recs[..n];
    FaultlessSame(recs, all, n, ri);
    DamageShows(recs, n, rec, j);
    FirstFault(all, n, ri, CrcMismatch);
  }

  // ---- What is written ----

  // w' has one more record at the end of its last file: of the given type, with the data and the
  // checksum of all data so far.
  ghost predicate Adds(w: Log, w': Log, typ: int, data: Option<Bytes>) {
    && w.files != [] && |w'.files| == |w.files| && w'.files[..|w.files| - 1] == w.files[..|w.files| - 1]
    && var last, c := w.files[|w.files| - 1], Update(w.crc, if data == Nothing then [] else data.value);
       && w'.files[|w.files| - 1] == WalFile(last.seqno, last.index, last.recs + [Record(typ, c as int, data)])
       && w'.crc == c
  }

  /** Records on disk: type 1 for the node's id, 2 for an entry, 3 for a state that is not
      empty. */
  lemma SavesRecords(w: Log, id: int, e: Entry, st: HardState)
    requires w.files != [] && Int64(id) && EntryInts(e) && HardStateFits(st)
    ensures Adds(w, w.SaveInfo(id), 1, Just(Number(0x08, id))) && w.SaveInfo(id).enti == w.enti
    ensures Adds(w, w.SaveEntry(e), 2, Just(EntryBytes(e))) && w.SaveEntry(e).enti == e.index
    ensures st != HardState(0, 0, 0) ==> Adds(w, w.SaveState(st), 3, Just(HardStateBytes(st)))
    ensures st == HardState(0, 0, 0) ==> w.SaveState(st) == w
    ensures w.SaveState(st).enti == w.enti
  {
    InfoOnWire(id);
    EntryOnWire(e);
    HardStateOnWire(st);
    EncodeAdds(w, 1, Just(EncodeInfo(id)));
    EncodeAdds(w, 2, Just(EncodeEntry(e)));
    EncodeAdds(w, 3, Just(EncodeHardState(st)));
  }

  /** A cut adds a file with the next number, which expects the entry after the last and begins
      with a record of type 4, without data, for the checksum so far. */
  lemma CutsFile(w: Log)
    requires w.files != []
    ensures var file := WalFile(w.files[|w.files| - 1].seqno + 1, w.enti + 1, []);
            Adds(w.(files := w.files + [file]), w.Cut(), 4, Nothing) && w.Cut().enti == w.enti
  {
    EncodeAdds(w.(files := w.files + [WalFile(w.files[|w.files| - 1].seqno + 1, w.enti + 1, [])]), 4, Nothing);
  }

  lemma EncodeAdds(w: Log, typ: int, data: Option<Bytes>)
    requires w.files != []
    ensures Adds(w, w.Encode(typ, data), typ, data) && w.Encode(typ, data).enti == w.enti
  {
  }
}
