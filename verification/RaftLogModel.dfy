/** The Raft log as a value. The log keeps the entries from `offset` on; slot
    `offset` itself is only used to match the previous term. Every operation here
    is the specification of the method of the same name of class `RaftLog`. */
module RaftLogModel {
  import opened RaftTypes

  datatype AppendResult =
    | Rejected                 // the previous entry does not match
    | Conflict                 // the source panics: a committed entry would be overwritten
    | Accepted(log: Log)

  datatype Log = Log(ents: seq<Entry>, unstable: int, committed: int,
                     applied: int, offset: int, snapshot: Snapshot)
  {
    function LastIndex(): int { |ents| - 1 + offset }

    predicate OutOfBounds(i: int) { i < offset || i > LastIndex() }

    function Term(i: int): int {
      if OutOfBounds(i) then -1 else ents[i - offset].term
    }

    predicate MatchTerm(i: int, term: int) {
      !OutOfBounds(i) && ents[i - offset].term == term
    }

    // Entries lo through hi-1, or nothing when either end is out of bounds.
    function Slice(lo: int, hi: int): seq<Entry> {
      if lo >= hi || OutOfBounds(lo) || OutOfBounds(hi - 1) then []
      else ents[lo - offset..hi - offset]
    }

    predicate IsUpToDate(i: int, term: int)
      requires ents != []
    {
      var last := ents[|ents| - 1].term;
      term > last || (term == last && i >= LastIndex())
    }

    // The first index at which es, placed at from, differs from the log; -1 if none.
    function FindConflict(from: int, es: seq<Entry>): (ci: int)
      ensures ci == -1 || from <= ci < from + |es|
      decreases |es|
    {
      if es == [] then -1
      else if !MatchTerm(from, es[0].term) then from
      else FindConflict(from + 1, es[1..])
    }

    function Append(after: int, es: seq<Entry>): Log {
      this.(ents := Slice(offset, after + 1) + es, unstable := Min(unstable, after + 1))
    }

    function CommitTo(c: int): Log {
      if committed < c then this.(committed := Min(c, LastIndex())) else this
    }

    // The log with es, placed after index, taking over from the first conflict on.
    function Appended(index: int, es: seq<Entry>): Log {
      var ci := FindConflict(index + 1, es);
      if ci == -1 then this else Append(ci - 1, es[ci - (index + 1)..])
    }

    predicate Overwrites(index: int, es: seq<Entry>) {
      var ci := FindConflict(index + 1, es);
      ci != -1 && ci <= committed
    }

    function MaybeAppend(index: int, logTerm: int, c: int, es: seq<Entry>): AppendResult {
      if !MatchTerm(index, logTerm) then Rejected
      else if Overwrites(index, es) then Conflict
      else Accepted(Appended(index, es).CommitTo(c))
    }

    predicate CanCommit(maxIndex: int, term: int) {
      maxIndex > committed && Term(maxIndex) == term
    }

    function MaybeCommit(maxIndex: int, term: int): Log {
      if CanCommit(maxIndex, term) then this.(committed := maxIndex) else this
    }

    function UnstableEnts(): seq<Entry> { Slice(unstable, LastIndex() + 1) }

    function ResetUnstable(): Log { this.(unstable := LastIndex() + 1) }

    function NextEnts(): seq<Entry> {
      if committed > applied then Slice(applied + 1, committed + 1) else []
    }

    function ResetNextEnts(): Log {
      if committed > applied then this.(applied := committed) else this
    }

    predicate CanCompact(i: int) { offset <= i <= applied }

    function Compact(i: int): Log {
      this.(ents := Slice(i, LastIndex() + 1), unstable := Max(i + 1, unstable), offset := i)
    }

    function Snap(data: Bytes, index: int, term: int, nodes: seq<int>): Log {
      this.(snapshot := Snapshot(data, nodes, index, term))
    }

    function Load(es: seq<Entry>): Log {
      this.(ents := es, unstable := offset + |es|)
    }

    // What every operation keeps: the marks stay ordered inside the log.
    predicate Valid() {
      && ents != []
      && 0 <= offset <= applied <= committed <= LastIndex()
      && offset <= unstable <= LastIndex() + 1
    }
  }

  function NewLog(): Log { Log([DUMMY_ENTRY], 0, 0, 0, 0, EMPTY_SNAPSHOT) }

  function RestoreLog(s: Snapshot): Log {
    Log([Entry(ENTRY_NORMAL, s.term, 0, [])], s.index + 1, s.index, s.index, s.index, s)
  }

  // Where FindConflict stops, said without recursion.
  lemma {:induction false} FindConflictFirst(log: Log, from: int, es: seq<Entry>)
    requires 0 <= from
    ensures var ci := log.FindConflict(from, es);
            var k := if ci == -1 then |es| else ci - from;
            && (forall j :: 0 <= j < k ==> log.MatchTerm(from + j, es[j].term))
            && (ci != -1 ==> !log.MatchTerm(ci, es[ci - from].term))
    decreases |es|
  {
    if es != [] && log.MatchTerm(from, es[0].term) {
      FindConflictFirst(log, from + 1, es[1..]);
      var ci := log.FindConflict(from, es);
      var k := if ci == -1 then |es| else ci - from;
      forall j | 0 <= j < k ensures log.MatchTerm(from + j, es[j].term) {
        if j > 0 {
          assert es[j] == es[1..][j - 1];
        }
      }
    }
  }

  // The first conflict lies inside the log, or right behind its last entry.
  lemma {:induction false} ConflictWithin(log: Log, from: int, es: seq<Entry>)
    requires from <= log.LastIndex() + 1
    ensures log.FindConflict(from, es) == -1 || log.FindConflict(from, es) <= log.LastIndex() + 1
    ensures 0 <= from && log.FindConflict(from, es) == -1 ==> from + |es| <= log.LastIndex() + 1
    decreases |es|
  {
    if es != [] && log.MatchTerm(from, es[0].term) {
      ConflictWithin(log, from + 1, es[1..]);
    }
  }
}
