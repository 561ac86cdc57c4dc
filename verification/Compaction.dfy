/** A compacted log behaves, from its offset on, like the log that was never
    compacted, and its marks stay ordered, over any sequence of operations. */
module Compaction {
  import opened RaftTypes
  import opened RaftLogModel

  datatype LogOp =
    | MaybeAppendOp(index: int, logTerm: int, commit: int, es: seq<Entry>)  // a follower gets entries
    | AppendOp(e: Entry)                                                   // a leader makes an entry
    | MaybeCommitOp(maxIndex: int, term: int)                              // a leader commits
    | ReadyOp                                                              // a Ready is handed over
    | CompactOp(i: int)                                                    // entries before i are dropped

  datatype OpResult = OpPanic | OpRejected(log: Log) | OpDone(log: Log)

  function Perform(log: Log, op: LogOp): OpResult {
    match op
    case MaybeAppendOp(index, logTerm, commit, es) =>
      (match log.MaybeAppend(index, logTerm, commit, es)
       case Rejected => OpRejected(log)
       case Conflict => OpPanic
       case Accepted(l) => OpDone(l))
    case AppendOp(e) => OpDone(log.Append(log.LastIndex(), [e]))
    case MaybeCommitOp(i, t) => if log.CanCommit(i, t) then OpDone(log.MaybeCommit(i, t)) else OpRejected(log)
    case ReadyOp => OpDone(log.ResetNextEnts().ResetUnstable())
    case CompactOp(i) => if log.CanCompact(i) then OpDone(log.Compact(i)) else OpPanic
  }

  // What the same call does to the log that is never compacted.
  function PerformFull(full: Log, op: LogOp): OpResult {
    if op.CompactOp? then (if op.i <= full.applied then OpDone(full) else OpPanic) else Perform(full, op)
  }

  // The call concerns indexes the log still has. Terms are never negative.
  predicate InRange(log: Log, op: LogOp) {
    && (op.MaybeAppendOp? ==> op.index >= log.offset)
    && (op.MaybeCommitOp? ==> op.term >= 0)
    && (op.CompactOp? ==> op.i >= log.offset)
  }

  // ---- The marks stay ordered ----

  lemma AppendedValid(log: Log, index: int, es: seq<Entry>)
    requires log.Valid() && index >= log.offset && index <= log.LastIndex() && !log.Overwrites(index, es)
    ensures var l := log.Appended(index, es);
            && l.Valid() && l.committed == log.committed && l.applied == log.applied && l.offset == log.offset
            && l.LastIndex() >= index + |es|
  {
    ConflictWithin(log, index + 1, es);
    var ci := log.FindConflict(index + 1, es);
    if ci != -1 {
      assert |log.Slice(log.offset, ci)| == ci - log.offset;
    }
  }

  /** offset <= applied <= committed <= last index and offset <= unstable <= last
      index + 1 survive every operation, and the commit index never decreases. */
  lemma PerformKeepsMarks(log: Log, op: LogOp)
    requires log.Valid() && (op.MaybeCommitOp? ==> op.term >= 0) && !Perform(log, op).OpPanic?
    ensures var l := Perform(log, op).log;
            && l.Valid() && log.committed <= l.committed && log.applied <= l.applied && log.offset <= l.offset
            && (l.offset == log.offset || op.CompactOp?)
  {
    match op
    case MaybeAppendOp(index, logTerm, commit, es) =>
      if log.MatchTerm(index, logTerm) {
        AppendedValid(log, index, es);
      }
    case AppendOp(e) =>
      assert log.Slice(log.offset, log.LastIndex() + 1) == log.ents;
    case MaybeCommitOp(i, t) =>
    case ReadyOp =>
    case CompactOp(i) =>
      assert |log.Slice(i, log.LastIndex() + 1)| == log.LastIndex() + 1 - i;
  }

  // ---- Agreement with the uncompacted log ----

  /** full holds everything log holds; at the offset only the terms must agree. */
  predicate Compacts(log: Log, full: Log) {
    && log.Valid() && full.Valid() && full.offset == 0
    && |full.ents| == log.offset + |log.ents|
    && full.ents[log.offset].term == log.ents[0].term
    && full.ents[log.offset + 1..] == log.ents[1..]
    && log.committed == full.committed && log.applied == full.applied
    && (log.unstable == full.unstable || log.unstable == Max(log.offset + 1, full.unstable))
  }

  lemma CompactsAt(log: Log, full: Log, i: int)
    requires Compacts(log, full) && i >= log.offset
    ensures log.LastIndex() == full.LastIndex()
    ensures log.OutOfBounds(i) == full.OutOfBounds(i)
    ensures log.Term(i) == full.Term(i)
    ensures forall t :: log.MatchTerm(i, t) == full.MatchTerm(i, t)
    ensures i > log.offset && !log.OutOfBounds(i) ==> log.ents[i - log.offset] == full.ents[i]
  {
    if i > log.offset && !log.OutOfBounds(i) {
      assert full.ents[i] == full.ents[log.offset + 1..][i - log.offset - 1];
      assert log.ents[i - log.offset] == log.ents[1..][i - log.offset - 1];
    }
  }

  lemma CompactsSlice(log: Log, full: Log, lo: int, hi: int)
    requires Compacts(log, full) && lo > log.offset
    ensures log.Slice(lo, hi) == full.Slice(lo, hi)
  {
    CompactsAt(log, full, lo);
    if lo < hi {
      CompactsAt(log, full, hi - 1);
      if !log.OutOfBounds(lo) && !log.OutOfBounds(hi - 1) {
        var a, b := log.Slice(lo, hi), full.Slice(lo, hi);
        forall k | 0 <= k < hi - lo ensures a[k] == b[k] {
          CompactsAt(log, full, lo + k);
        }
      }
    }
  }

  lemma {:induction false} CompactsConflict(log: Log, full: Log, from: int, es: seq<Entry>)
    requires Compacts(log, full) && from >= log.offset
    ensures log.FindConflict(from, es) == full.FindConflict(from, es)
    decreases |es|
  {
    if es != [] {
      CompactsAt(log, full, from);
      CompactsConflict(log, full, from + 1, es[1..]);
    }
  }

  lemma CompactsUpToDate(log: Log, full: Log, i: int, t: int)
    requires Compacts(log, full)
    ensures log.IsUpToDate(i, t) == full.IsUpToDate(i, t)
  {
    CompactsAt(log, full, log.LastIndex());
  }

  lemma CompactsAppend(log: Log, full: Log, after: int, es: seq<Entry>)
    requires Compacts(log, full) && log.offset <= log.committed <= after <= log.LastIndex() && es != []
    ensures Compacts(log.Append(after, es), full.Append(after, es))
  {
    var l, f := log.Append(after, es), full.Append(after, es);
    assert log.Slice(log.offset, after + 1) == log.ents[..after + 1 - log.offset];
    assert full.Slice(0, after + 1) == full.ents[..after + 1];
    var d := log.offset + 1;
    assert l.ents[1..] == log.ents[1..][..after + 1 - d] + es;
    assert f.ents[d..] == full.ents[d..][..after + 1 - d] + es;
  }

  lemma AppendedAt(log: Log, index: int, es: seq<Entry>, ci: int) returns (a: Log)
    requires ci == log.FindConflict(index + 1, es)
    ensures a == log.Appended(index, es)
    ensures a == if ci == -1 then log else log.Append(ci - 1, es[ci - (index + 1)..])
  {
    a := log.Appended(index, es);
  }

  lemma CompactsAppended(log: Log, full: Log, index: int, es: seq<Entry>) returns (a: Log, b: Log)
    requires Compacts(log, full) && log.offset <= index <= log.LastIndex() && !log.Overwrites(index, es)
    ensures a == log.Appended(index, es) && b == full.Appended(index, es) && Compacts(a, b)
  {
    var ci := log.FindConflict(index + 1, es);
    CompactsConflict(log, full, index + 1, es);
    a := AppendedAt(log, index, es, ci);
    b := AppendedAt(full, index, es, ci);
    if ci != -1 {
      ConflictWithin(log, index + 1, es);
      CompactsFrom(log, full, ci, es, ci - (index + 1));
    }
  }

  lemma CompactsFrom(log: Log, full: Log, ci: int, es: seq<Entry>, k: nat)
    requires Compacts(log, full) && log.committed < ci <= log.LastIndex() + 1 && k < |es|
    ensures Compacts(log.Append(ci - 1, es[k..]), full.Append(ci - 1, es[k..]))
  {
    CompactsAppend(log, full, ci - 1, es[k..]);
  }

  lemma CompactsMaybeAppend(log: Log, full: Log, index: int, logTerm: int, c: int, es: seq<Entry>)
    requires Compacts(log, full) && index >= log.offset
    ensures var a, b := log.MaybeAppend(index, logTerm, c, es), full.MaybeAppend(index, logTerm, c, es);
            && a.Rejected? == b.Rejected? && a.Conflict? == b.Conflict?
            && (a.Accepted? ==> Compacts(a.log, b.log))
  {
    CompactsAt(log, full, index);
    CompactsConflict(log, full, index + 1, es);
    if log.MatchTerm(index, logTerm) && !log.Overwrites(index, es) {
      var a, b := CompactsAppended(log, full, index, es);
      CompactsCommitTo(a, b, c);
    }
  }

  lemma CompactsCommitTo(log: Log, full: Log, c: int)
    requires Compacts(log, full)
    ensures Compacts(log.CommitTo(c), full.CommitTo(c))
  {
  }

  lemma CompactsCompact(log: Log, full: Log, i: int)
    requires Compacts(log, full) && log.CanCompact(i)
    ensures Compacts(log.Compact(i), full)
  {
    var l := log.Compact(i);
    CompactsAt(log, full, i);
    assert l.ents == log.ents[i - log.offset..];
    var d := log.offset + 1;
    assert l.ents[1..] == log.ents[1..][i + 1 - d..];
    assert full.ents[i + 1..] == full.ents[d..][i + 1 - d..];
  }

  lemma CompactsAtEnd(log: Log, full: Log, e: Entry)
    requires Compacts(log, full)
    ensures Compacts(log.Append(log.LastIndex(), [e]), full.Append(full.LastIndex(), [e]))
  {
    CompactsAt(log, full, log.LastIndex());
    CompactsAppend(log, full, log.LastIndex(), [e]);
  }

  lemma CompactsMaybeCommit(log: Log, full: Log, i: int, t: int)
    requires Compacts(log, full) && t >= 0
    ensures log.CanCommit(i, t) == full.CanCommit(i, t)
    ensures log.CanCommit(i, t) ==> Compacts(log.MaybeCommit(i, t), full.MaybeCommit(i, t))
  {
    if i >= log.offset {
      CompactsAt(log, full, i);
    }
  }

  /** Every operation has the same result on both logs and keeps them in agreement. */
  lemma PerformAgrees(log: Log, full: Log, op: LogOp)
    requires Compacts(log, full) && InRange(log, op)
    ensures var a, b := Perform(log, op), PerformFull(full, op);
            && a.OpPanic? == b.OpPanic? && a.OpRejected? == b.OpRejected?
            && (!a.OpPanic? ==> Compacts(a.log, b.log))
  {
    match op
    case MaybeAppendOp(index, logTerm, commit, es) =>
      CompactsMaybeAppend(log, full, index, logTerm, commit, es);
    case AppendOp(e) =>
      CompactsAtEnd(log, full, e);
    case MaybeCommitOp(i, t) =>
      CompactsMaybeCommit(log, full, i, t);
    case ReadyOp =>
    case CompactOp(i) =>
      if log.CanCompact(i) {
        CompactsCompact(log, full, i);
      }
  }

  // What an observer reads from the log from the offset on is what it reads from the full log.
  lemma SameReadings(log: Log, full: Log)
    requires Compacts(log, full)
    ensures log.NextEnts() == full.NextEnts()
    ensures full.unstable > log.offset ==> log.UnstableEnts() == full.UnstableEnts()
    ensures forall lo, hi :: lo > log.offset ==> log.Slice(lo, hi) == full.Slice(lo, hi)
    ensures forall i, t :: log.IsUpToDate(i, t) == full.IsUpToDate(i, t)
  {
    forall lo, hi | lo > log.offset ensures log.Slice(lo, hi) == full.Slice(lo, hi) {
      CompactsSlice(log, full, lo, hi);
    }
    forall i, t ensures log.IsUpToDate(i, t) == full.IsUpToDate(i, t) {
      CompactsUpToDate(log, full, i, t);
    }
    CompactsAt(log, full, log.LastIndex());
  }

  // ---- Whole sequences of operations ----

  function PerformAll(log: Log, ops: seq<LogOp>): OpResult
    decreases |ops|
  {
    if ops == [] then OpDone(log)
    else
      var r := Perform(log, ops[0]);
      if r.OpPanic? then r else PerformAll(r.log, ops[1..])
  }

  function PerformAllFull(full: Log, ops: seq<LogOp>): OpResult
    decreases |ops|
  {
    if ops == [] then OpDone(full)
    else
      var r := PerformFull(full, ops[0]);
      if r.OpPanic? then r else PerformAllFull(r.log, ops[1..])
  }

  predicate AllInRange(log: Log, ops: seq<LogOp>)
    decreases |ops|
  {
    ops != [] ==>
      && InRange(log, ops[0])
      && (!Perform(log, ops[0]).OpPanic? ==> AllInRange(Perform(log, ops[0]).log, ops[1..]))
  }

  // From two logs in agreement on.
  lemma {:induction false} CompactionRefinement(log: Log, full: Log, ops: seq<LogOp>)
    requires Compacts(log, full) && AllInRange(log, ops)
    ensures var a, b := PerformAll(log, ops), PerformAllFull(full, ops);
            && a.OpPanic? == b.OpPanic?
            && (!a.OpPanic? ==>
                  Compacts(a.log, b.log) && log.committed <= a.log.committed && log.offset <= a.log.offset)
    decreases |ops|
  {
    if ops != [] {
      PerformAgrees(log, full, ops[0]);
      var r := Perform(log, ops[0]);
      if !r.OpPanic? {
        PerformKeepsMarks(log, ops[0]);
        CompactionRefinement(r.log, PerformFull(full, ops[0]).log, ops[1..]);
      }
    }
  }

  /** From a fresh log, whatever is done to it: dropping entries on the way changes neither
      any result nor anything from the offset on, the marks stay ordered, and what a reader
      sees behind the offset is what the log that was never compacted shows. */
  lemma FreshLogRefinement(ops: seq<LogOp>)
    requires AllInRange(NewLog(), ops)
    ensures var a, b := PerformAll(NewLog(), ops), PerformAllFull(NewLog(), ops);
            && a.OpPanic? == b.OpPanic?
            && (!a.OpPanic? ==>
                  && Compacts(a.log, b.log) && a.log.Valid() && a.log.NextEnts() == b.log.NextEnts()
                  && (forall lo, hi :: lo > a.log.offset ==> a.log.Slice(lo, hi) == b.log.Slice(lo, hi)))
  {
    CompactionRefinement(NewLog(), NewLog(), ops);
    var a, b := PerformAll(NewLog(), ops), PerformAllFull(NewLog(), ops);
    if !a.OpPanic? {
      SameReadings(a.log, b.log);
    }
  }
}
