/** The Raft log as the source keeps it: an object updated in place. Each method is
    proved against the value-level operation of the same name. */
module RaftLogs {
  import opened RaftTypes
  import opened RaftLogModel

  class RaftLog {
    var ents: seq<Entry>
    var unstable: int
    var committed: int
    var applied: int
    var offset: int
    var snapshot: Snapshot

    function View(): Log
      reads this
    {
      Log(ents, unstable, committed, applied, offset, snapshot)
    }

    constructor ()
      ensures View() == NewLog()
    {
      ents := [DUMMY_ENTRY];
      unstable, committed, applied, offset := 0, 0, 0, 0;
      snapshot := EMPTY_SNAPSHOT;
    }

    method FindConflict(from: int, es: seq<Entry>) returns (ci: int)
      ensures ci == View().FindConflict(from, es)
    {
      var i := 0;
      while i < |es|
        invariant 0 <= i <= |es|
        invariant View().FindConflict(from, es) == View().FindConflict(from + i, es[i..])
      {
        if !View().MatchTerm(from + i, es[i].term) {
          return from + i;
        }
        assert es[i..][1..] == es[i + 1..];
        i := i + 1;
      }
      return -1;
    }

    method Append(after: int, es: seq<Entry>) returns (last: int)
      modifies this
      ensures View() == old(View()).Append(after, es) && last == View().LastIndex()
    {
      ents := View().Slice(offset, after + 1) + es;
      unstable := Min(unstable, after + 1);
      last := View().LastIndex();
    }

    // Returns whether the message was accepted; panics when it would overwrite a committed entry.
    method MaybeAppend(index: int, logTerm: int, c: int, es: seq<Entry>) returns (ok: bool, panicked: bool)
      modifies this
      ensures var res := old(View()).MaybeAppend(index, logTerm, c, es);
              && panicked == res.Conflict?
              && ok == res.Accepted?
              && View() == if res.Accepted? then res.log else old(View())
    {
      ok, panicked := false, false;
      if View().MatchTerm(index, logTerm) {
        var from := index + 1;
        var ci := FindConflict(from, es);
        if ci == -1 {
        } else if ci <= committed {
          panicked := true;
          return;
        } else {
          var _ := Append(ci - 1, es[ci - from..]);
        }
        if committed < c {
          committed := Min(c, View().LastIndex());
        }
        ok := true;
      }
    }

    method MaybeCommit(maxIndex: int, term: int) returns (advanced: bool)
      modifies this
      ensures View() == old(View()).MaybeCommit(maxIndex, term)
      ensures advanced == old(View()).CanCommit(maxIndex, term)
    {
      advanced := false;
      if maxIndex > committed && View().Term(maxIndex) == term {
        committed := maxIndex;
        advanced := true;
      }
    }

    method ResetUnstable()
      modifies this
      ensures View() == old(View()).ResetUnstable()
    {
      unstable := View().LastIndex() + 1;
    }

    method ResetNextEnts()
      modifies this
      ensures View() == old(View()).ResetNextEnts()
    {
      if committed > applied {
        applied := committed;
      }
    }

    // Panics outside [offset, applied]; returns how many entries are left.
    method Compact(i: int) returns (left: int, panicked: bool)
      modifies this
      ensures panicked == !old(View()).CanCompact(i)
      ensures View() == if panicked then old(View()) else old(View()).Compact(i)
      ensures !panicked ==> left == |ents|
    {
      if i < offset || i > applied {
        return 0, true;
      }
      ents := View().Slice(i, View().LastIndex() + 1);
      unstable := Max(i + 1, unstable);
      offset := i;
      return |ents|, false;
    }

    method Snap(data: Bytes, index: int, term: int, nodes: seq<int>)
      modifies this
      ensures View() == old(View()).Snap(data, index, term, nodes)
    {
      snapshot := Snapshot(data, nodes, index, term);
    }

    method Restore(s: Snapshot)
      modifies this
      ensures View() == RestoreLog(s)
    {
      ents := [Entry(ENTRY_NORMAL, s.term, 0, [])];
      unstable := s.index + 1;
      committed := s.index;
      applied := s.index;
      offset := s.index;
      snapshot := s;
    }

    method Load(es: seq<Entry>)
      modifies this
      ensures View() == old(View()).Load(es)
    {
      ents := es;
      unstable := offset + |es|;
    }
  }
}
