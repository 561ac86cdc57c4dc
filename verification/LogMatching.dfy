/** What accepting an append message does to a follower's log, given that both
    come from leaders: the log then agrees with the sender's up to the last entry
    of the message, and everything on which it already agreed survives. */
module LogMatching {
  import Collections
  import opened RaftTypes
  import opened RaftLogModel
  import opened RaftNodeModel
  import opened Cluster
  import opened RaftInvariants

  ghost predicate LeaderLogs(h: History) {
    forall t {:trigger Grounded(h, h.llog[t], t)} :: t in h.llog ==> Grounded(h, h.llog[t], t)
  }

  // A message that matches the log at its index agrees with it up to there.
  lemma MatchedPrefix(h: History, log: Log, top: int, m: Message)
    requires LogShape(log) && Grounded(h, log.ents, top) && LeaderLogs(h) && AppendGrounded(h, m)
    requires log.MatchTerm(m.index, m.logTerm)
    ensures m.logTerm != -1
    ensures log.ents[..m.index + 1] == h.llog[m.term][..m.index + 1]
  {
    GroundedTerms(h, log.ents, top, m.index, m.index);
    assert Grounded(h, h.llog[m.term], m.term);
    GroundedPrefix(h, log.ents, h.llog[m.term], top, m.term, m.index);
  }

  // The log agrees with the leader's before the first conflicting entry.
  lemma ConflictPrefix(h: History, log: Log, top: int, m: Message)
    requires LogShape(log) && Grounded(h, log.ents, top) && LeaderLogs(h) && AppendGrounded(h, m)
    requires log.MatchTerm(m.index, m.logTerm)
    ensures m.logTerm != -1
    ensures var ci := log.FindConflict(m.index + 1, m.entries);
            var l := h.llog[m.term];
            var agreed := if ci == -1 then m.index + 1 + |m.entries| else ci;
            && m.index + 1 <= agreed <= |log.ents| && agreed <= |l|
            && log.ents[..agreed] == l[..agreed]
            && (ci != -1 && ci < |log.ents| ==> log.ents[ci].term != l[ci].term)
            && (ci != -1 ==> m.entries[ci - (m.index + 1)..] == l[ci..m.index + 1 + |m.entries|])
  {
    MatchedPrefix(h, log, top, m);
    var ci := log.FindConflict(m.index + 1, m.entries);
    AgreedBefore(h, log, top, m, ci);
    if ci != -1 {
      MessagePiece(h.llog[m.term], m.index + 1, m.entries, ci);
    }
  }

  lemma AgreedBefore(h: History, log: Log, top: int, m: Message, ci: int)
    requires LogShape(log) && Grounded(h, log.ents, top) && LeaderLogs(h) && AppendGrounded(h, m)
    requires log.MatchTerm(m.index, m.logTerm) && m.logTerm != -1 && ci == log.FindConflict(m.index + 1, m.entries)
    ensures var l, agreed := h.llog[m.term], if ci == -1 then m.index + 1 + |m.entries| else ci;
            m.index + 1 <= agreed <= |log.ents| && agreed <= |l| && log.ents[..agreed] == l[..agreed]
    ensures ci != -1 ==> !log.MatchTerm(ci, m.entries[ci - (m.index + 1)].term)
    ensures m.index + 1 + |m.entries| <= |h.llog[m.term]|
  {
    FindConflictFirst(log, m.index + 1, m.entries);
    AgreedSoFar(h, log, top, m, if ci == -1 then |m.entries| else ci - (m.index + 1));
  }

  // The first k entries of the message are in the log, so that both logs agree up to there.
  lemma AgreedSoFar(h: History, log: Log, top: int, m: Message, k: nat)
    requires LogShape(log) && Grounded(h, log.ents, top) && LeaderLogs(h) && AppendGrounded(h, m)
    requires log.MatchTerm(m.index, m.logTerm) && k <= |m.entries| && m.logTerm != -1
    requires forall j :: 0 <= j < k ==> log.MatchTerm(m.index + 1 + j, m.entries[j].term)
    ensures m.index + 1 + k <= |log.ents| && m.index + 1 + |m.entries| <= |h.llog[m.term]|
    ensures log.ents[..m.index + 1 + k] == h.llog[m.term][..m.index + 1 + k]
  {
    var l := h.llog[m.term];
    if k > 0 {
      assert log.MatchTerm(m.index + 1 + (k - 1), m.entries[k - 1].term);
      assert m.entries[k - 1] == l[m.index + k];
      assert Grounded(h, l, m.term);
      GroundedPrefix(h, log.ents, l, top, m.term, m.index + k);
    } else {
      MatchedPrefix(h, log, top, m);
    }
  }

  lemma MessagePiece(l: seq<Entry>, from: nat, es: seq<Entry>, ci: nat)
    requires from + |es| <= |l| && es == l[from..from + |es|] && from <= ci < from + |es|
    ensures es[ci - from..] == l[ci..from + |es|] && es[ci - from] == l[ci]
  {
  }

  lemma CommitToShape(log: Log, c: int)
    requires LogShape(log)
    ensures var log' := log.CommitTo(c);
            && LogShape(log') && log'.ents == log.ents
            && log'.committed == Max(log.committed, Min(c, log.LastIndex()))
  {
  }

  // A log that replaces its entries from the first conflict on ends up with the leader's.
  lemma AppendAtConflict(h: History, log: Log, top: int, m: Message)
    requires LogShape(log) && Grounded(h, log.ents, top) && LeaderLogs(h) && AppendGrounded(h, m)
    requires log.MatchTerm(m.index, m.logTerm) && log.FindConflict(m.index + 1, m.entries) != -1
    ensures m.logTerm != -1
    ensures log.Appended(m.index, m.entries).ents == h.llog[m.term][..m.index + 1 + |m.entries|]
  {
    ConflictPrefix(h, log, top, m);
    var ci := log.FindConflict(m.index + 1, m.entries);
    var es := m.entries[ci - (m.index + 1)..];
    var l := h.llog[m.term];
    var hi := m.index + 1 + |m.entries|;
    assert log.Slice(0, ci) == log.ents[..ci];
    assert log.Append(ci - 1, es).ents == l[..ci] + l[ci..hi] == l[..hi];
  }

  lemma AppendWithoutConflict(h: History, log: Log, top: int, m: Message)
    requires LogShape(log) && Grounded(h, log.ents, top) && LeaderLogs(h) && AppendGrounded(h, m)
    requires log.MatchTerm(m.index, m.logTerm) && log.FindConflict(m.index + 1, m.entries) == -1
    ensures m.logTerm != -1
    ensures var l := h.llog[m.term];
            var hi := m.index + 1 + |m.entries|;
            && hi <= |log.ents| && hi <= |l| && log.ents[..hi] == l[..hi]
            && log.Appended(m.index, m.entries) == log
  {
    ConflictPrefix(h, log, top, m);
  }

  // What HandleAppendEntries leaves in the log.
  lemma AppendAgrees(h: History, log: Log, top: int, m: Message)
    requires LogShape(log) && Grounded(h, log.ents, top) && LeaderLogs(h) && AppendGrounded(h, m)
    requires log.MaybeAppend(m.index, m.logTerm, m.commit, m.entries).Accepted?
    ensures m.logTerm != -1
    ensures var log' := log.MaybeAppend(m.index, m.logTerm, m.commit, m.entries).log;
            var l := h.llog[m.term];
            var hi := m.index + 1 + |m.entries|;
            && LogShape(log')
            && hi <= |log'.ents| && hi <= |l| && log'.ents[..hi] == l[..hi]
            && (log'.ents == log.ents || log'.ents == l[..hi])
            && log'.committed == Max(log.committed, Min(m.commit, log'.LastIndex()))
  {
    var base := log.Appended(m.index, m.entries);
    if log.FindConflict(m.index + 1, m.entries) == -1 {
      AppendWithoutConflict(h, log, top, m);
    } else {
      AppendAtConflict(h, log, top, m);
      assert Grounded(h, h.llog[m.term], m.term);
    }
    CommitToShape(base, m.commit);
  }

  // A shared prefix with the leader's log ends before any conflict.
  lemma ConflictBehind(h: History, log: Log, top: int, m: Message, p: nat)
    requires LogShape(log) && Grounded(h, log.ents, top) && LeaderLogs(h) && AppendGrounded(h, m)
    requires log.MatchTerm(m.index, m.logTerm)
    requires p <= |log.ents| && p <= |h.llog[m.term]| && log.ents[..p] == h.llog[m.term][..p]
    ensures log.FindConflict(m.index + 1, m.entries) != -1 ==> p <= m.index + 1 + |m.entries|
  {
    var l := h.llog[m.term];
    assert forall j :: 0 <= j < p ==> log.ents[..p][j] == log.ents[j] && l[..p][j] == l[j];
    ConflictPrefix(h, log, top, m);
  }

  lemma AppendRetains(h: History, log: Log, top: int, m: Message, p: nat)
    requires LogShape(log) && Grounded(h, log.ents, top) && LeaderLogs(h) && AppendGrounded(h, m)
    requires log.MaybeAppend(m.index, m.logTerm, m.commit, m.entries).Accepted?
    requires p <= |log.ents| && p <= |h.llog[m.term]| && log.ents[..p] == h.llog[m.term][..p]
    ensures var log' := log.MaybeAppend(m.index, m.logTerm, m.commit, m.entries).log;
            p <= |log'.ents| && log'.ents[..p] == log.ents[..p]
  {
    AppendAgrees(h, log, top, m);
    var l := h.llog[m.term];
    var hi := m.index + 1 + |m.entries|;
    var s := log.MaybeAppend(m.index, m.logTerm, m.commit, m.entries).log.ents;
    if s != log.ents {
      ConflictBehind(h, log, top, m, p);
      Collections.ShorterPrefix(s, l, hi, p);
    }
  }

  lemma AppendGroundsLog(h: History, log: Log, top: int, m: Message)
    requires LogShape(log) && Grounded(h, log.ents, top) && LeaderLogs(h) && AppendGrounded(h, m) && top <= m.term
    requires log.MaybeAppend(m.index, m.logTerm, m.commit, m.entries).Accepted?
    ensures var log' := log.MaybeAppend(m.index, m.logTerm, m.commit, m.entries).log;
            Grounded(h, log'.ents, m.term)
  {
    AppendAgrees(h, log, top, m);
    var s := log.MaybeAppend(m.index, m.logTerm, m.commit, m.entries).log.ents;
    if s == log.ents {
      GroundedGrows(h, h, s, top, m.term);
    } else {
      var l := h.llog[m.term];
      assert Grounded(h, l, m.term);
      forall i | 1 <= i < |s| ensures EntryGrounded(h, s, i, m.term) {
        assert EntryGrounded(h, l, i, m.term);
        assert s[..i + 1] == l[..i + 1];
      }
    }
  }
}
