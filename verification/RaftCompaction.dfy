/** Compaction is invisible: a handler on the log above the snapshot gives the same reply, commit
    index and full log as the same handler on the uncompacted log. */
module RaftCompaction {
  import opened KvState
  import opened RaftTypes
  import opened RaftServer
  import opened RaftRefinement

  predicate FullLog(log: seq<Entry>) {
    |log| > 0 && log[0] == DUMMY && Contiguous(log, 0)
  }

  /** The same server had it never compacted its log. */
  function Uncompacted(r: Server, log: seq<Entry>): Server {
    r.(log := log)
  }

  ghost predicate Compacted(r: Server, log: seq<Entry>) {
    && FullLog(log) && View(r, log) && WellFormed(r)
    && First(r).index <= r.commitIndex < |log|
  }

  /** `r` after the step is `u` after the step, compacted at the same place. */
  ghost predicate SameOutcome(r: Server, u: Server) {
    View(r, u.log) && r.commitIndex == u.commitIndex && r.currentTerm == u.currentTerm && r.voteFor == u.voteFor
  }

  lemma Reading(r: Server, log: seq<Entry>)
    requires Compacted(r, log)
    ensures Last(r).index == |log| - 1 && Last(r).term == LastTerm(log) && |r.log| == |log| - First(r).index
    ensures WellFormed(Uncompacted(r, log))
  {
  }

  lemma ReadingAt(r: Server, log: seq<Entry>, k: int)
    requires Compacted(r, log) && First(r).index <= k < |log|
    ensures |r.log| == |log| - First(r).index && EntryAt(r, k).term == log[k].term
  {
  }

  lemma VoteCompacts(r: Server, log: seq<Entry>, a: VoteArgs)
    requires Compacted(r, log)
    ensures RequestVote(r, a).1 == RequestVote(Uncompacted(r, log), a).1
    ensures SameOutcome(RequestVote(r, a).0, RequestVote(Uncompacted(r, log), a).0)
  {
    Reading(r, log);
  }

  /** The request is the part above `prevIndex` of a log that agrees with ours up to our snapshot. */
  ghost predicate Agrees(r: Server, log: seq<Entry>, a: LogArgs, sent: seq<Entry>) {
    && FullLog(sent) && 0 <= a.prevIndex < |sent| && a.leaderCommit < |sent|
    && a.entries == sent[a.prevIndex + 1..] && a.prevTerm == sent[a.prevIndex].term
    && |r.log| > 0
    && forall j | 0 <= j <= First(r).index && j < |sent| && j < |log| :: sent[j] == log[j]
  }

  /** `cut` is the log `merged`, compacted at `b`. */
  ghost predicate CutOf(b: int, merged: seq<Entry>, cut: seq<Entry>) {
    0 <= b < |merged| && merged[|merged| - 1].index == |merged| - 1 && cut == Compact(merged, b)
  }

  /** Replacing the tail and cutting at `b` commute. */
  lemma CutSplice(
    log: seq<Entry>, held: seq<Entry>, sent: seq<Entry>, merged: seq<Entry>, cut: seq<Entry>, b: nat, prev: nat,
    at: nat)
    requires prev < |log| && prev + 1 < |sent| && b < |log| && b < |sent| && held == Compact(log, b)
    requires at == if prev < b then b else prev
    requires forall j | 0 <= j <= b :: sent[j] == log[j]
    requires sent[|sent| - 1].index == |sent| - 1
    requires at - b < |held| && at < |sent|
    requires merged == log[..prev + 1] + sent[prev + 1..] && cut == held[..at - b + 1] + sent[at + 1..]
    ensures CutOf(b, merged, cut)
  {
    assert |merged| == |sent| && merged[|merged| - 1] == sent[|sent| - 1];
  }

  lemma HoldsLastCompacts(r: Server, log: seq<Entry>, a: LogArgs, b: LogArgs)
    requires Compacted(r, log) && |a.entries| > 0 && |b.entries| > 0
    requires a.entries[|a.entries| - 1] == b.entries[|b.entries| - 1]
    requires b.entries[|b.entries| - 1].index >= First(r).index
    ensures HoldsLast(r, b) == HoldsLast(Uncompacted(r, log), a)
  {
    var k := b.entries[|b.entries| - 1].index;
    Reading(r, log);
    if k < |log| {
      ReadingAt(r, log, k);
    }
  }

  lemma TailOfTail<T>(s: seq<T>, i: nat, k: nat)
    requires i + k <= |s|
    ensures s[i..][k..] == s[i + k..]
  {
  }

  /** Trimming moves the start of the request up to the snapshot. */
  lemma TrimmedTail(r: Server, a: LogArgs, sent: seq<Entry>, b: LogArgs)
    requires |r.log| > 0 && WellFormedArgs(a) && |a.entries| > 0
    requires 0 <= a.prevIndex < |sent| && a.entries == sent[a.prevIndex + 1..] && First(r).index < |sent| - 1
    requires b == if a.prevIndex < First(r).index then Trim(r, a) else a
    ensures b.prevIndex == (if a.prevIndex < First(r).index then First(r).index else a.prevIndex) < |sent|
    ensures b.entries == sent[b.prevIndex + 1..] && |b.entries| > 0
  {
    if a.prevIndex < First(r).index {
      TailOfTail(sent, a.prevIndex + 1, First(r).index - a.prevIndex);
    }
  }

  lemma TrimmedShape(r: Server, log: seq<Entry>, sent: seq<Entry>, b: LogArgs)
    requires Compacted(r, log) && FullLog(sent) && First(r).index <= b.prevIndex < |log| && b.prevIndex < |sent| - 1
    requires b.entries == sent[b.prevIndex + 1..]
    ensures WellFormedArgs(b) && b.prevIndex <= Last(r).index
    ensures b.entries[|b.entries| - 1] == sent[|sent| - 1]
  {
    Reading(r, log);
  }

  /** The merged log and the merged compacted log. */
  ghost predicate Merged(r: Server, log: seq<Entry>, a: LogArgs, b: LogArgs, merged: seq<Entry>, cut: seq<Entry>) {
    && Compacted(r, log) && WellFormed(Uncompacted(r, log)) && WellFormedArgs(a) && WellFormedArgs(b)
    && |a.entries| > 0 && |b.entries| > 0 && 0 <= a.prevIndex < |log| && First(r).index <= b.prevIndex <= Last(r).index
    && a.prevIndex <= Last(Uncompacted(r, log)).index
    && merged == MergeEntries(Uncompacted(r, log), a) && cut == MergeEntries(r, b)
  }

  lemma MergeCompacts(
    r: Server, log: seq<Entry>, a: LogArgs, b: LogArgs, sent: seq<Entry>, merged: seq<Entry>, cut: seq<Entry>)
    requires Merged(r, log, a, b, merged, cut)
    requires b.prevIndex == (if a.prevIndex < First(r).index then First(r).index else a.prevIndex) < |sent|
    requires a.entries == sent[a.prevIndex + 1..] && b.entries == sent[b.prevIndex + 1..]
    requires forall j | 0 <= j <= First(r).index :: sent[j] == log[j]
    requires a.entries[|a.entries| - 1] == sent[|sent| - 1] == b.entries[|b.entries| - 1]
      && sent[|sent| - 1].index == |sent| - 1
    ensures CutOf(First(r).index, merged, cut)
  {
    HoldsLastCompacts(r, log, a, b);
    if HoldsLast(r, b) {
      KeptCompacts(r, log, a, b, merged, cut);
    } else {
      Spliced(r, log, a, b, sent);
      CutSplice(log, r.log, sent, merged, cut, First(r).index, a.prevIndex, b.prevIndex);
    }
  }

  lemma KeptCompacts(r: Server, log: seq<Entry>, a: LogArgs, b: LogArgs, merged: seq<Entry>, cut: seq<Entry>)
    requires Merged(r, log, a, b, merged, cut)
    requires a.entries[|a.entries| - 1].index >= 0 && b.entries[|b.entries| - 1].index >= First(r).index
    requires HoldsLast(r, b) && HoldsLast(Uncompacted(r, log), a)
    ensures CutOf(First(r).index, merged, cut)
  {
  }

  lemma Spliced(r: Server, log: seq<Entry>, a: LogArgs, b: LogArgs, sent: seq<Entry>)
    requires WellFormed(r) && WellFormed(Uncompacted(r, log)) && WellFormedArgs(a) && WellFormedArgs(b)
    requires |a.entries| > 0 && |b.entries| > 0
    requires First(r).index <= b.prevIndex <= Last(r).index && log[0].index == 0
    requires 0 <= a.prevIndex < |log| && a.prevIndex < |sent| && b.prevIndex < |sent|
    requires a.entries == sent[a.prevIndex + 1..] && b.entries == sent[b.prevIndex + 1..]
    requires !HoldsLast(r, b) && !HoldsLast(Uncompacted(r, log), a)
    ensures MergeEntries(r, b) == r.log[..b.prevIndex - First(r).index + 1] + sent[b.prevIndex + 1..]
    ensures MergeEntries(Uncompacted(r, log), a) == log[..a.prevIndex + 1] + sent[a.prevIndex + 1..]
  {
  }

  lemma AcceptCompacts(r: Server, log: seq<Entry>, a: LogArgs, b: LogArgs, merged: seq<Entry>)
    requires Compacted(r, log) && WellFormed(Uncompacted(r, log)) && WellFormedArgs(a) && WellFormedArgs(b)
    requires a.prevIndex < |log| && 0 <= a.prevIndex && b.prevIndex <= Last(r).index
    requires |b.entries| > 0 ==> First(r).index <= b.prevIndex
    requires a.leaderCommit == b.leaderCommit
    requires a.prevIndex <= Last(Uncompacted(r, log)).index
    requires merged == MergeEntries(Uncompacted(r, log), a) && First(r).index < |merged|
      && merged[|merged| - 1].index == |merged| - 1
    requires MergeEntries(r, b) == Compact(merged, First(r).index)
    ensures SameOutcome(AcceptLog(r, b), AcceptLog(Uncompacted(r, log), a))
  {
  }

  /** A request that ends below the snapshot: acknowledged at once, or after finding it all there. */
  lemma BelowCompacts(r: Server, log: seq<Entry>, a: LogArgs, sent: seq<Entry>)
    requires Compacted(r, log) && Agrees(r, log, a, sent) && WellFormedArgs(a) && WellFormed(Uncompacted(r, log))
    requires a.prevIndex < |log| && |a.entries| > 0 && |sent| - 1 <= First(r).index
    ensures ReceiveLog(r, a).1 == ReceiveLog(Uncompacted(r, log), a).1
    ensures SameOutcome(ReceiveLog(r, a).0, ReceiveLog(Uncompacted(r, log), a).0)
  {
    Reading(r, log);
    assert a.entries[|a.entries| - 1] == sent[|sent| - 1];
    assert HoldsLast(Uncompacted(r, log), a);
  }

  lemma ConflictsCompacts(r: Server, log: seq<Entry>, a: LogArgs, sent: seq<Entry>, b: LogArgs)
    requires Compacted(r, log) && Agrees(r, log, a, sent) && a.prevIndex < |log|
    requires b.prevIndex == (if a.prevIndex < First(r).index then First(r).index else a.prevIndex)
    requires a.prevIndex >= First(r).index ==> b.prevTerm == a.prevTerm
    ensures Conflicts(r, b) == Conflicts(Uncompacted(r, log), a)
  {
    ReadingAt(r, log, b.prevIndex);
  }

  /** A request that is neither too far ahead nor entirely below is decided by its previous entry. */
  lemma Decided(s: Server, a: LogArgs, b: LogArgs)
    requires WellFormed(s) && WellFormedArgs(a) && |a.entries| > 0 && a.prevIndex <= Last(s).index
    requires a.entries[|a.entries| - 1].index > First(s).index
    requires b == if a.prevIndex < First(s).index then Trim(s, a) else a
    ensures ReceiveLog(s, a) == if Conflicts(s, b) then (s, LogReply(s.currentTerm, false))
                                else (AcceptLog(s, b), LogReply(s.currentTerm, true))
  {
  }

  lemma AboveCompacts(r: Server, log: seq<Entry>, a: LogArgs, sent: seq<Entry>)
    requires Compacted(r, log) && Agrees(r, log, a, sent) && WellFormedArgs(a) && WellFormed(Uncompacted(r, log))
    requires a.prevIndex < |log| && |a.entries| > 0 && |sent| - 1 > First(r).index
    ensures ReceiveLog(r, a).1 == ReceiveLog(Uncompacted(r, log), a).1
    ensures SameOutcome(ReceiveLog(r, a).0, ReceiveLog(Uncompacted(r, log), a).0)
  {
    Reading(r, log);
    var u, b := Uncompacted(r, log), if a.prevIndex < First(r).index then Trim(r, a) else a;
    TrimmedTail(r, a, sent, b);
    TrimmedShape(r, log, sent, b);
    assert a.entries[|a.entries| - 1] == sent[|sent| - 1];
    Decided(r, a, b);
    Decided(u, a, a);
    ConflictsCompacts(r, log, a, sent, b);
    if !Conflicts(r, b) {
      AboveAccepted(r, log, a, b, sent);
    }
  }

  lemma AboveAccepted(r: Server, log: seq<Entry>, a: LogArgs, b: LogArgs, sent: seq<Entry>)
    requires Compacted(r, log) && Agrees(r, log, a, sent) && WellFormedArgs(a) && WellFormed(Uncompacted(r, log))
    requires WellFormedArgs(b) && a.prevIndex < |log| && First(r).index < |sent| - 1
    requires b.prevIndex == (if a.prevIndex < First(r).index then First(r).index else a.prevIndex) <= Last(r).index
    requires |a.entries| > 0 && |b.entries| > 0 && b.prevIndex < |sent|
    requires b.entries == sent[b.prevIndex + 1..] && a.leaderCommit == b.leaderCommit
    requires a.prevIndex <= Last(Uncompacted(r, log)).index
    ensures SameOutcome(AcceptLog(r, b), AcceptLog(Uncompacted(r, log), a))
  {
    assert a.entries[|a.entries| - 1] == sent[|sent| - 1] == b.entries[|b.entries| - 1];
    var merged := MergeEntries(Uncompacted(r, log), a);
    MergeCompacts(r, log, a, b, sent, merged, MergeEntries(r, b));
    AcceptCompacts(r, log, a, b, merged);
  }

  lemma HeartbeatCompacts(r: Server, log: seq<Entry>, a: LogArgs, sent: seq<Entry>)
    requires Compacted(r, log) && Agrees(r, log, a, sent) && WellFormedArgs(a) && WellFormed(Uncompacted(r, log))
    requires a.prevIndex < |log| && |a.entries| == 0
    ensures ReceiveLog(r, a).1 == ReceiveLog(Uncompacted(r, log), a).1
    ensures SameOutcome(ReceiveLog(r, a).0, ReceiveLog(Uncompacted(r, log), a).0)
  {
    Reading(r, log);
    if a.prevIndex > First(r).index {
      ReadingAt(r, log, a.prevIndex);
    }
    if !Conflicts(r, a) {
      AcceptCompacts(r, log, a, a, log);
    }
  }

  /** RequestSendLog, whenever sender and receiver agree on the snapshotted prefix. */
  lemma ReceiveLogCompacts(r: Server, log: seq<Entry>, a: LogArgs, sent: seq<Entry>)
    requires Compacted(r, log) && Agrees(r, log, a, sent) && WellFormedArgs(a)
    ensures WellFormed(Uncompacted(r, log))
    ensures ReceiveLog(r, a).1 == ReceiveLog(Uncompacted(r, log), a).1
    ensures SameOutcome(ReceiveLog(r, a).0, ReceiveLog(Uncompacted(r, log), a).0)
  {
    Reading(r, log);
    if a.prevIndex < |log| {
      if |a.entries| == 0 {
        HeartbeatCompacts(r, log, a, sent);
      } else if |sent| - 1 > First(r).index {
        AboveCompacts(r, log, a, sent);
      } else {
        BelowCompacts(r, log, a, sent);
      }
    }
  }

  /** The request lies entirely below the snapshot, where no role is looked at. */
  predicate EntirelyBelow(r: Server, a: LogArgs)
    requires |r.log| > 0
  {
    a.prevIndex < First(r).index && |a.entries| > 0 && a.entries[|a.entries| - 1].index <= First(r).index
  }

  /** The roles differ exactly where a candidate answers a request that lies entirely below its snapshot:
      the compacted server does not step down. */
  lemma ReceiveLogRoles(r: Server, log: seq<Entry>, a: LogArgs, sent: seq<Entry>)
    requires Compacted(r, log) && Agrees(r, log, a, sent) && WellFormedArgs(a)
    ensures WellFormed(Uncompacted(r, log))
    ensures ReceiveLog(r, a).0.role != ReceiveLog(Uncompacted(r, log), a).0.role <==>
            r.role == Candidate && EntirelyBelow(r, a)
  {
    ReceiveLogCompacts(r, log, a, sent);
    Reading(r, log);
    RoleAfter(r, a);
    RoleAfter(Uncompacted(r, log), a);
    if EntirelyBelow(r, a) {
      assert a.entries[|a.entries| - 1].index >= a.prevIndex + 1;
    }
  }

  lemma RoleAfter(s: Server, a: LogArgs)
    requires WellFormed(s) && WellFormedArgs(a)
    ensures ReceiveLog(s, a).0.role
         == if ReceiveLog(s, a).1.success && !EntirelyBelow(s, a) then Yield(s.role) else s.role
    ensures a.prevIndex <= Last(s).index && EntirelyBelow(s, a) ==> ReceiveLog(s, a).1.success
  {
  }

  lemma {:induction false} ScanCompacts(r: Server, log: seq<Entry>, k: int, commit: int)
    requires Compacted(r, log) && First(r).index < k
    ensures ScanCommit(r, k, commit) == ScanCommit(Uncompacted(r, log), k, commit)
    decreases |log| - k
  {
    Reading(r, log);
    assert Matching(r, k) == Matching(Uncompacted(r, log), k);
    if k <= First(r).index + |r.log| - 1 && |Matching(r, k)| > |r.matchIndex| / 2 {
      ReadingAt(r, log, k);
      ScanCompacts(r, log, k + 1, if log[k].term == r.currentTerm then k else commit);
    }
  }

  /** A snapshot taken by the service, and an installed snapshot that is discarded, leave the
      full log, the commit index, the term and the vote alone. */
  lemma SnapshotStutters(r: Server, log: seq<Entry>, index: int, data: Snapshot)
    requires Compacted(r, log)
    ensures SameOutcome(TakeSnapshot(r, index, data), Uncompacted(r, log))
  {
    Reading(r, log);
    var first := First(r).index;
    if first < index < |log| {
      assert Compact(log, first)[index - first + 1..] == log[index + 1..];
    }
  }

  /** The snapshot is of a log that agrees with ours up to our snapshot. */
  ghost predicate SnapshotAgrees(r: Server, log: seq<Entry>, a: SnapArgs, sent: seq<Entry>) {
    && |sent| > 0 && a.lastIndex == |sent| - 1 && a.lastTerm == LastTerm(sent)
    && |r.log| > 0 && forall j | 0 <= j <= First(r).index && j < |sent| && j < |log| :: sent[j] == log[j]
  }

  /** A snapshot at an index of the log puts that entry's index and term first, keeps every entry above it, and
      is on disk with the log when it is done; at any other index nothing happens. */
  lemma SnapshotCuts(s: Server, index: int, data: Snapshot)
    requires WellFormed(s)
    ensures var s' := TakeSnapshot(s, index, data);
      if First(s).index < index <= Last(s).index then
        && WellFormed(s') && First(s') == Entry(EntryAt(s, index).term, index, Nil)
        && Last(s').index == Last(s).index && (forall k | index < k <= Last(s).index :: EntryAt(s', k) == EntryAt(s, k))
        && s' == s.(log := s'.log, snapshot := data, disk := Saved(s.currentTerm, s.voteFor, s'.log, data))
      else s' == s
  {
  }

  /** Whether a snapshot is discarded does not depend on compaction, ... */
  lemma DiscardCompacts(r: Server, log: seq<Entry>, a: SnapArgs, sent: seq<Entry>)
    requires Compacted(r, log) && SnapshotAgrees(r, log, a, sent)
    ensures WellFormed(Uncompacted(r, log)) && DiscardsSnapshot(r, a) == DiscardsSnapshot(Uncompacted(r, log), a)
  {
    Reading(r, log);
    if First(r).index < a.lastIndex < |log| {
      ReadingAt(r, log, a.lastIndex);
    }
  }

  /** ... a discarded one leaves the full log alone, and an installed one leaves the same server behind. */
  lemma ReceiveSnapshotCompacts(r: Server, log: seq<Entry>, a: SnapArgs, sent: seq<Entry>)
    requires Compacted(r, log) && SnapshotAgrees(r, log, a, sent)
    ensures WellFormed(Uncompacted(r, log))
    ensures ReceiveSnapshot(r, a).1 == ReceiveSnapshot(Uncompacted(r, log), a).1
    ensures if ReceiveSnapshot(r, a).1 then ReceiveSnapshot(r, a).0 == ReceiveSnapshot(Uncompacted(r, log), a).0
            else SameOutcome(ReceiveSnapshot(r, a).0, ReceiveSnapshot(Uncompacted(r, log), a).0)
  {
    DiscardCompacts(r, log, a, sent);
  }

  lemma DiscardStutters(r: Server, log: seq<Entry>, a: SnapArgs)
    requires Compacted(r, log) && DiscardsSnapshot(r, a)
    ensures SameOutcome(ReceiveSnapshot(r, a).0, Uncompacted(r, log))
  {
  }

  // ---------- The leader ----------

  /** Only the dummy entry has no term. */
  predicate TermsGiven(log: seq<Entry>) {
    forall k | 0 < k < |log| :: log[k].term != -1
  }

  /** A request that a compacted leader can build is the request the uncompacted one builds. */
  lemma PrepareCompacts(r: Server, log: seq<Entry>, peer: nat)
    requires Compacted(r, log) && TermsGiven(log) && CanSend(r, peer)
    ensures CanSend(Uncompacted(r, log), peer)
    ensures PrepareLog(r, peer).1 == PrepareLog(Uncompacted(r, log), peer).1
    ensures PrepareLog(r, peer).0.nextIndex == PrepareLog(Uncompacted(r, log), peer).0.nextIndex
  {
    Reading(r, log);
    var u, first, next := Uncompacted(r, log), First(r).index, SendIndex(r, peer);
    assert log[first].term == First(r).term;
    assert SendIndex(u, peer) == next;
    ReadingAt(r, log, next - 1);
    assert r.log[next - first..] == log[next..];
  }

  lemma StartCompacts(r: Server, log: seq<Entry>, op: Op)
    requires Compacted(r, log)
    ensures WellFormed(Uncompacted(r, log)) && SameOutcome(Start(r, op), Start(Uncompacted(r, log), op))
    ensures Start(r, op).matchIndex == Start(Uncompacted(r, log), op).matchIndex
  {
    Reading(r, log);
    var e, first := Entry(r.currentTerm, |log|, Cmd(op)), First(r).index;
    assert Compact(log, first) + [e] == Compact(log + [e], first);
  }

  /** The walk back after a rejection is the same but for stopping at the snapshot. */
  lemma {:induction false} TermStartCompacts(r: Server, log: seq<Entry>, k: int)
    requires Compacted(r, log) && First(r).index <= k < |log|
    ensures |r.log| == |log| - First(r).index
    ensures TermStart(r, k) == Max(TermStart(Uncompacted(r, log), k), First(r).index)
    decreases k
  {
    Reading(r, log);
    var first, u := First(r).index, Uncompacted(r, log);
    ReadingAt(r, log, k);
    if k > first {
      ReadingAt(r, log, k - 1);
      if log[k - 1].term == log[k].term {
        TermStartCompacts(r, log, k - 1);
      }
    } else {
      TermStartBelow(u, k);
    }
  }

  lemma {:induction false} TermStartBelow(s: Server, k: int)
    requires |s.log| > 0 && First(s).index <= k < First(s).index + |s.log|
    ensures TermStart(s, k) <= k
    decreases k - First(s).index
  {
    if k > First(s).index && EntryAt(s, k - 1).term == EntryAt(s, k).term {
      TermStartBelow(s, k - 1);
    }
  }

  lemma BackOffCompacts(r: Server, log: seq<Entry>, next: int)
    requires Compacted(r, log)
    ensures BackOff(r, next) == Max(BackOff(Uncompacted(r, log), next), First(r).index)
  {
    Reading(r, log);
    var first, u := First(r).index, Uncompacted(r, log);
    var k := if next - 1 > |log| - 1 then |log| - 1 else next - 1;
    if k >= first {
      TermStartCompacts(r, log, k);
    }
    if 0 < k {
      TermStartBelow(u, k);
    }
  }
}
