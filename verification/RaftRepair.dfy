/** How a leader repairs a follower's log, and how the follower's rule compares with Figure 2 of
    the extended Raft paper. */
module RaftRepair {
  import opened RaftTypes
  import opened RaftServer
  import opened RaftCluster
  import opened RaftFullLog
  import opened RaftRefinement

  // ---------- Backing off ----------

  predicate Ascending(log: seq<Entry>) {
    forall i, j | 0 <= i <= j < |log| :: log[i].term <= log[j].term
  }

  /** The number of runs of equal terms among the first `k + 1` entries. */
  function Runs(log: seq<Entry>, k: nat): nat
    requires k < |log|
  {
    if k == 0 then 1 else Runs(log, k - 1) + if log[k].term == log[k - 1].term then 0 else 1
  }

  function TermsOf(log: seq<Entry>): set<int> {
    set j | 0 <= j < |log| :: log[j].term
  }

  /** With ascending terms, runs are distinct terms. */
  lemma {:induction false} RunsAreTerms(log: seq<Entry>, k: nat)
    requires k < |log| && Ascending(log)
    ensures Runs(log, k) == |TermsOf(log[..k + 1])|
  {
    var terms := TermsOf(log[..k + 1]);
    if k == 0 {
      assert terms == {log[0].term};
    } else {
      RunsAreTerms(log, k - 1);
      var before := TermsOf(log[..k]);
      assert log[..k][k - 1] == log[k - 1];
      forall t | t in terms ensures t in before + {log[k].term} {
        var j :| 0 <= j < |log[..k + 1]| && log[..k + 1][j].term == t;
        if j < k {
          assert log[..k][j].term == t;
        }
      }
      forall t | t in before ensures t in terms {
        var j :| 0 <= j < |log[..k]| && log[..k][j].term == t;
        assert log[..k + 1][j].term == t;
      }
      assert log[..k + 1][k].term in terms;
      assert terms == before + {log[k].term};
      if log[k].term in before {
        var j :| 0 <= j < |log[..k]| && log[..k][j].term == log[k].term;
        assert log[j].term == log[k - 1].term;
      }
    }
  }

  /** A rejection moves the next index to the start of the run of terms just below it. */
  lemma {:induction false} TermStartIsRun(s: Server, k: int)
    requires |s.log| > 0 && First(s).index <= k < First(s).index + |s.log|
    ensures var b, first := TermStart(s, k), First(s).index;
      && first <= b <= k
      && (forall j | b <= j <= k :: EntryAt(s, j).term == EntryAt(s, k).term)
      && (b > first ==> EntryAt(s, b - 1).term != EntryAt(s, k).term)
      && Runs(s.log, k - first) == Runs(s.log, b - first)
    decreases k - First(s).index
  {
    if k > First(s).index && EntryAt(s, k - 1).term == EntryAt(s, k).term {
      TermStartIsRun(s, k - 1);
    }
  }

  lemma {:induction false} RunsMonotone(log: seq<Entry>, j: nat, k: nat)
    requires j <= k < |log|
    ensures 1 <= Runs(log, j) <= Runs(log, k)
    decreases k
  {
    if j < k {
      RunsMonotone(log, j, k - 1);
    } else if k > 0 {
      RunsMonotone(log, k - 1, k - 1);
    }
  }

  /** The runs of terms below a next index, down to the snapshot. */
  function RunsBelow(s: Server, next: int): nat
    requires |s.log| > 0 && next <= First(s).index + |s.log|
  {
    if next <= First(s).index then 0 else Runs(s.log, next - 1 - First(s).index)
  }

  /** Backing off costs exactly one run of terms. */
  lemma BackOffCosts(s: Server, next: int)
    requires |s.log| > 0 && First(s).index < next <= First(s).index + |s.log|
    ensures First(s).index <= BackOff(s, next) < next
    ensures RunsBelow(s, BackOff(s, next)) + 1 == RunsBelow(s, next)
  {
    var first := First(s).index;
    if next - 1 > first {
      TermStartIsRun(s, next - 1);
      var b := TermStart(s, next - 1);
      if b > first {
        assert EntryAt(s, b).term != EntryAt(s, b - 1).term;
      }
    }
  }

  // ---------- Repairing a follower ----------

  /** A leader that has to bring a peer's log up to date, from any next index in range. */
  predicate Repairing(s: Server, peer: nat) {
    && WellFormed(s) && s.role == Leader && peer < |s.nextIndex| && peer != s.me
    && First(s).index <= s.commitIndex && (First(s).term == -1 ==> First(s).index == 0)
    && 0 <= s.nextIndex[peer] <= First(s).index + |s.log|
  }

  /** Any state in which the peer may meet the leader's request. */
  predicate Follows(s: Server, f: Server) {
    WellFormed(f) && f.currentTerm <= s.currentTerm
  }

  lemma CanAttempt(s: Server, peer: nat)
    requires Repairing(s, peer) && !NeedsSnapshot(s, peer)
    ensures CanSend(s, peer) && WellFormedArgs(PrepareLog(s, peer).1)
    ensures var (s', a) := PrepareLog(s, peer);
      WellFormed(s') && a.term == s.currentTerm && a.prevIndex + 1 == SendIndex(s, peer) == s'.nextIndex[peer]
  {
  }

  /** One attempt through the handlers: the request, its handling by the peer, and the reply.  Returns the
      leader afterwards and whether the request was accepted. */
  function Attempt(s: Server, peer: nat, f: Server): (Server, bool)
    requires Repairing(s, peer) && !NeedsSnapshot(s, peer) && Follows(s, f)
  {
    CanAttempt(s, peer);
    var (s1, a) := PrepareLog(s, peer);
    var reply := RequestSendLog(f, a).1;
    (LogReplyReceived(s1, peer, a, s1.nextIndex[peer], reply), reply.success)
  }

  /** Where the snapshot is not needed and the next index is down at the first entry, the request
      succeeds on every follower. */
  lemma LastAttemptSucceeds(s: Server, peer: nat, f: Server)
    requires Repairing(s, peer) && !NeedsSnapshot(s, peer) && Follows(s, f)
    requires s.nextIndex[peer] <= First(s).index
    ensures Attempt(s, peer, f).1
  {
    CanAttempt(s, peer);
  }

  /** A rejection changes nothing but the next index, lowers it strictly, and costs one run of terms. */
  lemma RejectionsCost(s: Server, peer: nat, f: Server)
    requires Repairing(s, peer) && !NeedsSnapshot(s, peer) && Follows(s, f) && !Attempt(s, peer, f).1
    ensures var s', next := Attempt(s, peer, f).0, s.nextIndex[peer];
      && s' == s.(nextIndex := s.nextIndex[peer := BackOff(s, next)])
      && Repairing(s', peer) && First(s).index <= s'.nextIndex[peer] < next
      && RunsBelow(s, s'.nextIndex[peer]) + 1 == RunsBelow(s, next)
  {
    if s.nextIndex[peer] <= First(s).index {
      LastAttemptSucceeds(s, peer, f);
    }
    CanAttempt(s, peer);
    assert s.nextIndex[peer := s.nextIndex[peer]] == s.nextIndex;
    RejectionTerm(f, PrepareLog(s, peer).1);
    BackOffCosts(s, s.nextIndex[peer]);
  }

  /** A follower that is not ahead answers in the term of the request. */
  lemma RejectionTerm(f: Server, a: LogArgs)
    requires WellFormed(f) && WellFormedArgs(a) && f.currentTerm <= a.term
    ensures RequestSendLog(f, a).1.term == a.term
  {
  }

  predicate AllFollow(s: Server, fs: seq<Server>) {
    forall k | 0 <= k < |fs| :: Follows(s, fs[k])
  }

  /** Attempts on the peer in the states `fs`, one after the other, end with an accepted request or with
      the snapshot being due. */
  predicate Repaired(s: Server, peer: nat, fs: seq<Server>)
    requires Repairing(s, peer) && AllFollow(s, fs)
    decreases |fs|
  {
    || NeedsSnapshot(s, peer)
    || (|fs| > 0
        && (|| Attempt(s, peer, fs[0]).1
            || (RejectionsCost(s, peer, fs[0]); Repaired(Attempt(s, peer, fs[0]).0, peer, fs[1..]))))
  }

  lemma {:induction false} RepairWithin(s: Server, peer: nat, fs: seq<Server>)
    requires Repairing(s, peer) && AllFollow(s, fs)
    requires |fs| > RunsBelow(s, s.nextIndex[peer])
    ensures Repaired(s, peer, fs)
    decreases |fs|
  {
    if !NeedsSnapshot(s, peer) && !Attempt(s, peer, fs[0]).1 {
      RejectionsCost(s, peer, fs[0]);
      RepairWithin(Attempt(s, peer, fs[0]).0, peer, fs[1..]);
    }
  }

  /** Log repair bound: whatever states the peer is found in, one attempt more than the leader's log has
      terms ends with an accepted request or with the snapshot being due. */
  lemma RepairBound(s: Server, peer: nat, fs: seq<Server>)
    requires Repairing(s, peer) && Ascending(s.log) && AllFollow(s, fs)
    requires |fs| >= |TermsOf(s.log)| + 1
    ensures Repaired(s, peer, fs)
  {
    var last := |s.log| - 1;
    RunsAreTerms(s.log, last);
    assert s.log[..last + 1] == s.log;
    var next := s.nextIndex[peer];
    if next > First(s).index {
      RunsMonotone(s.log, next - 1 - First(s).index, last);
    }
    RepairWithin(s, peer, fs);
  }

  /** The reply makes the leader move the peer's next index back. */
  predicate BacksOff(s: Server, peer: nat, a: LogArgs, sentNext: int, r: LogReply)
    requires peer < |s.nextIndex|
  {
    s.role == Leader && s.currentTerm == a.term && r.term <= s.currentTerm && !r.success
      && s.nextIndex[peer] == sentNext
  }

  /** From the matched entry up to the one below the next index all entries have one term. */
  predicate OneTermUnsent(s: Server, peer: nat)
    requires |s.log| > 0 && peer < |s.nextIndex| == |s.matchIndex|
  {
    var first, last := First(s).index, First(s).index + |s.log| - 1;
    var k := if s.nextIndex[peer] - 1 > last then last else s.nextIndex[peer] - 1;
    first <= s.matchIndex[peer] && forall j | s.matchIndex[peer] <= j <= k :: EntryAt(s, j).term == EntryAt(s, k).term
  }

  /** `nextIndex > matchIndex` is not an invariant: a reply to a log request breaks it exactly when it is
      a rejection in the leader's own term for the current next index and no term begins above the match. */
  lemma NextAboveMatchIff(s: Server, peer: nat, a: LogArgs, sentNext: int, r: LogReply)
    requires WellFormed(s) && peer < |s.nextIndex| && First(s).index <= s.commitIndex
    requires s.matchIndex[peer] < s.nextIndex[peer]
    ensures var s' := LogReplyReceived(s, peer, a, sentNext, r);
      s'.nextIndex[peer] <= s'.matchIndex[peer] <==> BacksOff(s, peer, a, sentNext, r) && OneTermUnsent(s, peer)
  {
    if BacksOff(s, peer, a, sentNext, r) {
      BackOffMeetsMatch(s, peer);
    }
  }

  /** The next index has moved since the snapshot was sent, the match has not, and the snapshot reaches
      the next index. */
  predicate Overtakes(s: Server, peer: nat, a: SnapArgs, sentNext: int, sentMatch: int, term: int)
    requires peer < |s.nextIndex| == |s.matchIndex|
  {
    && term <= s.currentTerm && s.role == Leader && s.currentTerm == a.term
    && s.nextIndex[peer] != sentNext && s.matchIndex[peer] == sentMatch && a.lastIndex >= s.nextIndex[peer]
  }

  /** The reply to a snapshot breaks it exactly when the snapshot overtakes the next index. */
  lemma NextAboveMatchSnapIff(s: Server, peer: nat, a: SnapArgs, sentNext: int, sentMatch: int, term: int)
    requires WellFormed(s) && peer < |s.nextIndex| && First(s).index <= s.commitIndex
    requires s.matchIndex[peer] < s.nextIndex[peer]
    ensures var s' := SnapReplyReceived(s, peer, a, sentNext, sentMatch, term);
      s'.nextIndex[peer] <= s'.matchIndex[peer] <==> Overtakes(s, peer, a, sentNext, sentMatch, term)
  {
    assert |s.nextIndex| == |s.matchIndex|;
  }

  /** The action delivers such a reply, or appends to a leader whose own next index is not beyond its log:
      the leader raises its own match index and never its own next index. */
  predicate MeetsMatch(c: Cluster, a: Action, i: nat, peer: nat)
    requires Shape(c) && i < |c.reps| && peer < |c.reps|
  {
    var s := c.reps[i].raft;
    match a
    case Deliver(LogRep(dst, from, la, sentNext, r)) =>
      dst == i && from == peer && BacksOff(s, peer, la, sentNext, r) && OneTermUnsent(s, peer)
    case Deliver(SnapRep(dst, from, sa, sentNext, sentMatch, term)) =>
      dst == i && from == peer && Overtakes(s, peer, sa, sentNext, sentMatch, term)
    case ClientStart(j, _) =>
      j == i == peer && s.role == Leader && s.nextIndex[peer] <= Last(s).index + 1
    case _ => false
  }

  /** Over all actions of the cluster: a step makes a next index meet its match index exactly when it is
      one of these three. */
  lemma NextMeetsMatchIff(c: Cluster, a: Action, i: nat, peer: nat)
    requires Enabled(c, a) && i < |c.reps| && peer < |c.reps| && Durable(c.reps[i].raft)
    requires c.reps[i].raft.matchIndex[peer] < c.reps[i].raft.nextIndex[peer]
    ensures i < |Perform(c, a).reps| && peer < |Perform(c, a).reps[i].raft.nextIndex|
    ensures peer < |Perform(c, a).reps[i].raft.matchIndex|
    ensures var s' := Perform(c, a).reps[i].raft;
      s'.nextIndex[peer] <= s'.matchIndex[peer] <==> MeetsMatch(c, a, i, peer)
  {
    if a.Deliver? {
      if a.p.dst == i {
        ReceivedMeetsMatch(c.reps[i], a.p, peer);
      }
    } else if a.Crash? || a.WinElection? {
      ResetKeepsAbove(c, a, i, peer);
    }
  }

  /** A fresh leader and a restarted server have every next index above its match index. */
  lemma ResetKeepsAbove(c: Cluster, a: Action, i: nat, peer: nat)
    requires Enabled(c, a) && (a.Crash? || a.WinElection?) && i < |c.reps| && peer < |c.reps| && Durable(c.reps[i].raft)
    requires c.reps[i].raft.matchIndex[peer] < c.reps[i].raft.nextIndex[peer]
    ensures i < |Perform(c, a).reps| && peer < |Perform(c, a).reps[i].raft.nextIndex|
    ensures peer < |Perform(c, a).reps[i].raft.matchIndex|
    ensures Perform(c, a).reps[i].raft.matchIndex[peer] < Perform(c, a).reps[i].raft.nextIndex[peer]
  {
  }

  lemma ReceivedMeetsMatch(r: Replica, p: Packet, peer: nat)
    requires WellFormed(r.raft) && First(r.raft).index <= r.raft.commitIndex && PacketShape(p, |r.raft.nextIndex|)
    requires peer < |r.raft.nextIndex| && r.raft.matchIndex[peer] < r.raft.nextIndex[peer]
    ensures var s, s' := r.raft, Receive(r, p).0.raft;
      && |s'.nextIndex| == |s'.matchIndex| == |s.nextIndex|
      && (s'.nextIndex[peer] <= s'.matchIndex[peer] <==>
            || (p.LogRep? && p.from == peer && BacksOff(s, peer, p.largs, p.sentNext, p.lreply)
              && OneTermUnsent(s, peer))
            || (p.SnapRep? && p.from == peer && Overtakes(s, peer, p.sargs, p.sentNext, p.sentMatch, p.term)))
  {
    if p.LogRep? && p.from == peer {
      NextAboveMatchIff(r.raft, peer, p.largs, p.sentNext, p.lreply);
    } else if p.SnapRep? && p.from == peer {
      NextAboveMatchSnapIff(r.raft, peer, p.sargs, p.sentNext, p.sentMatch, p.term);
    }
  }

  lemma BackOffMeetsMatch(s: Server, peer: nat)
    requires WellFormed(s) && peer < |s.nextIndex| && s.matchIndex[peer] < s.nextIndex[peer]
    ensures BackOff(s, s.nextIndex[peer]) <= s.matchIndex[peer] <==> OneTermUnsent(s, peer)
  {
    var first, last, back, m := First(s).index, First(s).index + |s.log| - 1, s.nextIndex[peer] - 1, s.matchIndex[peer];
    if back > first {
      var k := if back > last then last else back;
      TermStartIsRun(s, k);
      var b := TermStart(s, k);
      if first <= m < b {
        assert EntryAt(s, b - 1).term != EntryAt(s, k).term;
      }
    }
  }

  /** A stale rejection after everything below the next index has been matched undoes progress. */
  lemma StaleRejection(s: Server, peer: nat, a: LogArgs, r: LogReply)
    requires WellFormed(s) && peer < |s.nextIndex| && First(s).index <= s.commitIndex
    requires s.role == Leader && s.currentTerm == a.term && r.term <= s.currentTerm && !r.success
    requires First(s).index < s.matchIndex[peer] && s.nextIndex[peer] == s.matchIndex[peer] + 1
    ensures var s' := LogReplyReceived(s, peer, a, s.nextIndex[peer], r);
      s'.nextIndex[peer] <= s'.matchIndex[peer]
  {
    NextAboveMatchIff(s, peer, a, s.nextIndex[peer], r);
  }

  // ---------- Figure 2 ----------

  /** Figure 2's rule from log position `at`: an existing entry that conflicts with a new one is
      deleted with all that follow it; new entries not already in the log are appended. */
  function Figure2(log: seq<Entry>, at: nat, entries: seq<Entry>): seq<Entry>
    requires at <= |log|
    decreases |entries|
  {
    if |entries| == 0 then log
    else if at == |log| then log + entries
    else if log[at].term != entries[0].term then log[..at] + entries
    else Figure2(log, at + 1, entries[1..])
  }

  /** Log Matching between the log and the new entries. */
  predicate Matches(log: seq<Entry>, at: nat, entries: seq<Entry>) {
    forall k, j | 0 <= j <= k < |entries| && at + k < |log| && log[at + k].term == entries[k].term ::
      log[at + j] == entries[j]
  }

  /** The log if it ends the request's way already, and its tail replaced otherwise. */
  function SkipOrReplace(log: seq<Entry>, at: nat, entries: seq<Entry>): seq<Entry>
    requires at <= |log|
  {
    var n := |entries|;
    if n == 0 || (at + n <= |log| && log[at + n - 1].term == entries[n - 1].term) then log
    else log[..at] + entries
  }

  lemma {:induction false} Figure2Outcome(log: seq<Entry>, at: nat, entries: seq<Entry>)
    requires at <= |log| && Matches(log, at, entries)
    ensures Figure2(log, at, entries) == SkipOrReplace(log, at, entries)
    decreases |entries|
  {
    if |entries| > 0 {
      if at == |log| {
        assert log[..at] == log;
      } else if log[at].term == entries[0].term {
        MatchesRest(log, at, entries);
        Figure2Outcome(log, at + 1, entries[1..]);
        SkipStep(log, at, entries);
      } else {
        ConflictReplaces(log, at, entries);
      }
    }
  }

  lemma SkipStep(log: seq<Entry>, at: nat, entries: seq<Entry>)
    requires at < |log| && |entries| > 0 && Matches(log, at, entries) && log[at].term == entries[0].term
    ensures SkipOrReplace(log, at + 1, entries[1..]) == SkipOrReplace(log, at, entries)
  {
    assert log[at + 0].term == entries[0].term;
    MoveOver(log, at, entries);
  }

  lemma ConflictReplaces(log: seq<Entry>, at: nat, entries: seq<Entry>)
    requires at < |log| && |entries| > 0 && Matches(log, at, entries) && log[at].term != entries[0].term
    ensures SkipOrReplace(log, at, entries) == log[..at] + entries
  {
    MatchedHead(log, at, entries);
  }

  lemma MatchedHead(log: seq<Entry>, at: nat, entries: seq<Entry>)
    requires at < |log| && |entries| > 0 && Matches(log, at, entries)
    ensures var k := |entries| - 1; at + k < |log| && log[at + k].term == entries[k].term ==> log[at] == entries[0]
  {
    var k := |entries| - 1;
    if at + k < |log| && log[at + k].term == entries[k].term {
      assert log[at + 0] == entries[0];
    }
  }

  lemma MatchesRest(log: seq<Entry>, at: nat, entries: seq<Entry>)
    requires at < |log| && |entries| > 0 && Matches(log, at, entries)
    ensures Matches(log, at + 1, entries[1..])
  {
    var rest := entries[1..];
    forall k, j | 0 <= j <= k < |rest| && at + 1 + k < |log| && log[at + 1 + k].term == rest[k].term
      ensures log[at + 1 + j] == rest[j]
    {
      assert log[at + (k + 1)].term == entries[k + 1].term;
      assert log[at + (j + 1)] == entries[j + 1];
    }
  }

  lemma MoveOver(log: seq<Entry>, at: nat, entries: seq<Entry>)
    requires at < |log| && |entries| > 0 && log[at] == entries[0]
    ensures log[..at + 1] + entries[1..] == log[..at] + entries
  {
  }

  lemma ReadAbove(r: Server, log: seq<Entry>, x: nat)
    requires View(r, log) && 0 < x < |r.log|
    ensures First(r).index + x < |log| && r.log[x] == log[First(r).index + x]
  {
  }

  lemma EntryMatches(s: Sys, r: Server, log: seq<Entry>, a: LogArgs, sent: seq<Entry>, j: nat, k: nat)
    requires View(r, log) && ValidLog(s, log) && ValidLog(s, sent) && Tail(r, log, a, sent)
      && First(r).index <= a.prevIndex
    requires var at := a.prevIndex - First(r).index + 1;
      j <= k < |a.entries| && at + k < |r.log| && r.log[at + k].term == a.entries[k].term
    ensures r.log[a.prevIndex - First(r).index + 1 + j] == a.entries[j]
  {
    var at := a.prevIndex - First(r).index + 1;
    ReadAbove(r, log, at + k);
    ReadAbove(r, log, at + j);
    LogMatching(s, log, sent, a.prevIndex + 1 + k);
  }

  lemma EntriesMatch(s: Sys, r: Server, log: seq<Entry>, a: LogArgs, sent: seq<Entry>)
    requires View(r, log) && ValidLog(s, log) && ValidLog(s, sent) && Tail(r, log, a, sent)
      && First(r).index <= a.prevIndex
    ensures Matches(r.log, a.prevIndex - First(r).index + 1, a.entries)
  {
    var at := a.prevIndex - First(r).index + 1;
    forall k, j | 0 <= j <= k < |a.entries| && at + k < |r.log| && r.log[at + k].term == a.entries[k].term
      ensures r.log[at + j] == a.entries[j]
    {
      EntryMatches(s, r, log, a, sent, j, k);
    }
  }

  /** The code's rule — skip when the last entry matches, else replace the whole tail — is
      Figure 2's rule wherever the log and the request match. */
  lemma RuleIsFigure2(r: Server, a: LogArgs)
    requires WellFormed(r) && WellFormedArgs(a) && First(r).index <= a.prevIndex <= Last(r).index
    requires Matches(r.log, a.prevIndex - First(r).index + 1, a.entries)
    ensures MergeEntries(r, a) == Figure2(r.log, a.prevIndex - First(r).index + 1, a.entries)
  {
    MergeInPlace(r, a);
    Figure2Outcome(r.log, a.prevIndex - First(r).index + 1, a.entries);
  }

  /** The code's rule in positions of the compacted log. */
  lemma MergeInPlace(r: Server, a: LogArgs)
    requires WellFormed(r) && WellFormedArgs(a) && First(r).index <= a.prevIndex <= Last(r).index
    ensures var at := a.prevIndex - First(r).index + 1;
      at <= |r.log| && MergeEntries(r, a) == SkipOrReplace(r.log, at, a.entries)
  {
    if |a.entries| > 0 {
      assert a.entries[|a.entries| - 1].index == a.prevIndex + |a.entries|;
    }
  }

  /** Log Matching makes every log and request match, so the code follows Figure 2's rule. */
  lemma MergeIsFigure2(s: Sys, r: Server, log: seq<Entry>, a: LogArgs, sent: seq<Entry>)
    requires View(r, log) && ValidLog(s, log) && ValidLog(s, sent) && Tail(r, log, a, sent)
    requires WellFormed(r) && WellFormedArgs(a) && First(r).index <= a.prevIndex <= Last(r).index
    ensures MergeEntries(r, a) == Figure2(r.log, a.prevIndex - First(r).index + 1, a.entries)
  {
    EntriesMatch(s, r, log, a, sent);
    RuleIsFigure2(r, a);
  }

  // ---------- The commit index ----------

  lemma {:induction false} ScanNeverLowers(s: Server, k: int, commit: int)
    requires |s.log| > 0 && First(s).index < k && commit < k
    ensures ScanCommit(s, k, commit) >= commit
    decreases First(s).index + |s.log| - k
  {
    if k <= First(s).index + |s.log| - 1 && |Matching(s, k)| > |s.matchIndex| / 2 {
      ScanNeverLowers(s, k + 1, if EntryAt(s, k).term == s.currentTerm then k else commit);
    }
  }

  lemma ReceiveNeverLowers(r: Replica, p: Packet)
    requires WellFormed(r.raft) && First(r.raft).index <= r.raft.commitIndex
    requires PacketShape(p, |r.raft.nextIndex|)
    ensures Receive(r, p).0.raft.commitIndex >= r.raft.commitIndex
  {
    var s := r.raft;
    if p.LogRep? && p.lreply.success && |p.largs.entries| > 0 {
      var k := p.largs.entries[|p.largs.entries| - 1].index;
      var s1 := s.(matchIndex := s.matchIndex[p.from := Max(s.matchIndex[p.from], k)],
                   nextIndex := s.nextIndex[p.from := Max(s.nextIndex[p.from], k + 1)]);
      ScanNeverLowers(s1, s.commitIndex + 1, s.commitIndex);
    } else if p.SnapRep? {
      var j, k := p.from, p.sargs.lastIndex;
      var next := if s.nextIndex[j] == p.sentNext then Max(p.sentNext, k + 1) else s.nextIndex[j];
      var matched := if s.matchIndex[j] == p.sentMatch then Max(p.sentMatch, k) else s.matchIndex[j];
      var s1 := s.(nextIndex := s.nextIndex[j := next], matchIndex := s.matchIndex[j := matched]);
      ScanNeverLowers(s1, s.commitIndex + 1, s.commitIndex);
    }
  }

  /** Exactly the restart of a server that knew more than its snapshot lowers a commit index. */
  lemma CommitIndexFalls(c: Cluster, a: Action, i: nat)
    requires Enabled(c, a) && i < |c.reps| && Durable(c.reps[i].raft)
    ensures i < |Perform(c, a).reps|
    ensures Perform(c, a).reps[i].raft.commitIndex < c.reps[i].raft.commitIndex <==>
            a == Crash(i) && First(c.reps[i].raft).index < c.reps[i].raft.commitIndex
  {
    if a.Deliver? && a.p.dst == i {
      ReceiveNeverLowers(c.reps[i], a.p);
    }
  }
}
