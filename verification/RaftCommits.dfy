/** What the commit scan must find, that no leader but a lone server ever leaves an entry of its term
    uncommitted which a majority has matched, and what followers learn of the leader's commit index. */
module RaftCommits {
  import opened KvState
  import opened RaftCluster
  import opened RaftCompaction
  import opened RaftFullLog
  import A = RaftFullSteps
  import opened RaftRefinement
  import RaftRepair
  import opened RaftRuns
  import opened RaftSafety
  import opened RaftServer
  import opened RaftTypes

  // ---------- The scan ----------

  /** A majority has matched the leader's log up to `k`. */
  predicate Majority(s: Server, k: int) {
    |Matching(s, k)| > |s.matchIndex| / 2
  }

  /** A majority has matched an entry of the leader's own term. */
  predicate Ripe(s: Server, j: int)
    requires |s.log| > 0 && 0 <= j - First(s).index < |s.log|
  {
    EntryAt(s, j).term == s.currentTerm && Majority(s, j)
  }

  lemma {:induction false} Subset(a: set<nat>, b: set<nat>)
    requires a <= b
    ensures |a| <= |b|
  {
    if a != {} {
      var x :| x in a;
      Subset(a - {x}, b - {x});
    }
  }

  lemma MajorityBelow(s: Server, j: int, k: int)
    requires j <= k && Majority(s, k)
    ensures Majority(s, j)
  {
    Subset(Matching(s, k), Matching(s, j));
  }

  lemma {:induction false} ScanReaches(s: Server, k: int, commit: int, j: int)
    requires |s.log| > 0 && First(s).index < k && commit < k && j < First(s).index + |s.log|
    requires k <= j && Ripe(s, j)
    ensures ScanCommit(s, k, commit) >= j
    decreases First(s).index + |s.log| - k
  {
    MajorityBelow(s, k, j);
    var next := if EntryAt(s, k).term == s.currentTerm then k else commit;
    if k < j {
      ScanReaches(s, k + 1, next, j);
    } else {
      RaftRepair.ScanNeverLowers(s, k + 1, next);
    }
  }

  /** No ripe entry is left above the commit index. */
  predicate NothingRipe(s: Server) {
    |s.log| > 0 && forall j | s.commitIndex < j && 0 <= j - First(s).index < |s.log| :: !Ripe(s, j)
  }

  /** The old commit index or a ripe entry above it, with no ripe entry beyond. */
  predicate LastRipe(s: Server, c: int)
    requires |s.log| > 0 && First(s).index <= s.commitIndex
  {
    && (c == s.commitIndex || (s.commitIndex < c < First(s).index + |s.log| && Ripe(s, c)))
    && forall j | c < j < First(s).index + |s.log| :: !Ripe(s, j)
  }

  /** The scan commits the last ripe entry, or none when there is none: no other commit index will do. */
  lemma ScanIff(s: Server, c: int)
    requires WellFormed(s) && First(s).index <= s.commitIndex
    ensures c == AdvanceCommit(s).commitIndex <==> LastRipe(s, c)
  {
    var found := AdvanceCommit(s).commitIndex;
    ScanFinds(s, s.commitIndex + 1, s.commitIndex);
    forall j | s.commitIndex < j < First(s).index + |s.log| && Ripe(s, j) ensures found >= j {
      ScanReaches(s, s.commitIndex + 1, s.commitIndex, j);
    }
    assert LastRipe(s, found);
    if LastRipe(s, c) && found > s.commitIndex {
      assert Ripe(s, found);
    }
  }

  lemma ScanLeavesNothing(s: Server)
    requires WellFormed(s) && First(s).index <= s.commitIndex
    ensures NothingRipe(AdvanceCommit(s)) && AdvanceCommit(s).commitIndex >= s.commitIndex
  {
    var s' := AdvanceCommit(s);
    ScanIff(s, s'.commitIndex);
    forall j | s'.commitIndex < j && 0 <= j - First(s).index < |s.log| ensures !Ripe(s', j) {
      assert !Ripe(s, j) && Matching(s', j) == Matching(s, j);
    }
  }

  // ---------- Leaders of runs ----------

  /** A leader counts itself as far as its log goes and has committed everything ripe. */
  ghost predicate Diligent(r: Server) {
    r.role == Leader ==> WellFormed(r) && r.matchIndex[r.me] == Last(r).index && NothingRipe(r)
  }

  /** A step that leaves log, matches and term alone and never lowers the commit index. */
  lemma Unmoved(r: Server, r': Server)
    requires Diligent(r) && (r'.role == Leader ==> r.role == Leader && r'.currentTerm == r.currentTerm)
    requires r'.me == r.me && r'.log == r.log && r'.matchIndex == r.matchIndex && |r'.nextIndex| == |r.nextIndex|
    requires r'.commitIndex >= r.commitIndex
    ensures Diligent(r')
  {
    if r'.role == Leader {
      forall j | r'.commitIndex < j && 0 <= j - First(r).index < |r.log| ensures !Ripe(r', j) {
        assert !Ripe(r, j) && Matching(r', j) == Matching(r, j);
      }
    }
  }

  /** A candidate has no entry of its own term yet. */
  lemma CandidateTerms(r: Server, s: Sys, i: nat, k: int)
    requires Inv(s) && ServerOk(r, s, i) && r.role == Candidate && First(r).index < k < First(r).index + |r.log|
    ensures EntryAt(r, k).term < r.currentTerm
  {
    ServerShape(r, s, i);
    assert NodeOk(s, i) && BallotOk(s, i, r.currentTerm);
    assert EntryAt(r, k) == s.nodes[i].log[k];
  }

  lemma WinDiligent(r: Server, s: Sys, i: nat)
    requires Inv(s) && ServerOk(r, s, i) && r.role == Candidate && WellFormed(r)
    ensures Diligent(BecomeLeader(r))
  {
    var r' := BecomeLeader(r);
    forall j | r'.commitIndex < j && 0 <= j - First(r').index < |r'.log| ensures !Ripe(r', j) {
      CandidateTerms(r, s, i, j);
    }
  }

  /** Nobody has matched what the leader does not hold. */
  lemma MatchedInLog(r: Server, s: Sys, i: nat, j: nat)
    requires Inv(s) && ServerOk(r, s, i) && r.role == Leader && j < |s.nodes|
    ensures WellFormed(r) && r.matchIndex[j] <= Last(r).index
  {
    ServerShape(r, s, i);
    assert PeerOk(s, s.nodes[i].term, |s.nodes[i].log|, j, r.nextIndex[j], r.matchIndex[j]);
    if r.matchIndex[j] > 0 {
      AckedInLog(s, i, j, r.matchIndex[j]);
    }
  }

  lemma StartDiligent(r: Server, s: Sys, i: nat, op: Op)
    requires Inv(s) && ServerOk(r, s, i) && Diligent(r) && |s.nodes| != 1 && WellFormed(r)
    ensures Diligent(Start(r, op))
  {
    var r' := Start(r, op);
    if r.role == Leader {
      var last := Last(r).index + 1;
      forall j: nat | j < |s.nodes| && j != i ensures r.matchIndex[j] < last {
        MatchedInLog(r, s, i, j);
      }
      forall j | r'.commitIndex < j && 0 <= j - First(r').index < |r'.log| ensures !Ripe(r', j) {
        if j == last {
          assert Matching(r', j) == {i};
        } else {
          assert !Ripe(r, j) && EntryAt(r', j) == EntryAt(r, j) && Matching(r', j) == Matching(r, j);
        }
      }
    }
  }

  /** A leader that gets a request of its own term has the whole log it carries. */
  lemma LeaderHasAll(r: Server, s: Sys, i: nat, a: LogArgs, log: seq<Entry>)
    requires Inv(s) && ServerOk(r, s, i) && r.role == Leader && r.currentTerm == a.term && Carries(s, a, log)
    ensures Prefix(log, s.nodes[i].log)
  {
    assert NodeOk(s, i) && MsgOk(s, LogMsg(a.term, log, a.leaderCommit));
  }

  lemma LogReqDiligent(r: Server, s: Sys, i: nat, a: LogArgs, log: seq<Entry>)
    requires Inv(s) && ServerOk(r, s, i) && Diligent(r) && Carries(s, a, log)
    ensures WellFormed(r) && WellFormedArgs(a) && Diligent(RequestSendLog(r, a).0)
  {
    ServerShape(r, s, i);
    CarriedShape(s, a, log);
    RequestKeeps(r, a);
    if a.term == r.currentTerm && r.role == Leader && a.prevIndex <= Last(r).index {
      LeaderKeepsLog(r, s, i, a, log);
    }
    if RequestSendLog(r, a).0.role == Leader {
      Unmoved(r, RequestSendLog(r, a).0);
    }
  }

  /** What a log request leaves alone; only a leader of the request's own term, or of a later one, stays leader. */
  lemma RequestKeeps(r: Server, a: LogArgs)
    requires WellFormed(r) && WellFormedArgs(a)
    ensures var r' := RequestSendLog(r, a).0;
      && r'.me == r.me && r'.matchIndex == r.matchIndex && r'.nextIndex == r.nextIndex
      && r'.commitIndex >= r.commitIndex
      && (r'.role == Leader ==> r.role == Leader && r'.currentTerm == r.currentTerm && a.term <= r.currentTerm)
      && (a.term < r.currentTerm || a.prevIndex > Last(r).index ==> r'.log == r.log)
      && (a.term == r.currentTerm ==> r' == ReceiveLog(r, a).0)
  {
  }

  lemma LeaderKeepsLog(r: Server, s: Sys, i: nat, a: LogArgs, log: seq<Entry>)
    requires Inv(s) && ServerOk(r, s, i) && r.role == Leader && r.currentTerm == a.term && Carries(s, a, log)
    requires WellFormed(r) && WellFormedArgs(a) && a.prevIndex <= Last(r).index
    ensures ReceiveLog(r, a).0.log == r.log
  {
    ServerShape(r, s, i);
    CarriedShape(s, a, log);
    var m, first := LogMsg(a.term, log, a.leaderCommit), First(r).index;
    var below := a.prevIndex < first && |a.entries| > 0;
    if !(below && |log| - 1 <= first) {
      AcceptedTail(r, s, i, a, log);
      var b := if below then Trim(r, a) else a;
      if !Conflicts(r, b) {
        MergeFacts(r, s, i, b, m);
        LeaderHasAll(r, s, i, a, log);
      }
    }
  }

  lemma SnapReqDiligent(r: Server, s: Sys, i: nat, a: SnapArgs, log: seq<Entry>)
    requires Inv(s) && ServerOk(r, s, i) && Diligent(r) && CarriesSnapshot(s, a, log)
    ensures WellFormed(r) && Diligent(InstallSnapshot(r, a).0)
  {
    ServerShape(r, s, i);
    var r' := InstallSnapshot(r, a).0;
    if r'.role == Leader {
      if a.term == r.currentTerm && !DiscardsSnapshot(r, a) {
        var s' := InstallStep(r, s, i, a, log);
      }
      Unmoved(r, r');
    }
  }

  /** A peer's match is raised within the leader's log, and the scan follows. */
  lemma RaisedDiligent(r: Server, s: Sys, i: nat, j: nat, next: int, matched: int)
    requires Inv(s) && ServerOk(r, s, i) && r.role == Leader && Diligent(r) && j < |s.nodes|
    requires WellFormed(r) && r.matchIndex[j] <= matched <= Last(r).index
    ensures var r1 := r.(matchIndex := r.matchIndex[j := matched], nextIndex := r.nextIndex[j := next]);
      Diligent(AdvanceCommit(r1))
  {
    ScanLeavesNothing(r.(matchIndex := r.matchIndex[j := matched], nextIndex := r.nextIndex[j := next]));
  }

  lemma LogRepDiligent(r: Server, s: Sys, i: nat, p: Packet)
    requires Inv(s) && ServerOk(r, s, i) && Diligent(r) && p.LogRep? && p.dst == i && PacketOk(s, p)
    ensures WellFormed(r) && Diligent(LogReplyReceived(r, p.from, p.largs, p.sentNext, p.lreply))
  {
    ServerShape(r, s, i);
    var a, j := p.largs, p.from;
    var r' := LogReplyReceived(r, j, a, p.sentNext, p.lreply);
    if p.lreply.term <= r.currentTerm == a.term && r.role == Leader && p.lreply.success && |a.entries| > 0 {
      var k := a.entries[|a.entries| - 1].index;
      AckedInLog(s, i, j, k);
      MatchedInLog(r, s, i, j);
      RaisedDiligent(r, s, i, j, Max(r.nextIndex[j], k + 1), Max(r.matchIndex[j], k));
    } else {
      Unmoved(r, r');
    }
  }

  lemma SnapRepDiligent(r: Server, s: Sys, i: nat, p: Packet)
    requires Inv(s) && ServerOk(r, s, i) && Diligent(r) && p.SnapRep? && p.dst == i && PacketOk(s, p)
    ensures WellFormed(r) && Diligent(SnapReplyReceived(r, p.from, p.sargs, p.sentNext, p.sentMatch, p.term))
  {
    ServerShape(r, s, i);
    if p.term <= r.currentTerm == p.sargs.term && r.role == Leader {
      SnapRaises(r, s, i, p);
    } else {
      Unmoved(r, SnapReplyReceived(r, p.from, p.sargs, p.sentNext, p.sentMatch, p.term));
    }
  }

  lemma SnapRaises(r: Server, s: Sys, i: nat, p: Packet)
    requires Inv(s) && ServerOk(r, s, i) && Diligent(r) && p.SnapRep? && p.dst == i && PacketOk(s, p) && WellFormed(r)
    requires p.term <= r.currentTerm == p.sargs.term && r.role == Leader
    ensures Diligent(SnapReplyReceived(r, p.from, p.sargs, p.sentNext, p.sentMatch, p.term))
  {
    var a, j := p.sargs, p.from;
    AckedInLog(s, i, j, a.lastIndex);
    MatchedInLog(r, s, i, j);
    ServerShape(r, s, i);
    var next := if r.nextIndex[j] == p.sentNext then Max(p.sentNext, a.lastIndex + 1) else r.nextIndex[j];
    var matched := if r.matchIndex[j] == p.sentMatch then Max(p.sentMatch, a.lastIndex) else r.matchIndex[j];
    RaisedDiligent(r, s, i, j, next, matched);
  }

  lemma SnapshotDiligent(r: Server, data: Snapshot)
    requires WellFormed(r) && Diligent(r) && First(r).index <= r.lastApplied <= r.commitIndex <= Last(r).index
    ensures Diligent(TakeSnapshot(r, r.lastApplied, data))
  {
    SnapshotCuts(r, r.lastApplied, data);
    var r' := TakeSnapshot(r, r.lastApplied, data);
    if r.role == Leader && First(r).index < r.lastApplied {
      forall j | r'.commitIndex < j && 0 <= j - First(r').index < |r'.log| ensures !Ripe(r', j) {
        assert !Ripe(r, j) && EntryAt(r', j) == EntryAt(r, j) && Matching(r', j) == Matching(r, j);
      }
    }
  }

  lemma ReceiveDiligent(r: Replica, s: Sys, i: nat, p: Packet)
    requires Inv(s) && RepOk(r, s, i) && Diligent(r.raft) && p.dst == i && PacketOk(s, p)
    requires WellFormed(r.raft) && First(r.raft).index <= r.raft.commitIndex && PacketShape(p, |r.raft.nextIndex|)
    ensures Diligent(Receive(r, p).0.raft)
  {
    match p
    case VoteReq(_, a) => Unmoved(r.raft, RequestVote(r.raft, a).0);
    case VoteRep(_, _, _, reply) => Unmoved(r.raft, AddCurrentTerm(r.raft, reply.term));
    case LogReq(_, a, _) =>
      var log :| Carries(s, a, log);
      LogReqDiligent(r.raft, s, i, a, log);
    case LogRep(_, _, _, _, _) => LogRepDiligent(r.raft, s, i, p);
    case SnapReq(_, a, _, _) =>
      var log :| CarriesSnapshot(s, a, log);
      SnapReqDiligent(r.raft, s, i, a, log);
    case SnapRep(_, _, _, _, _, _) => SnapRepDiligent(r.raft, s, i, p);
  }

  /** What a leader does by itself keeps it diligent. */
  lemma LocalDiligent(c: Cluster, s: Sys, a: Action, i: nat)
    requires R(c, s) && Inv(s) && Enabled(c, a) && |c.reps| != 1 && i < |c.reps| && Diligent(c.reps[i].raft)
    requires a.WinElection? || a.ClientStart? || a.SendLog? || a.ServiceSnapshot? || a.Apply?
    requires a.i == i
    ensures i < |Perform(c, a).reps| && Diligent(Perform(c, a).reps[i].raft)
  {
    var r := c.reps[i];
    assert RepOk(r, s, i);
    match a
    case WinElection(_) => WinDiligent(r.raft, s, i);
    case ClientStart(_, op) => StartDiligent(r.raft, s, i, op);
    case SendLog(_, peer) => Unmoved(r.raft, PrepareLog(r.raft, peer).0);
    case ServiceSnapshot(_) => SnapshotDiligent(r.raft, SnapshotOf(r.kv));
    case Apply(_) => Unmoved(r.raft, ApplyNext(r).raft);
  }

  /** Every action of a cluster that is not a lone server keeps its leaders diligent. */
  lemma StepDiligent(c: Cluster, s: Sys, a: Action, i: nat)
    requires R(c, s) && Inv(s) && Enabled(c, a) && |c.reps| != 1 && i < |c.reps| && Diligent(c.reps[i].raft)
    ensures i < |Perform(c, a).reps| && Diligent(Perform(c, a).reps[i].raft)
  {
    if a.Deliver? {
      if a.p.dst == i {
        assert RepOk(c.reps[i], s, i) && PacketOk(s, a.p);
        ReceiveDiligent(c.reps[i], s, i, a.p);
      }
    } else if a.i == i && !a.Timeout? && !a.SendSnap? && !a.Crash? {
      LocalDiligent(c, s, a, i);
    }
  }

  lemma NextDiligent(c: Cluster, c': Cluster, s: Sys, i: nat)
    requires R(c, s) && Inv(s) && Next(c, c') && |c.reps| != 1 && i < |c.reps| && Diligent(c.reps[i].raft)
    ensures i < |c'.reps| && Diligent(c'.reps[i].raft)
  {
    var a :| Enabled(c, a) && c' == Perform(c, a);
    StepDiligent(c, s, a, i);
  }

  lemma InitDiligent(n: nat, i: nat)
    requires i < n
    ensures Diligent(Init(n).reps[i].raft)
  {
    assert Init(n).reps[i] == Fresh(i, n);
  }

  lemma {:induction false} RunDiligent(n: nat, cs: seq<Cluster>, ss: seq<Sys>, k: nat, i: nat)
    requires IsRun(n, cs) && n != 1 && Behind(cs, ss) && At(cs, k, i)
    ensures Diligent(ServerAt(cs, k, i))
  {
    RunSize(n, cs, k);
    if k == 0 {
      InitDiligent(n, i);
    } else {
      RunSize(n, cs, k - 1);
      RunDiligent(n, cs, ss, k - 1, i);
      assert Next(cs[k - 1], cs[k]) && R(cs[k - 1], ss[k - 1]) && Inv(ss[k - 1]);
      NextDiligent(cs[k - 1], cs[k], ss[k - 1], i);
    }
  }

  /** In every run of every cluster that is not a lone server, a leader has at all times committed every entry
      of its term that a majority has matched. */
  lemma LeadersCommit(n: nat, cs: seq<Cluster>, k: nat, i: nat)
    requires IsRun(n, cs) && n != 1 && At(cs, k, i) && ServerAt(cs, k, i).role == Leader
    ensures NothingRipe(ServerAt(cs, k, i)) && ServerAt(cs, k, i).me < |ServerAt(cs, k, i).matchIndex|
    ensures ServerAt(cs, k, i).matchIndex[ServerAt(cs, k, i).me] == Last(ServerAt(cs, k, i)).index
  {
    var ss := RunSimulated(n, cs);
    RunDiligent(n, cs, ss, k, i);
  }

  // ---------- A lone server ----------

  /** No packet is ever sent, and nothing is ever committed. */
  predicate Lone(c: Cluster) {
    && |c.reps| == 1 && c.net == {}
    && var r := c.reps[0].raft;
    && r.me == 0 && |r.nextIndex| == 1 && |r.log| > 0 && First(r).index == 0 && r.commitIndex == 0
    && (r.disk.Saved? ==> |r.disk.log| > 0 && r.disk.log[0].index == 0)
  }

  lemma LoneStep(c: Cluster, a: Action)
    requires Lone(c) && Enabled(c, a)
    ensures Lone(Perform(c, a))
  {
    match a
    case Timeout(_) =>
      var args := StartElection(c.reps[0].raft).1;
      assert (set j: nat | j < |c.reps| && j != 0 :: Packet.VoteReq(j, args)) == {};
    case _ =>
  }

  lemma {:induction false} LoneNeverCommits(cs: seq<Cluster>, k: nat)
    requires IsRun(1, cs) && k < |cs|
    ensures Lone(cs[k])
  {
    if k > 0 {
      LoneNeverCommits(cs, k - 1);
      assert Next(cs[k - 1], cs[k]);
      var a :| Enabled(cs[k - 1], a) && cs[k] == Perform(cs[k - 1], a);
      LoneStep(cs[k - 1], a);
    }
  }

  /** A lone leader that has been given a command. */
  lemma LoneCommand(op: Op) returns (c: Cluster)
    ensures Reaches(1, c) && |c.reps| == 1 && c.reps[0].raft.role == Leader && !NothingRipe(c.reps[0].raft)
  {
    ReachesInit(1);
    InShape(1, Init(1));
    var asked := Go(1, Init(1), Timeout(0));
    InShape(1, asked);
    var won := Go(1, asked, WinElection(0));
    InShape(1, won);
    c := Go(1, won, ClientStart(0, op));
    var r := c.reps[0].raft;
    assert Matching(r, 1) == {0};
    assert Ripe(r, 1);
  }

  ghost predicate CommitsAlways(n: nat) {
    forall cs, k: nat, i: nat | IsRun(n, cs) && At(cs, k, i) && ServerAt(cs, k, i).role == Leader ::
      NothingRipe(ServerAt(cs, k, i))
  }

  /** The commit rule is complete in all runs exactly when the cluster is not a lone server: that one scans
      only when a reply arrives, and so never commits anything. */
  lemma CommitsAlwaysIff(n: nat)
    ensures CommitsAlways(n) <==> n != 1
  {
    if n == 1 {
      var c := LoneCommand(Op(OpGet, "", "", 0, 0));
      var cs :| IsRun(1, cs) && cs[|cs| - 1] == c;
      assert At(cs, |cs| - 1, 0) && ServerAt(cs, |cs| - 1, 0) == c.reps[0].raft;
    } else {
      forall cs, k: nat, i: nat | IsRun(n, cs) && At(cs, k, i) && ServerAt(cs, k, i).role == Leader
        ensures NothingRipe(ServerAt(cs, k, i))
      {
        LeadersCommit(n, cs, k, i);
      }
    }
  }

  // ---------- What followers learn ----------

  /** A merged log reaches as far as the log the request was cut from. */
  lemma MergedReaches(r: Server, s: Sys, i: nat, a: LogArgs, m: Msg)
    requires Inv(s) && ServerOk(r, s, i) && m in s.net && m.LogMsg? && Tail(r, s.nodes[i].log, a, m.log)
    requires WellFormed(r) && WellFormedArgs(a) && a.prevIndex <= Last(r).index
    ensures |MergeEntries(r, a)| > 0 && MergeEntries(r, a)[|MergeEntries(r, a)| - 1].index >= |m.log| - 1
  {
    ServerShape(r, s, i);
    MergeFacts(r, s, i, a, m);
    A.MessageLogValid(s, m);
    if |m.log| > 1 {
      assert Created(s, m.log, |m.log| - 1);
    }
  }

  /** Accepting a request that reaches the leader's commit index teaches it. */
  lemma AcceptLearns(r: Server, a: LogArgs)
    requires WellFormed(r) && WellFormedArgs(a) && a.prevIndex <= Last(r).index
    requires |a.entries| > 0 ==> First(r).index <= a.prevIndex
    requires |MergeEntries(r, a)| > 0 && MergeEntries(r, a)[|MergeEntries(r, a)| - 1].index >= a.leaderCommit
    ensures AcceptLog(r, a).commitIndex >= a.leaderCommit
  {
  }

  /** What is left of a request above the snapshot, once it is accepted, teaches the leader's commit index. */
  lemma AboveLearns(r: Server, s: Sys, i: nat, a: LogArgs, log: seq<Entry>)
    requires Inv(s) && ServerOk(r, s, i) && r.currentTerm == a.term && Carries(s, a, log)
    requires WellFormed(r) && WellFormedArgs(a) && a.prevIndex <= Last(r).index && a.prevIndex < |s.nodes[i].log|
    requires !(a.prevIndex < First(r).index && |a.entries| > 0 && |log| - 1 <= First(r).index)
    ensures var below := a.prevIndex < First(r).index && |a.entries| > 0;
      var b := if below then Trim(r, a) else a;
      Conflicts(r, b) || (WellFormedArgs(b) && b.prevIndex <= Last(r).index
                          && (|b.entries| > 0 ==> First(r).index <= b.prevIndex)
                          && AcceptLog(r, b).commitIndex >= a.leaderCommit)
  {
    var m := LogMsg(a.term, log, a.leaderCommit);
    assert MsgOk(s, m);
    AcceptedTail(r, s, i, a, log);
    var below := a.prevIndex < First(r).index && |a.entries| > 0;
    var b := if below then Trim(r, a) else a;
    if !Conflicts(r, b) {
      MergeFacts(r, s, i, b, m);
      MergedReaches(r, s, i, b, m);
      AcceptLearns(r, b);
    }
  }

  lemma InTermLearns(r: Server, s: Sys, i: nat, a: LogArgs, log: seq<Entry>)
    requires Inv(s) && ServerOk(r, s, i) && r.currentTerm == a.term && Carries(s, a, log)
    ensures WellFormed(r) && WellFormedArgs(a)
    ensures ReceiveLog(r, a).1.success ==> ReceiveLog(r, a).0.commitIndex >= a.leaderCommit
  {
    ServerShape(r, s, i);
    CarriedShape(s, a, log);
    assert MsgOk(s, LogMsg(a.term, log, a.leaderCommit));
    var below := a.prevIndex < First(r).index && |a.entries| > 0;
    if a.prevIndex <= Last(r).index && !(below && |log| - 1 <= First(r).index) {
      AboveLearns(r, s, i, a, log);
    }
  }

  lemma ServerLearns(r: Server, s: Sys, i: nat, a: LogArgs, log: seq<Entry>)
    requires Inv(s) && ServerOk(r, s, i) && Carries(s, a, log)
    ensures WellFormed(r) && WellFormedArgs(a)
    ensures RequestSendLog(r, a).1.success ==> RequestSendLog(r, a).0.commitIndex >= a.leaderCommit
  {
    ServerShape(r, s, i);
    CarriedShape(s, a, log);
    if a.term >= r.currentTerm {
      var s1 := TermStep(r, s, i, a.term);
      InTermLearns(AddCurrentTerm(r, a.term), s1, i, a, log);
    }
  }

  /** A follower that accepts a request knows from then on at least what the leader knew to be committed when
      it built the request. */
  lemma FollowersLearn(n: nat, cs: seq<Cluster>, k: nat, i: nat, l: nat, p: Packet)
    requires IsRun(n, cs) && At(cs, k, i) && |ServerAt(cs, k, i).log| > 0 && l < |cs| && p in cs[l].net && p.LogReq?
    requires CanSend(ServerAt(cs, k, i), p.dst) && p.largs == PrepareLog(ServerAt(cs, k, i), p.dst).1
    ensures At(cs, l, p.dst) && WellFormed(ServerAt(cs, l, p.dst)) && WellFormedArgs(p.largs)
    ensures var (f, reply) := RequestSendLog(ServerAt(cs, l, p.dst), p.largs);
      reply.success ==> f.commitIndex >= ServerAt(cs, k, i).commitIndex
  {
    var ss := RunSimulated(n, cs);
    assert R(cs[l], ss[l]) && Inv(ss[l]) && PacketOk(ss[l], p);
    FullLogAt(cs, ss, l, p.dst, l);
    var log :| Carries(ss[l], p.largs, log);
    ServerLearns(ServerAt(cs, l, p.dst), ss[l], p.dst, p.largs, log);
  }
}
