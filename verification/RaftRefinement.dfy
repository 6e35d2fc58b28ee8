/** The compacted servers of the cluster refine Raft over full logs: every action of
    RaftCluster is matched by steps of RaftFullSteps, so the invariant of RaftFullLog holds
    behind every reachable cluster.  One lemma for each action says which steps match it; the
    lemmas before it read the compacted log as the full one and follow one part of the handler. */
module RaftRefinement {
  import opened KvState
  import opened RaftTypes
  import opened RaftServer
  import opened RaftCluster
  import F = RaftFullLog
  import opened RaftFullLog
  import A = RaftFullSteps

  // ---------- The relation ----------

  /** The compacted form of a full log whose entries up to `b` are in the snapshot. */
  function Compact(log: seq<Entry>, b: int): seq<Entry>
    requires 0 <= b < |log|
  {
    [Entry(log[b].term, b, Nil)] + log[b + 1..]
  }

  function SnapshotAt(log: seq<Entry>, b: nat): Snapshot
    requires b < |log|
  {
    if b == 0 then NoSnapshot else SnapshotOf(ReplayTo(log, b))
  }

  /** The server's log is the full log, compacted. */
  predicate View(r: Server, log: seq<Entry>) {
    |r.log| > 0 && 0 <= First(r).index < |log| && r.log == Compact(log, First(r).index)
  }

  /** What a crash would leave is what is in memory. */
  predicate Durable(r: Server) {
    || r.disk == Saved(r.currentTerm, r.voteFor, r.log, r.snapshot)
    || (r.disk.Blank? && r.currentTerm == 0 && r.voteFor == NOBODY && r.log == [DUMMY] && r.snapshot.NoSnapshot?)
  }

  /** A leader's record of a peer: entries to send next, and a prefix the peer acknowledged. */
  ghost predicate PeerOk(s: Sys, t: int, len: nat, j: nat, next: int, matched: int) {
    0 <= next <= len && 0 <= matched && (matched == 0 || Acked(s, j, t, matched))
  }

  ghost predicate PeersOk(next: seq<int>, matched: seq<int>, s: Sys, t: int, len: nat) {
    && |next| == |s.nodes| && |matched| == |s.nodes|
    && forall j: nat {:trigger PeerOk(s, t, len, j, next[j], matched[j])} | j < |s.nodes| ::
         PeerOk(s, t, len, j, next[j], matched[j])
  }

  ghost predicate ServerOk(r: Server, s: Sys, i: nat) {
    && i < |s.nodes| && r.me == i && |r.nextIndex| == |s.nodes| && |r.matchIndex| == |s.nodes|
    && var x := s.nodes[i];
    && r.currentTerm == x.term && r.voteFor == x.vote && r.role == x.role && r.commitIndex == x.commit
    && View(r, x.log)
    && First(r).index <= r.lastApplied <= r.commitIndex < |x.log|
    && r.snapshot == SnapshotAt(x.log, First(r).index)
    && Durable(r)
    && (x.role == Leader ==> PeersOk(r.nextIndex, r.matchIndex, s, x.term, |x.log|))
  }

  ghost predicate RepOk(r: Replica, s: Sys, i: nat) {
    && ServerOk(r.raft, s, i)
    && r.kv == ReplayTo(s.nodes[i].log, r.raft.lastApplied) && r.kvLast <= r.raft.lastApplied
    && (r.raft.role == Candidate ==> forall v | v in r.votes :: v < |s.nodes| && A.HasVote(s, i, v))
  }

  ghost predicate Carries(s: Sys, a: LogArgs, log: seq<Entry>) {
    && a.leaderCommit >= 0 && LogMsg(a.term, log, a.leaderCommit) in s.net
    && 0 <= a.prevIndex < |log| && a.prevTerm == log[a.prevIndex].term && a.entries == log[a.prevIndex + 1..]
  }

  ghost predicate CarriesSnapshot(s: Sys, a: SnapArgs, log: seq<Entry>) {
    && a.lastIndex >= 0 && LogMsg(a.term, log, a.lastIndex) in s.net
    && |log| == a.lastIndex + 1 && a.lastTerm == LastTerm(log) && a.data == SnapshotAt(log, a.lastIndex)
  }

  ghost predicate PacketOk(s: Sys, p: Packet) {
    var n := |s.nodes|;
    p.dst < n &&
    match p
    case VoteReq(dst, a) =>
      a.cand < n && a.cand != dst && F.VoteReq(a.term, a.cand, a.lastIndex, a.lastTerm) in s.net
    case VoteRep(dst, from, a, reply) =>
      from < n && (reply.granted ==> F.VoteRep(a.term, from, dst) in s.net)
    case LogReq(dst, a, next) =>
      a.leader < n && exists log :: Carries(s, a, log)
    case LogRep(dst, from, a, next, reply) =>
      from < n && (reply.success && |a.entries| > 0 ==>
                     var k := a.entries[|a.entries| - 1].index; k >= 0 && Acked(s, from, a.term, k))
    case SnapReq(dst, a, next, matched) =>
      a.leader < n && exists log :: CarriesSnapshot(s, a, log)
    case SnapRep(dst, from, a, next, matched, term) =>
      from < n && (term <= a.term ==> a.lastIndex >= 0 && Acked(s, from, a.term, a.lastIndex))
  }

  ghost predicate R(c: Cluster, s: Sys) {
    && |c.reps| == |s.nodes|
    && (forall i {:trigger RepOk(c.reps[i], s, i)} | 0 <= i < |c.reps| :: RepOk(c.reps[i], s, i))
    && (forall p {:trigger PacketOk(s, p)} | p in c.net :: PacketOk(s, p))
  }

  // ---------- Reading the compacted log ----------

  /** Index arithmetic on the compacted log reads the full log. */
  lemma ViewFacts(s: Sys, r: Server, log: seq<Entry>)
    requires View(r, log) && ValidLog(s, log)
    ensures |r.log| == |log| - First(r).index
    ensures Contiguous(r.log, First(r).index)
    ensures Last(r).index == |log| - 1 && Last(r).term == LastTerm(log)
    ensures forall k | First(r).index < k < |log| :: EntryAt(r, k) == log[k]
    ensures First(r).term == log[First(r).index].term
  {
    forall j | 0 <= j < |r.log| ensures r.log[j].index == First(r).index + j {
      if j > 0 {
        assert Created(s, log, First(r).index + j);
      }
    }
  }

  lemma ServerShape(r: Server, s: Sys, i: nat)
    requires Inv(s) && ServerOk(r, s, i)
    ensures WellFormed(r) && (r.disk.Saved? ==> |r.disk.log| > 0)
    ensures ValidLog(s, s.nodes[i].log)
    ensures Last(r).index == |s.nodes[i].log| - 1 && Last(r).term == LastTerm(s.nodes[i].log)
    ensures forall k | First(r).index < k < |s.nodes[i].log| :: EntryAt(r, k) == s.nodes[i].log[k]
    ensures First(r).term == s.nodes[i].log[First(r).index].term
  {
    assert NodeOk(s, i);
    ViewFacts(s, r, s.nodes[i].log);
  }

  // ---------- What other servers and older packets rely on only grows ----------

  ghost predicate Moved(s: Sys, s': Sys, i: nat) {
    && Grows(s, s') && i < |s.nodes|
    && forall j | 0 <= j < |s.nodes| && j != i :: s'.nodes[j] == s.nodes[j]
  }

  lemma MovedTransitive(s: Sys, s': Sys, s'': Sys, i: nat)
    requires Moved(s, s', i) && Moved(s', s'', i)
    ensures Moved(s, s'', i)
  {
    GrowsTransitive(s, s', s'');
  }

  lemma PeersGrow(next: seq<int>, matched: seq<int>, s: Sys, s': Sys, t: int, len: nat)
    requires Grows(s, s') && PeersOk(next, matched, s, t, len)
    ensures PeersOk(next, matched, s', t, len)
  {
    forall j: nat | j < |s'.nodes| ensures PeerOk(s', t, len, j, next[j], matched[j]) {
      assert PeerOk(s, t, len, j, next[j], matched[j]);
    }
  }

  lemma RepGrows(r: Replica, s: Sys, s': Sys, j: nat)
    requires RepOk(r, s, j) && Grows(s, s') && s'.nodes[j] == s.nodes[j]
    ensures RepOk(r, s', j)
  {
    if s.nodes[j].role == Leader {
      PeersGrow(r.raft.nextIndex, r.raft.matchIndex, s, s', s.nodes[j].term, |s.nodes[j].log|);
    }
  }

  lemma PacketGrows(s: Sys, s': Sys, p: Packet)
    requires PacketOk(s, p) && Grows(s, s')
    ensures PacketOk(s', p)
  {
    match p
    case LogReq(_, a, _) =>
      var log :| Carries(s, a, log);
      assert Carries(s', a, log);
    case SnapReq(_, a, _, _) =>
      var log :| CarriesSnapshot(s, a, log);
      assert CarriesSnapshot(s', a, log);
    case _ =>
  }

  lemma Preserved(c: Cluster, s: Sys, i: nat, r: Replica, out: set<Packet>, s': Sys)
    requires R(c, s) && Moved(s, s', i) && i < |c.reps|
    requires RepOk(r, s', i) && forall p | p in out :: PacketOk(s', p)
    ensures R(Put(c, i, r, out), s')
  {
    var c' := Put(c, i, r, out);
    forall j | 0 <= j < |c'.reps| ensures RepOk(c'.reps[j], s', j) {
      if j != i {
        assert RepOk(c.reps[j], s, j);
        RepGrows(c.reps[j], s, s', j);
      }
    }
    forall p | p in c'.net ensures PacketOk(s', p) {
      if p !in out {
        assert PacketOk(s, p);
        PacketGrows(s, s', p);
      }
    }
  }

  /** A replica whose log keeps what it knows to be committed keeps its state machine. */
  lemma ReplicaFollows(r: Replica, r': Server, s: Sys, s': Sys, i: nat)
    requires RepOk(r, s, i) && Moved(s, s', i) && ServerOk(r', s', i)
    requires Same(s.nodes[i].log, s'.nodes[i].log, s.nodes[i].commit + 1) && r'.lastApplied == r.raft.lastApplied
    requires r'.role == Candidate ==> r.raft.role == Candidate && r'.currentTerm == r.raft.currentTerm
    ensures RepOk(r.(raft := r'), s', i)
  {
    SameReplay(s.nodes[i].log, s'.nodes[i].log, r'.lastApplied);
  }

  // ---------- Terms and elections ----------

  lemma TermStep(r: Server, s: Sys, i: nat, t: int) returns (s': Sys)
    requires Inv(s) && ServerOk(r, s, i)
    ensures Inv(s') && Moved(s, s', i) && ServerOk(AddCurrentTerm(r, t), s', i)
    ensures s'.nodes[i].log == s.nodes[i].log && s'.nodes[i].commit == s.nodes[i].commit && s'.net == s.net
    ensures s'.nodes[i].term == if t > s.nodes[i].term then t else s.nodes[i].term
    ensures t > s.nodes[i].term ==> s'.nodes[i].role == Follower
    ensures t <= s.nodes[i].term ==> s' == s
  {
    s' := s;
    if t > s.nodes[i].term {
      s' := A.AdvanceTerm(s, i, t);
      A.AdvanceTermKeeps(s, i, t);
    }
  }

  lemma TimeoutStep(r: Replica, s: Sys, i: nat) returns (s': Sys)
    requires Inv(s) && RepOk(r, s, i) && r.raft.role != Leader
    ensures WellFormed(r.raft)
    ensures Inv(s') && Moved(s, s', i)
    ensures RepOk(r.(raft := StartElection(r.raft).0, votes := {i}), s', i)
    ensures forall j: nat | j < |s.nodes| && j != i :: PacketOk(s', Packet.VoteReq(j, StartElection(r.raft).1))
  {
    ServerShape(r.raft, s, i);
    s' := A.StartElection(s, i);
    A.StartElectionKeeps(s, i);
  }

  lemma WinStep(r: Replica, s: Sys, i: nat) returns (s': Sys)
    requires Inv(s) && RepOk(r, s, i) && r.raft.role == Candidate && |r.votes| > |s.nodes| / 2
    ensures WellFormed(r.raft)
    ensures Inv(s') && Moved(s, s', i) && RepOk(r.(raft := BecomeLeader(r.raft)), s', i)
  {
    ServerShape(r.raft, s, i);
    var x := s.nodes[i];
    s' := A.Win(s, i, r.votes);
    A.WinKeeps(s, i, r.votes);
    var r' := BecomeLeader(r.raft);
    assert Ack(x.term, i, |x.log| - 1) in s'.net;
    forall j: nat | j < |s'.nodes| ensures PeerOk(s', x.term, |x.log|, j, r'.nextIndex[j], r'.matchIndex[j]) {
    }
  }

  lemma VotedBefore(s: Sys, i: nat, cand: nat)
    requires Inv(s) && i < |s.nodes| && s.nodes[i].vote == cand && cand != i
    ensures VotedFor(s, i, s.nodes[i].term, cand) && s.nodes[i].role == Follower
  {
    var t := s.nodes[i].term;
    assert NodeOk(s, i);
    assert t in s.elect ==> ElectionOk(s, t);
    assert (i, t) in s.ballots ==> BallotOk(s, i, t);
  }

  /** RequestVote in the request's own term. */
  lemma GrantStep(r: Server, s: Sys, i: nat, a: VoteArgs) returns (s': Sys)
    requires Inv(s) && ServerOk(r, s, i) && r.currentTerm == a.term
    requires PacketOk(s, Packet.VoteReq(i, a))
    ensures WellFormed(r) && Inv(s') && Moved(s, s', i) && ServerOk(RequestVote(r, a).0, s', i)
    ensures s'.nodes[i].log == s.nodes[i].log
    ensures RequestVote(r, a).1.granted ==> F.VoteRep(a.term, i, a.cand) in s'.net
  {
    ServerShape(r, s, i);
    var m := F.VoteReq(a.term, a.cand, a.lastIndex, a.lastTerm);
    s' := s;
    if r.voteFor == a.cand {
      VotedBefore(s, i, a.cand);
      s' := s.(net := s.net + {F.VoteRep(a.term, i, a.cand)});
      A.AddMsg(s, i, F.VoteRep(a.term, i, a.cand), s');
    } else if r.voteFor == NOBODY && A.RequestUpToDate(m, s.nodes[i].log) {
      s' := A.Grant(s, i, m);
      A.GrantKeeps(s, i, m);
    }
  }

  /** Raising the term first does not change the outcome of a request. */
  lemma VoteAfterTerm(r: Server, a: VoteArgs)
    requires |r.log| > 0 && a.term >= r.currentTerm
    ensures var r1 := AddCurrentTerm(r, a.term);
      RequestVote(r, a).0 == RequestVote(r1, a).0 && RequestVote(r, a).1.granted == RequestVote(r1, a).1.granted
  {
  }

  lemma VoteServerStep(r: Server, s: Sys, i: nat, a: VoteArgs) returns (s': Sys)
    requires Inv(s) && ServerOk(r, s, i) && PacketOk(s, Packet.VoteReq(i, a))
    ensures WellFormed(r) && Inv(s') && Moved(s, s', i) && ServerOk(RequestVote(r, a).0, s', i)
    ensures s'.nodes[i].log == s.nodes[i].log
    ensures RequestVote(r, a).1.granted ==> F.VoteRep(a.term, i, a.cand) in s'.net
  {
    ServerShape(r, s, i);
    s' := s;
    if a.term >= r.currentTerm {
      var s1 := TermStep(r, s, i, a.term);
      VoteAfterTerm(r, a);
      s' := GrantStep(AddCurrentTerm(r, a.term), s1, i, a);
      MovedTransitive(s, s1, s', i);
    }
  }

  lemma VoteReqStep(r: Replica, s: Sys, i: nat, a: VoteArgs) returns (s': Sys)
    requires Inv(s) && RepOk(r, s, i) && PacketOk(s, Packet.VoteReq(i, a))
    ensures WellFormed(r.raft) && Inv(s') && Moved(s, s', i)
    ensures RepOk(r.(raft := RequestVote(r.raft, a).0), s', i)
    ensures PacketOk(s', Packet.VoteRep(a.cand, i, a, RequestVote(r.raft, a).1))
  {
    s' := VoteServerStep(r.raft, s, i, a);
    ReplicaFollows(r, RequestVote(r.raft, a).0, s, s', i);
  }

  lemma VoteRepStep(r: Replica, s: Sys, i: nat, p: Packet) returns (s': Sys)
    requires Inv(s) && RepOk(r, s, i) && p.VoteRep? && p.dst == i && PacketOk(s, p)
    ensures WellFormed(r.raft) && First(r.raft).index <= r.raft.commitIndex
    ensures Inv(s') && Moved(s, s', i) && RepOk(Receive(r, p).0, s', i)
  {
    ServerShape(r.raft, s, i);
    s' := TermStep(r.raft, s, i, p.vreply.term);
  }

  // ---------- The leader ----------

  lemma ClientStartStep(r: Replica, s: Sys, i: nat, op: Op) returns (s': Sys)
    requires Inv(s) && RepOk(r, s, i)
    ensures WellFormed(r.raft) && Inv(s') && Moved(s, s', i) && RepOk(r.(raft := Start(r.raft, op)), s', i)
  {
    ServerShape(r.raft, s, i);
    s' := s;
    var x := s.nodes[i];
    if x.role == Leader {
      s' := A.Append(s, i, Cmd(op));
      A.AppendKeeps(s, i, Cmd(op));
      StartedOk(r, s, s', i, op);
    }
  }

  lemma StartedOk(r: Replica, s: Sys, s': Sys, i: nat, op: Op)
    requires RepOk(r, s, i) && WellFormed(r.raft) && s.nodes[i].role == Leader && Grows(s, s')
    requires Last(r.raft).index == |s.nodes[i].log| - 1 && s' == A.Append(s, i, Cmd(op))
    ensures RepOk(r.(raft := Start(r.raft, op)), s', i)
  {
    AppendedPeers(r.raft, s, s', i, op);
    var log, log' := s.nodes[i].log, s'.nodes[i].log;
    assert Start(r.raft, op).log == Compact(log', First(r.raft).index);
    SameReplay(log, log', r.raft.lastApplied);
    SameReplay(log, log', First(r.raft).index);
  }

  lemma AppendedPeers(r: Server, s: Sys, s': Sys, i: nat, op: Op)
    requires ServerOk(r, s, i) && WellFormed(r) && s.nodes[i].role == Leader && Grows(s, s')
    requires Last(r).index == |s.nodes[i].log| - 1 && s' == A.Append(s, i, Cmd(op))
    ensures var r', x := Start(r, op), s.nodes[i];
      PeersOk(r'.nextIndex, r'.matchIndex, s', x.term, |x.log| + 1)
  {
    var r', x := Start(r, op), s.nodes[i];
    forall j: nat | j < |s'.nodes| ensures PeerOk(s', x.term, |x.log| + 1, j, r'.nextIndex[j], r'.matchIndex[j]) {
      assert PeerOk(s, x.term, |x.log|, j, r.nextIndex[j], r.matchIndex[j]);
      assert Ack(x.term, i, |x.log|) in s'.net;
    }
  }

  /** A leader can always build the request for a peer that does not need the snapshot: every
      log access is in range. */
  lemma SendInRange(r: Server, s: Sys, i: nat, peer: nat)
    requires Inv(s) && ServerOk(r, s, i) && r.role == Leader && peer < |s.nodes| && peer != i
    requires !NeedsSnapshot(r, peer)
    ensures CanSend(r, peer)
  {
    ServerShape(r, s, i);
    var b := First(r).index;
    assert PeerOk(s, s.nodes[i].term, |s.nodes[i].log|, peer, r.nextIndex[peer], r.matchIndex[peer]);
    if b > 0 {
      assert Created(s, s.nodes[i].log, b);
      assert LeaderLogOk(s, First(r).term);
    }
  }

  /** A request holds the leader's whole log above the previous entry. */
  lemma RequestCarries(s: Sys, r: Server, log: seq<Entry>, peer: nat)
    requires View(r, log) && ValidLog(s, log) && CanSend(r, peer)
    ensures var a := PrepareLog(r, peer).1;
      && 0 <= a.prevIndex < |log| && a.prevTerm == log[a.prevIndex].term
      && a.entries == log[a.prevIndex + 1..] && a.prevIndex + 1 == SendIndex(r, peer)
  {
    ViewFacts(s, r, log);
  }

  lemma SendLogStep(r: Replica, s: Sys, i: nat, peer: nat) returns (s': Sys)
    requires Inv(s) && RepOk(r, s, i) && CanSend(r.raft, peer)
    ensures Inv(s') && Moved(s, s', i)
    ensures var (r', a) := PrepareLog(r.raft, peer);
      RepOk(r.(raft := r'), s', i) && PacketOk(s', LogReq(peer, a, r'.nextIndex[peer]))
  {
    ServerShape(r.raft, s, i);
    var x := s.nodes[i];
    s' := A.Send(s, i, |x.log|, x.commit);
    A.SendKeeps(s, i, |x.log|, x.commit);
    var (r', a) := PrepareLog(r.raft, peer);
    assert x.log[..|x.log|] == x.log;
    RequestCarries(s, r.raft, x.log, peer);
    assert Carries(s', a, x.log);
    PreparedOk(r, s, s', i, peer);
  }

  lemma PreparedOk(r: Replica, s: Sys, s': Sys, i: nat, peer: nat)
    requires RepOk(r, s, i) && CanSend(r.raft, peer) && Grows(s, s') && s'.nodes == s.nodes
    ensures RepOk(r.(raft := PrepareLog(r.raft, peer).0), s', i)
  {
    PreparedPeers(r.raft, s, s', i, peer);
  }

  lemma PreparedPeers(r: Server, s: Sys, s': Sys, i: nat, peer: nat)
    requires ServerOk(r, s, i) && CanSend(r, peer) && Grows(s, s')
    ensures var r', x := PrepareLog(r, peer).0, s.nodes[i];
      PeersOk(r'.nextIndex, r'.matchIndex, s', x.term, |x.log|)
  {
    var r', x := PrepareLog(r, peer).0, s.nodes[i];
    forall j: nat | j < |s'.nodes| ensures PeerOk(s', x.term, |x.log|, j, r'.nextIndex[j], r'.matchIndex[j]) {
      assert PeerOk(s, x.term, |x.log|, j, r.nextIndex[j], r.matchIndex[j]);
    }
  }

  lemma SendSnapStep(r: Replica, s: Sys, i: nat, peer: nat) returns (s': Sys)
    requires Inv(s) && RepOk(r, s, i) && r.raft.role == Leader && peer < |s.nodes|
    ensures WellFormed(r.raft) && Inv(s') && Moved(s, s', i) && RepOk(r, s', i)
    ensures PacketOk(s', SnapReq(peer, PrepareSnapshot(r.raft), r.raft.nextIndex[peer], r.raft.matchIndex[peer]))
  {
    ServerShape(r.raft, s, i);
    var x, b := s.nodes[i], First(r.raft).index;
    s' := A.Send(s, i, b + 1, b);
    A.SendKeeps(s, i, b + 1, b);
    RepGrows(r, s, s', i);
    SameReplay(x.log, x.log[..b + 1], b);
    assert CarriesSnapshot(s', PrepareSnapshot(r.raft), x.log[..b + 1]);
  }

  // ---------- The follower ----------

  /** A request and a server of its term agree on everything the server knows to be committed,
      in particular at the snapshot boundary, where the code compares no terms. */
  lemma SharedPrefix(s: Sys, i: nat, m: Msg, k: nat)
    requires Inv(s) && i < |s.nodes| && m in s.net && m.LogMsg? && m.term == s.nodes[i].term
    requires k <= s.nodes[i].commit && k < |m.log|
    ensures Same(s.nodes[i].log, m.log, k + 1)
  {
    assert NodeOk(s, i);
    CommittedInMessage(s, m, s.nodes[i].log, s.nodes[i].commit, k);
  }

  /** `a` is the part above its previous entry of a log that the server shares up to there. */
  ghost predicate Tail(r: Server, log: seq<Entry>, a: LogArgs, sent: seq<Entry>) {
    && |r.log| > 0 && 0 <= a.prevIndex < |log| && a.prevIndex < |sent| && a.entries == sent[a.prevIndex + 1..]
    && Same(log, sent, a.prevIndex + 1)
    && (|a.entries| > 0 ==> First(r).index <= a.prevIndex)
  }

  lemma TailShape(s: Sys, r: Server, log: seq<Entry>, a: LogArgs, sent: seq<Entry>)
    requires View(r, log) && ValidLog(s, log) && ValidLog(s, sent) && Tail(r, log, a, sent)
    ensures WellFormedArgs(a) && a.prevIndex <= Last(r).index
  {
    ViewFacts(s, r, log);
    forall j | 0 <= j < |a.entries| ensures a.entries[j].index == a.prevIndex + 1 + j {
      assert Created(s, sent, a.prevIndex + 1 + j);
    }
  }

  /** Replacing the tail above a shared prefix gives the other log, compacted. */
  lemma SplicedTail(log: seq<Entry>, sent: seq<Entry>, b: nat, prev: nat)
    requires Same(log, sent, prev + 1) && b <= prev
    ensures Compact(log, b)[..prev - b + 1] + sent[prev + 1..] == Compact(sent, b)
  {
  }

  /** Skip when the last entry matches, else replace the tail: the merged log is the leader's
      log, unless the server already held all of it. */
  lemma MergeIsAdopt(s: Sys, r: Server, log: seq<Entry>, a: LogArgs, sent: seq<Entry>)
    requires View(r, log) && ValidLog(s, log) && ValidLog(s, sent) && Tail(r, log, a, sent)
    requires WellFormed(r) && WellFormedArgs(a) && a.prevIndex <= Last(r).index
    ensures MergeEntries(r, a) == if Prefix(sent, log) then r.log else Compact(sent, First(r).index)
  {
    if |a.entries| == 0 {
      assert |sent| == a.prevIndex + 1;
    } else {
      LastMatches(s, r, log, a, sent);
      if !HoldsLast(r, a) {
        SplicedTail(log, sent, First(r).index, a.prevIndex);
      }
    }
  }

  /** The server holds the last entry of the request exactly when it holds the sender's whole log. */
  lemma LastMatches(s: Sys, r: Server, log: seq<Entry>, a: LogArgs, sent: seq<Entry>)
    requires View(r, log) && ValidLog(s, log) && ValidLog(s, sent) && Tail(r, log, a, sent) && |a.entries| > 0
    ensures a.entries[|a.entries| - 1].index == |sent| - 1 >= First(r).index
    ensures HoldsLast(r, a) <==> Prefix(sent, log)
  {
    ViewFacts(s, r, log);
    var k := |sent| - 1;
    assert a.entries[|a.entries| - 1] == sent[k];
    assert Created(s, sent, k);
    if HoldsLast(r, a) {
      LogMatching(s, log, sent, k);
    } else {
      assert k < |log| ==> EntryAt(r, k) == log[k];
    }
  }

  /** A server that takes over the log of a message, keeping its own snapshot. */
  lemma AdoptStep(r: Server, s: Sys, i: nat, m: Msg) returns (s': Sys)
    requires Inv(s) && ServerOk(r, s, i) && m in s.net && m.LogMsg? && m.term == s.nodes[i].term
    requires !Prefix(m.log, s.nodes[i].log)
    ensures Inv(s') && Moved(s, s', i) && s' == A.Adopt(s, i, m) && r.role != Leader
    ensures Same(s.nodes[i].log, m.log, s.nodes[i].commit + 1)
    ensures ServerOk(Persist(r.(role := Follower, log := Compact(m.log, First(r).index))), s', i)
  {
    var x := s.nodes[i];
    assert NodeOk(s, i) && MsgOk(s, m);
    A.AdoptKeepsCommitted(s, i, m);
    s' := A.Adopt(s, i, m);
    A.AdoptKeeps(s, i, m);
    SameReplay(x.log, m.log, First(r).index);
  }

  lemma MergeFacts(r: Server, s: Sys, i: nat, a: LogArgs, m: Msg)
    requires Inv(s) && ServerOk(r, s, i) && m in s.net && m.LogMsg?
    requires Tail(r, s.nodes[i].log, a, m.log)
    ensures WellFormed(r) && WellFormedArgs(a) && a.prevIndex <= Last(r).index
    ensures MergeEntries(r, a) == if Prefix(m.log, s.nodes[i].log) then r.log else Compact(m.log, First(r).index)
  {
    ServerShape(r, s, i);
    assert MsgOk(s, m);
    A.MessageLogValid(s, m);
    TailShape(s, r, s.nodes[i].log, a, m.log);
    MergeIsAdopt(s, r, s.nodes[i].log, a, m.log);
  }

  /** The log part of an accepted request. */
  lemma MergeStep(r: Server, s: Sys, i: nat, a: LogArgs, m: Msg) returns (s': Sys)
    requires Inv(s) && ServerOk(r, s, i) && m in s.net && m.LogMsg? && m.term == s.nodes[i].term
    requires Tail(r, s.nodes[i].log, a, m.log)
    ensures WellFormed(r) && WellFormedArgs(a) && a.prevIndex <= Last(r).index
    ensures Inv(s') && Moved(s, s', i) && s'.net == s.net && s'.nodes[i].term == m.term
    ensures Prefix(m.log, s'.nodes[i].log) && Same(s.nodes[i].log, s'.nodes[i].log, s.nodes[i].commit + 1)
    ensures s'.nodes[i].commit == s.nodes[i].commit
    ensures ServerOk(Persist(r.(role := Yield(r.role), log := MergeEntries(r, a))), s', i)
  {
    MergeFacts(r, s, i, a, m);
    if Prefix(m.log, s.nodes[i].log) {
      s' := YieldStep(r, s, i);
    } else {
      s' := AdoptStep(r, s, i, m);
    }
  }

  /** A server whose log extends a message's learns its commit index and acknowledges it. */
  lemma LearnAndAck(s: Sys, i: nat, m: Msg) returns (s': Sys)
    requires Inv(s) && i < |s.nodes| && m in s.net && m.LogMsg? && m.term == s.nodes[i].term
    requires Prefix(m.log, s.nodes[i].log)
    ensures Inv(s') && Moved(s, s', i)
    ensures s'.nodes[i] == s.nodes[i].(commit := Max(s.nodes[i].commit, m.commit))
    ensures 0 <= m.commit < |m.log| && Acked(s', i, m.term, |m.log| - 1)
  {
    assert MsgOk(s, m);
    var s1 := s;
    if m.commit > s.nodes[i].commit {
      s1 := A.CommitTo(s, i, m.commit);
      A.LearnCommitKeeps(s, i, m, m.commit);
    }
    s' := A.Confirm(s1, i, m);
    A.ConfirmKeeps(s1, i, m);
    MovedTransitive(s, s1, s', i);
    assert Ack(m.term, i, |m.log| - 1) in s'.net;
  }

  /** The commit part of an accepted request, and the acknowledgement.  The request reaches at
      least as far as the leader's commit index, so the local last index never limits it. */
  lemma FollowStep(r: Server, s: Sys, i: nat, m: Msg) returns (s': Sys)
    requires Inv(s) && ServerOk(r, s, i) && m in s.net && m.LogMsg? && m.term == s.nodes[i].term
    requires Prefix(m.log, s.nodes[i].log)
    ensures Inv(s') && Moved(s, s', i) && s'.nodes[i].log == s.nodes[i].log
    ensures ServerOk(r.(commitIndex := FollowerCommit(r, m.commit)), s', i)
    ensures FollowerCommit(r, m.commit) == Max(r.commitIndex, m.commit)
    ensures |m.log| > 0 && Acked(s', i, m.term, |m.log| - 1)
  {
    ServerShape(r, s, i);
    var x := s.nodes[i];
    s' := LearnAndAck(s, i, m);
    if x.role == Leader {
      PeersGrow(r.nextIndex, r.matchIndex, s, s', x.term, |x.log|);
    }
  }

  lemma AcceptStep(r: Server, s: Sys, i: nat, a: LogArgs, m: Msg) returns (s': Sys)
    requires Inv(s) && ServerOk(r, s, i) && m in s.net && m.LogMsg? && m.term == s.nodes[i].term
    requires Tail(r, s.nodes[i].log, a, m.log) && a.leaderCommit == m.commit
    ensures WellFormed(r) && WellFormedArgs(a) && a.prevIndex <= Last(r).index
    ensures Inv(s') && Moved(s, s', i) && ServerOk(AcceptLog(r, a), s', i)
    ensures Same(s.nodes[i].log, s'.nodes[i].log, s.nodes[i].commit + 1)
    ensures |m.log| > 0 && Acked(s', i, m.term, |m.log| - 1)
  {
    var s1 := MergeStep(r, s, i, a, m);
    s' := FollowStep(Persist(r.(role := Yield(r.role), log := MergeEntries(r, a))), s1, i, m);
    MovedTransitive(s, s1, s', i);
  }

  lemma CarriedShape(s: Sys, a: LogArgs, log: seq<Entry>)
    requires Inv(s) && Carries(s, a, log)
    ensures ValidLog(s, log) && WellFormedArgs(a)
    ensures |a.entries| > 0 ==> a.entries[|a.entries| - 1].index == |log| - 1
  {
    var m := LogMsg(a.term, log, a.leaderCommit);
    assert MsgOk(s, m);
    A.MessageLogValid(s, m);
    forall j | 0 <= j < |a.entries| ensures a.entries[j].index == a.prevIndex + 1 + j {
      assert Created(s, log, a.prevIndex + 1 + j);
    }
  }

  /** The request that is left after cutting at the snapshot starts at a shared entry. */
  lemma AcceptedTail(r: Server, s: Sys, i: nat, a: LogArgs, log: seq<Entry>)
    requires Inv(s) && ServerOk(r, s, i) && r.currentTerm == a.term && Carries(s, a, log)
    requires a.prevIndex < |s.nodes[i].log|
    requires WellFormedArgs(a) && WellFormed(r)
    requires !(a.prevIndex < First(r).index && |a.entries| > 0 && |log| - 1 <= First(r).index)
    ensures var below := a.prevIndex < First(r).index && |a.entries| > 0;
      var b := if below then Trim(r, a) else a;
      Conflicts(r, b) || Tail(r, s.nodes[i].log, b, log)
  {
    ServerShape(r, s, i);
    CarriedShape(s, a, log);
    var m, first := LogMsg(a.term, log, a.leaderCommit), First(r).index;
    if a.prevIndex < first && |a.entries| > 0 {
      SharedPrefix(s, i, m, first);
      assert Trim(r, a).entries == log[first + 1..];
    } else if !Conflicts(r, a) {
      if a.prevIndex <= first {
        SharedPrefix(s, i, m, a.prevIndex);
      } else {
        LogMatching(s, s.nodes[i].log, log, a.prevIndex);
      }
    }
  }

  /** A request that lies entirely below the snapshot is only acknowledged. */
  lemma BelowStep(r: Server, s: Sys, i: nat, m: Msg) returns (s': Sys)
    requires Inv(s) && ServerOk(r, s, i) && m in s.net && m.LogMsg? && m.term == s.nodes[i].term
    requires |m.log| - 1 <= First(r).index
    ensures Inv(s') && Moved(s, s', i) && ServerOk(r, s', i) && s'.nodes == s.nodes
    ensures |m.log| > 0 && Acked(s', i, m.term, |m.log| - 1)
  {
    assert MsgOk(s, m);
    SharedPrefix(s, i, m, |m.log| - 1);
    s' := A.Confirm(s, i, m);
    A.ConfirmKeeps(s, i, m);
    ServerGrows(r, s, s', i);
    assert Ack(m.term, i, |m.log| - 1) in s'.net;
  }

  /** RequestSendLog in the request's own term. */
  lemma InTermLogStep(r: Server, s: Sys, i: nat, a: LogArgs, log: seq<Entry>) returns (s': Sys)
    requires Inv(s) && ServerOk(r, s, i) && r.currentTerm == a.term && Carries(s, a, log)
    ensures WellFormed(r) && WellFormedArgs(a)
    ensures Inv(s') && Moved(s, s', i) && ServerOk(ReceiveLog(r, a).0, s', i)
    ensures Same(s.nodes[i].log, s'.nodes[i].log, s.nodes[i].commit + 1)
    ensures ReceiveLog(r, a).1.success ==> Acked(s', i, a.term, |log| - 1)
  {
    ServerShape(r, s, i);
    CarriedShape(s, a, log);
    var m, first := LogMsg(a.term, log, a.leaderCommit), First(r).index;
    var below := a.prevIndex < first && |a.entries| > 0;
    s' := s;
    if a.prevIndex > Last(r).index {
    } else if below && |log| - 1 <= first {
      s' := BelowStep(r, s, i, m);
    } else {
      AcceptedTail(r, s, i, a, log);
      var b := if below then Trim(r, a) else a;
      if !Conflicts(r, b) {
        s' := AcceptStep(r, s, i, b, m);
      }
    }
  }

  lemma ServerGrows(r: Server, s: Sys, s': Sys, i: nat)
    requires ServerOk(r, s, i) && Grows(s, s') && s'.nodes[i] == s.nodes[i]
    ensures ServerOk(r, s', i)
  {
    if s.nodes[i].role == Leader {
      PeersGrow(r.nextIndex, r.matchIndex, s, s', s.nodes[i].term, |s.nodes[i].log|);
    }
  }

  lemma LogServerStep(r: Server, s: Sys, i: nat, a: LogArgs, log: seq<Entry>) returns (s': Sys)
    requires Inv(s) && ServerOk(r, s, i) && Carries(s, a, log)
    ensures WellFormed(r) && WellFormedArgs(a)
    ensures Inv(s') && Moved(s, s', i) && ServerOk(RequestSendLog(r, a).0, s', i)
    ensures Same(s.nodes[i].log, s'.nodes[i].log, s.nodes[i].commit + 1)
    ensures RequestSendLog(r, a).1.success ==> Acked(s', i, a.term, |log| - 1)
  {
    ServerShape(r, s, i);
    CarriedShape(s, a, log);
    s' := s;
    if a.term >= r.currentTerm {
      var s1 := TermStep(r, s, i, a.term);
      s' := InTermLogStep(AddCurrentTerm(r, a.term), s1, i, a, log);
      MovedTransitive(s, s1, s', i);
    }
  }

  lemma LogReqStep(r: Replica, s: Sys, i: nat, p: Packet) returns (s': Sys)
    requires Inv(s) && RepOk(r, s, i) && p.LogReq? && p.dst == i && PacketOk(s, p)
    ensures WellFormed(r.raft) && WellFormedArgs(p.largs)
    ensures Inv(s') && Moved(s, s', i)
    ensures RepOk(r.(raft := RequestSendLog(r.raft, p.largs).0), s', i)
    ensures PacketOk(s', LogRep(p.largs.leader, i, p.largs, p.sentNext, RequestSendLog(r.raft, p.largs).1))
  {
    var a := p.largs;
    var log :| Carries(s, a, log);
    s' := LogServerStep(r.raft, s, i, a, log);
    CarriedShape(s, a, log);
    LogKeepsApplied(r.raft, a);
    ReplicaFollows(r, RequestSendLog(r.raft, a).0, s, s', i);
  }

  /** A log request applies nothing and makes no candidate. */
  lemma LogKeepsApplied(r: Server, a: LogArgs)
    requires WellFormed(r) && WellFormedArgs(a)
    ensures var r' := RequestSendLog(r, a).0;
      && r'.lastApplied == r.lastApplied
      && (r'.role == Candidate ==> r.role == Candidate && r'.currentTerm == r.currentTerm)
  {
  }

  // ---------- Replies ----------

  /** The commit scan stops at the old commit index or at an entry of the leader's own term that
      a majority has matched. */
  lemma {:induction false} ScanFinds(r: Server, k: int, commit: int)
    requires |r.log| > 0 && First(r).index < k
    ensures var c := ScanCommit(r, k, commit);
      c == commit || (k <= c < First(r).index + |r.log| && EntryAt(r, c).term == r.currentTerm
                      && |Matching(r, c)| > |r.matchIndex| / 2)
    decreases First(r).index + |r.log| - k
  {
    if k <= First(r).index + |r.log| - 1 && |Matching(r, k)| > |r.matchIndex| / 2 {
      ScanFinds(r, k + 1, if EntryAt(r, k).term == r.currentTerm then k else commit);
    }
  }

  /** The peers matched up to `c` are a quorum that stores the leader's log up to `c`. */
  lemma MatchingIsQuorum(r: Server, s: Sys, t: int, len: nat, c: nat)
    requires PeersOk(r.nextIndex, r.matchIndex, s, t, len) && c > 0 && |Matching(r, c)| > |r.matchIndex| / 2
    ensures AckedBy(s, Matching(r, c), t, c)
  {
    forall v | v in Matching(r, c) ensures Acked(s, v, t, c) {
      assert PeerOk(s, t, len, v, r.nextIndex[v], r.matchIndex[v]);
    }
  }

  lemma CommitStep(r: Server, s: Sys, i: nat) returns (s': Sys)
    requires Inv(s) && ServerOk(r, s, i) && r.role == Leader
    ensures Inv(s') && Moved(s, s', i) && ServerOk(AdvanceCommit(r), s', i) && s'.nodes[i].log == s.nodes[i].log
  {
    var c := ScanCommit(r, r.commitIndex + 1, r.commitIndex);
    ScanFinds(r, r.commitIndex + 1, r.commitIndex);
    s' := s;
    if c != r.commitIndex {
      s' := CommitFound(r, s, i, c);
    }
  }

  lemma CommitFound(r: Server, s: Sys, i: nat, c: int) returns (s': Sys)
    requires Inv(s) && ServerOk(r, s, i) && r.role == Leader && r.commitIndex < c < First(r).index + |r.log|
    requires EntryAt(r, c).term == r.currentTerm && |Matching(r, c)| > |r.matchIndex| / 2
    ensures Inv(s') && Moved(s, s', i) && ServerOk(r.(commitIndex := c), s', i) && s'.nodes[i].log == s.nodes[i].log
  {
    ServerShape(r, s, i);
    var x := s.nodes[i];
    MatchingIsQuorum(r, s, x.term, |x.log|, c);
    s' := A.CommitTo(s, i, c);
    A.LeaderCommitKeeps(s, i, c, Matching(r, c));
    PeersGrow(r.nextIndex, r.matchIndex, s, s', x.term, |x.log|);
  }

  lemma PeerUpdated(r: Server, s: Sys, i: nat, j: nat, next: int, matched: int)
    requires ServerOk(r, s, i) && r.role == Leader && j < |s.nodes|
    requires PeerOk(s, s.nodes[i].term, |s.nodes[i].log|, j, next, matched)
    ensures ServerOk(r.(nextIndex := r.nextIndex[j := next], matchIndex := r.matchIndex[j := matched]), s, i)
  {
    var x, next', matched' := s.nodes[i], r.nextIndex[j := next], r.matchIndex[j := matched];
    forall k: nat | k < |s.nodes| ensures PeerOk(s, x.term, |x.log|, k, next'[k], matched'[k]) {
      assert PeerOk(s, x.term, |x.log|, k, r.nextIndex[k], r.matchIndex[k]);
    }
  }

  /** What a leader's peer acknowledged in its term lies within the leader's log. */
  lemma AckedInLog(s: Sys, i: nat, v: nat, k: nat)
    requires Inv(s) && i < |s.nodes| && s.nodes[i].role == Leader && Acked(s, v, s.nodes[i].term, k)
    ensures k < |s.nodes[i].log|
  {
    assert NodeOk(s, i);
    var m :| m in s.net && m.Ack? && m.term == s.nodes[i].term && m.from == v && k <= m.upTo;
    assert MsgOk(s, m);
  }

  lemma {:induction false} TermStartRange(r: Server, k: int)
    requires |r.log| > 0 && First(r).index <= k < First(r).index + |r.log|
    ensures First(r).index <= TermStart(r, k) <= k
    decreases k - First(r).index
  {
    if k > First(r).index && EntryAt(r, k - 1).term == EntryAt(r, k).term {
      TermStartRange(r, k - 1);
    }
  }

  lemma SuccessStep(r: Server, s: Sys, i: nat, j: nat, k: nat, next: int, matched: int) returns (s': Sys)
    requires Inv(s) && ServerOk(r, s, i) && r.role == Leader && j < |s.nodes| && Acked(s, j, r.currentTerm, k)
    requires matched == r.matchIndex[j] || matched == k
    requires next == r.nextIndex[j] || next == k + 1
    ensures Inv(s') && Moved(s, s', i) && s'.nodes[i].log == s.nodes[i].log
    ensures var r1 := r.(matchIndex := r.matchIndex[j := matched], nextIndex := r.nextIndex[j := next]);
      ServerOk(AdvanceCommit(r1), s', i)
  {
    var x := s.nodes[i];
    AckedInLog(s, i, j, k);
    assert PeerOk(s, x.term, |x.log|, j, r.nextIndex[j], r.matchIndex[j]);
    PeerUpdated(r, s, i, j, next, matched);
    s' := CommitStep(r.(matchIndex := r.matchIndex[j := matched], nextIndex := r.nextIndex[j := next]), s, i);
  }

  lemma LogRepStep(r: Server, s: Sys, i: nat, p: Packet) returns (s': Sys)
    requires Inv(s) && ServerOk(r, s, i) && p.LogRep? && p.dst == i && PacketOk(s, p)
    ensures WellFormed(r) && Inv(s') && Moved(s, s', i) && s'.nodes[i].log == s.nodes[i].log
    ensures ServerOk(LogReplyReceived(r, p.from, p.largs, p.sentNext, p.lreply), s', i)
  {
    ServerShape(r, s, i);
    var a, j := p.largs, p.from;
    s' := s;
    if p.lreply.term > r.currentTerm {
      s' := TermStep(r, s, i, p.lreply.term);
    } else if r.role == Leader && r.currentTerm == a.term {
      if p.lreply.success {
        if |a.entries| > 0 {
          var k := a.entries[|a.entries| - 1].index;
          s' := SuccessStep(r, s, i, j, k, Max(r.nextIndex[j], k + 1), Max(r.matchIndex[j], k));
        }
      } else if r.nextIndex[j] == p.sentNext {
        BackOffOk(r, s, i, j, p.sentNext);
      }
    }
  }

  /** A rejection moves the peer's next index back within range. */
  lemma BackOffOk(r: Server, s: Sys, i: nat, j: nat, sent: int)
    requires Inv(s) && ServerOk(r, s, i) && r.role == Leader && j < |s.nodes| && WellFormed(r)
    requires r.nextIndex[j] == sent
    ensures ServerOk(r.(nextIndex := r.nextIndex[j := BackOff(r, sent)]), s, i)
  {
    var x, last := s.nodes[i], First(r).index + |r.log| - 1;
    TermStartRange(r, if sent - 1 > last then last else Max(sent - 1, First(r).index));
    assert PeerOk(s, x.term, |x.log|, j, r.nextIndex[j], r.matchIndex[j]);
    PeerUpdated(r, s, i, j, BackOff(r, sent), r.matchIndex[j]);
    assert r.matchIndex[j := r.matchIndex[j]] == r.matchIndex;
  }

  lemma SnapRepStep(r: Server, s: Sys, i: nat, p: Packet) returns (s': Sys)
    requires Inv(s) && ServerOk(r, s, i) && p.SnapRep? && p.dst == i && PacketOk(s, p)
    ensures WellFormed(r) && Inv(s') && Moved(s, s', i) && s'.nodes[i].log == s.nodes[i].log
    ensures ServerOk(SnapReplyReceived(r, p.from, p.sargs, p.sentNext, p.sentMatch, p.term), s', i)
  {
    ServerShape(r, s, i);
    var a, j := p.sargs, p.from;
    s' := s;
    if p.term > r.currentTerm {
      s' := TermStep(r, s, i, p.term);
    } else if r.role == Leader && r.currentTerm == a.term {
      var next := if r.nextIndex[j] == p.sentNext then Max(p.sentNext, a.lastIndex + 1) else r.nextIndex[j];
      var matched := if r.matchIndex[j] == p.sentMatch then Max(p.sentMatch, a.lastIndex) else r.matchIndex[j];
      s' := SuccessStep(r, s, i, j, a.lastIndex, next, matched);
    }
  }

  // ---------- Snapshots, apply, crash ----------

  /** Installing a snapshot in its own term: the log becomes the leader's committed prefix. */
  lemma InstallStep(r: Server, s: Sys, i: nat, a: SnapArgs, log: seq<Entry>) returns (s': Sys)
    requires Inv(s) && ServerOk(r, s, i) && r.currentTerm == a.term && CarriesSnapshot(s, a, log)
    requires WellFormed(r) && !DiscardsSnapshot(r, a)
    ensures r.role != Leader && r.commitIndex < a.lastIndex
    ensures Inv(s') && Moved(s, s', i) && s'.nodes[i].log == log && Acked(s', i, a.term, a.lastIndex)
    ensures var r1 := Persist(r.(role := Follower, log := [Entry(a.lastTerm, a.lastIndex, Nil)], snapshot := a.data));
      ServerOk(r1.(lastApplied := a.lastIndex, commitIndex := a.lastIndex), s', i)
  {
    ServerShape(r, s, i);
    var x, m := s.nodes[i], LogMsg(a.term, log, a.lastIndex);
    assert MsgOk(s, m);
    if r.commitIndex >= a.lastIndex {
      SharedPrefix(s, i, m, a.lastIndex);
    }
    var s1 := AdoptStep(r, s, i, m);
    s' := LearnAndAck(s1, i, m);
    MovedTransitive(s, s1, s', i);
  }

  /** A discarded snapshot leaves the full log alone: the server already holds it. */
  lemma DiscardStep(r: Server, s: Sys, i: nat, a: SnapArgs, log: seq<Entry>) returns (s': Sys)
    requires Inv(s) && ServerOk(r, s, i) && r.currentTerm == a.term && CarriesSnapshot(s, a, log)
    requires WellFormed(r) && DiscardsSnapshot(r, a)
    ensures Inv(s') && Moved(s, s', i) && s'.nodes == s.nodes && Acked(s', i, a.term, a.lastIndex)
    ensures ServerOk(Persist(r), s', i)
  {
    ServerShape(r, s, i);
    var x, m := s.nodes[i], LogMsg(a.term, log, a.lastIndex);
    assert MsgOk(s, m);
    if a.lastIndex <= First(r).index {
      SharedPrefix(s, i, m, a.lastIndex);
    } else {
      A.MessageLogValid(s, m);
      LogMatching(s, x.log, log, a.lastIndex);
    }
    s' := A.Confirm(s, i, m);
    A.ConfirmKeeps(s, i, m);
    ServerGrows(r, s, s', i);
    assert Ack(m.term, i, |m.log| - 1) in s'.net;
  }

  lemma YieldStep(r: Server, s: Sys, i: nat) returns (s': Sys)
    requires Inv(s) && ServerOk(r, s, i)
    ensures Inv(s') && Moved(s, s', i) && s'.net == s.net && ServerOk(r.(role := Yield(r.role)), s', i)
    ensures s'.nodes[i].log == s.nodes[i].log && s'.nodes[i].commit == s.nodes[i].commit
    ensures s'.nodes[i].term == s.nodes[i].term
  {
    s' := s;
    if r.role == Candidate {
      s' := A.StepDown(s, i, r.commitIndex);
      A.StepDownKeeps(s, i, r.commitIndex);
    }
  }

  lemma InTermSnapStep(r: Server, s: Sys, i: nat, a: SnapArgs, log: seq<Entry>) returns (s': Sys)
    requires Inv(s) && ServerOk(r, s, i) && r.currentTerm == a.term && CarriesSnapshot(s, a, log)
    requires WellFormed(r) && r.role != Candidate
    ensures Inv(s') && Moved(s, s', i)
    ensures var (r', installed) := ReceiveSnapshot(r, a);
      && ServerOk(r', s', i) && r'.role != Candidate && Acked(s', i, a.term, a.lastIndex)
      && (if installed then s'.nodes[i].log == log && r'.lastApplied == a.lastIndex > 0
          else s'.nodes[i].log == s.nodes[i].log && r'.lastApplied == r.lastApplied)
  {
    if DiscardsSnapshot(r, a) {
      s' := DiscardStep(r, s, i, a, log);
    } else {
      s' := InstallStep(r, s, i, a, log);
    }
  }

  lemma SnapServerStep(r: Server, s: Sys, i: nat, a: SnapArgs, log: seq<Entry>) returns (s': Sys)
    requires Inv(s) && ServerOk(r, s, i) && CarriesSnapshot(s, a, log) && a.term >= r.currentTerm
    ensures WellFormed(r) && Inv(s') && Moved(s, s', i) && Acked(s', i, a.term, a.lastIndex)
    ensures var (r', term, installed) := InstallSnapshot(r, a);
      && ServerOk(r', s', i) && r'.role != Candidate
      && (if installed then s'.nodes[i].log == log && r'.lastApplied == a.lastIndex > 0
          else s'.nodes[i].log == s.nodes[i].log && r'.lastApplied == r.lastApplied)
  {
    ServerShape(r, s, i);
    var s1 := TermStep(r, s, i, a.term);
    var r1 := AddCurrentTerm(r, a.term);
    var s2 := YieldStep(r1, s1, i);
    s' := InTermSnapStep(r1.(role := Yield(r1.role)), s2, i, a, log);
    MovedTransitive(s, s1, s2, i);
    MovedTransitive(s, s2, s', i);
  }

  lemma SnapReqStep(r: Replica, s: Sys, i: nat, p: Packet) returns (s': Sys)
    requires Inv(s) && RepOk(r, s, i) && p.SnapReq? && p.dst == i && PacketOk(s, p)
    ensures WellFormed(r.raft) && First(r.raft).index <= r.raft.commitIndex
    ensures Inv(s') && Moved(s, s', i) && RepOk(Receive(r, p).0, s', i)
    ensures forall q | q in Receive(r, p).1 :: PacketOk(s', q)
  {
    var a := p.sargs;
    var log :| CarriesSnapshot(s, a, log);
    ServerShape(r.raft, s, i);
    if a.term < r.raft.currentTerm {
      s' := s;
      SnapStaleOk(r, s, i, p);
    } else {
      s' := SnapServerStep(r.raft, s, i, a, log);
      SnapReplicaOk(r, s, s', i, p, log);
    }
  }

  /** A snapshot of an earlier term changes nothing. */
  lemma SnapStaleOk(r: Replica, s: Sys, i: nat, p: Packet)
    requires RepOk(r, s, i) && WellFormed(r.raft) && First(r.raft).index <= r.raft.commitIndex
    requires p.SnapReq? && p.dst == i && PacketOk(s, p) && p.sargs.term < r.raft.currentTerm
    ensures RepOk(Receive(r, p).0, s, i) && forall q | q in Receive(r, p).1 :: PacketOk(s, q)
  {
  }

  /** The replica follows its server: it keeps its state, or takes over the snapshot. */
  lemma SnapReplicaOk(r: Replica, s: Sys, s': Sys, i: nat, p: Packet, log: seq<Entry>)
    requires RepOk(r, s, i) && WellFormed(r.raft) && First(r.raft).index <= r.raft.commitIndex
    requires p.SnapReq? && p.dst == i && PacketOk(s, p) && CarriesSnapshot(s, p.sargs, log)
    requires |s'.nodes| == |s.nodes| && Acked(s', i, p.sargs.term, p.sargs.lastIndex)
    requires var (r', term, installed) := InstallSnapshot(r.raft, p.sargs);
      && ServerOk(r', s', i) && r'.role != Candidate
      && (if installed then s'.nodes[i].log == log && r'.lastApplied == p.sargs.lastIndex > 0
          else s'.nodes[i].log == s.nodes[i].log && r'.lastApplied == r.raft.lastApplied)
    ensures RepOk(Receive(r, p).0, s', i) && forall q | q in Receive(r, p).1 :: PacketOk(s', q)
  {
  }

  lemma ApplyStep(r: Replica, s: Sys, i: nat)
    requires Inv(s) && RepOk(r, s, i) && r.raft.lastApplied < r.raft.commitIndex
    ensures WellFormed(r.raft) && First(r.raft).index <= r.raft.lastApplied < Last(r.raft).index
    ensures RepOk(ApplyNext(r), s, i)
  {
    ServerShape(r.raft, s, i);
    assert Created(s, s.nodes[i].log, r.raft.lastApplied + 1);
  }

  /** Compaction is invisible in the full log. */
  lemma ServiceSnapshotStep(r: Replica, s: Sys, i: nat)
    requires Inv(s) && RepOk(r, s, i)
    ensures WellFormed(r.raft)
    ensures RepOk(r.(raft := TakeSnapshot(r.raft, r.raft.lastApplied, SnapshotOf(r.kv))), s, i)
  {
    ServerShape(r.raft, s, i);
    var log, b, k := s.nodes[i].log, First(r.raft).index, r.raft.lastApplied;
    if b < k {
      assert Created(s, log, k);
      assert Compact(log, b)[k - b + 1..] == log[k + 1..];
    }
  }

  lemma CrashStep(r: Replica, s: Sys, i: nat) returns (s': Sys)
    requires Inv(s) && RepOk(r, s, i)
    ensures WellFormed(r.raft) && (r.raft.disk.Saved? ==> |r.raft.disk.log| > 0)
    ensures Inv(s') && Moved(s, s', i) && RepOk(Restart(r), s', i)
  {
    ServerShape(r.raft, s, i);
    s' := A.StepDown(s, i, First(r.raft).index);
    A.StepDownKeeps(s, i, First(r.raft).index);
  }
}
