/** The safety theorems of Raft, for every run of the cluster. */
module RaftSafety {
  import opened KvState
  import opened RaftTypes
  import opened RaftServer
  import opened RaftCluster
  import opened RaftFullLog
  import opened RaftRefinement

  // The properties of Figure 3 of the extended Raft paper, about the code's own state, for any
  // interleaving of elections, client requests, lost, delayed, reordered and repeated packets,
  // snapshots, crashes and restarts.

  // ---------- Every step is matched ----------

  lemma ReceiveStep(r: Replica, s: Sys, i: nat, p: Packet) returns (s': Sys)
    requires Inv(s) && RepOk(r, s, i) && p.dst == i && PacketOk(s, p)
    ensures WellFormed(r.raft) && First(r.raft).index <= r.raft.commitIndex
    ensures PacketShape(p, |r.raft.nextIndex|)
    ensures Inv(s') && Moved(s, s', i) && RepOk(Receive(r, p).0, s', i)
    ensures forall q | q in Receive(r, p).1 :: PacketOk(s', q)
  {
    match p
    case VoteReq(_, a) => s' := VoteReqStep(r, s, i, a);
    case VoteRep(_, _, _, _) => s' := VoteRepStep(r, s, i, p);
    case LogReq(_, _, _) => s' := LogReqStep(r, s, i, p);
    case LogRep(_, from, a, next, reply) =>
      s' := LogRepStep(r.raft, s, i, p);
      ReplicaFollows(r, LogReplyReceived(r.raft, from, a, next, reply), s, s', i);
    case SnapReq(_, _, _, _) => s' := SnapReqStep(r, s, i, p);
    case SnapRep(_, from, a, next, matched, term) =>
      s' := SnapRepStep(r.raft, s, i, p);
      ReplicaFollows(r, SnapReplyReceived(r.raft, from, a, next, matched, term), s, s', i);
  }

  lemma ElectionSimulated(c: Cluster, s: Sys, a: Action) returns (s': Sys)
    requires R(c, s) && Inv(s) && Enabled(c, a) && (a.Timeout? || a.WinElection?)
    ensures R(Perform(c, a), s') && Inv(s') && Grows(s, s')
  {
    var i, r := a.i, c.reps[a.i];
    assert RepOk(r, s, i);
    if a.Timeout? {
      s' := TimeoutStep(r, s, i);
      var (r', args) := StartElection(r.raft);
      var out := set j: nat | j < |c.reps| && j != i :: Packet.VoteReq(j, args);
      Preserved(c, s, i, r.(raft := r', votes := {i}), out, s');
    } else {
      s' := WinStep(r, s, i);
      Preserved(c, s, i, r.(raft := BecomeLeader(r.raft)), {}, s');
    }
  }

  lemma LeaderSimulated(c: Cluster, s: Sys, a: Action) returns (s': Sys)
    requires R(c, s) && Inv(s) && Enabled(c, a) && (a.ClientStart? || a.SendLog? || a.SendSnap?)
    ensures R(Perform(c, a), s') && Inv(s') && Grows(s, s')
  {
    assert RepOk(c.reps[a.i], s, a.i);
    if a.ClientStart? {
      s' := ClientStartStep(c.reps[a.i], s, a.i, a.op);
      Preserved(c, s, a.i, c.reps[a.i].(raft := Start(c.reps[a.i].raft, a.op)), {}, s');
    } else {
      s' := SendSimulated(c, s, a);
    }
  }

  lemma SendSimulated(c: Cluster, s: Sys, a: Action) returns (s': Sys)
    requires R(c, s) && Inv(s) && Enabled(c, a) && (a.SendLog? || a.SendSnap?)
    ensures R(Perform(c, a), s') && Inv(s') && Grows(s, s')
  {
    if a.SendLog? {
      s' := SendLogSimulated(c, s, a.i, a.peer);
    } else {
      s' := SendSnapSimulated(c, s, a.i, a.peer);
    }
  }

  lemma SendLogSimulated(c: Cluster, s: Sys, i: nat, peer: nat) returns (s': Sys)
    requires R(c, s) && Inv(s) && Enabled(c, SendLog(i, peer))
    ensures R(Perform(c, SendLog(i, peer)), s') && Inv(s') && Grows(s, s')
  {
    var r := c.reps[i];
    assert RepOk(r, s, i);
    s' := SendLogStep(r, s, i, peer);
    var (r', args) := PrepareLog(r.raft, peer);
    Preserved(c, s, i, r.(raft := r'), {LogReq(peer, args, r'.nextIndex[peer])}, s');
  }

  lemma SendSnapSimulated(c: Cluster, s: Sys, i: nat, peer: nat) returns (s': Sys)
    requires R(c, s) && Inv(s) && Enabled(c, SendSnap(i, peer))
    ensures R(Perform(c, SendSnap(i, peer)), s') && Inv(s') && Grows(s, s')
  {
    var r := c.reps[i];
    assert RepOk(r, s, i);
    s' := SendSnapStep(r, s, i, peer);
    var p := SnapReq(peer, PrepareSnapshot(r.raft), r.raft.nextIndex[peer], r.raft.matchIndex[peer]);
    Preserved(c, s, i, r, {p}, s');
  }

  lemma LocalSimulated(c: Cluster, s: Sys, a: Action) returns (s': Sys)
    requires R(c, s) && Inv(s) && Enabled(c, a) && (a.Apply? || a.ServiceSnapshot? || a.Crash?)
    ensures R(Perform(c, a), s') && Inv(s') && Grows(s, s')
  {
    var i, r := a.i, c.reps[a.i];
    assert RepOk(r, s, i);
    s' := s;
    if a.Apply? {
      ApplyStep(r, s, i);
      Preserved(c, s, i, ApplyNext(r), {}, s);
    } else if a.ServiceSnapshot? {
      ServiceSnapshotStep(r, s, i);
      Preserved(c, s, i, r.(raft := TakeSnapshot(r.raft, r.raft.lastApplied, SnapshotOf(r.kv))), {}, s);
    } else {
      s' := CrashStep(r, s, i);
      Preserved(c, s, i, Restart(r), {}, s');
    }
  }

  lemma DeliverSimulated(c: Cluster, s: Sys, p: Packet) returns (s': Sys)
    requires R(c, s) && Inv(s) && Enabled(c, Deliver(p))
    ensures R(Perform(c, Deliver(p)), s') && Inv(s') && Grows(s, s')
  {
    assert RepOk(c.reps[p.dst], s, p.dst) && PacketOk(s, p);
    s' := ReceiveStep(c.reps[p.dst], s, p.dst, p);
    var (r, out) := Receive(c.reps[p.dst], p);
    Preserved(c, s, p.dst, r, out, s');
  }

  /** Every action of the cluster is matched by steps over full logs. */
  lemma StepSimulated(c: Cluster, s: Sys, a: Action) returns (s': Sys)
    requires R(c, s) && Inv(s) && Enabled(c, a)
    ensures R(Perform(c, a), s') && Inv(s') && Grows(s, s')
  {
    match a
    case Timeout(_) => s' := ElectionSimulated(c, s, a);
    case WinElection(_) => s' := ElectionSimulated(c, s, a);
    case ClientStart(_, _) => s' := LeaderSimulated(c, s, a);
    case SendLog(_, _) => s' := LeaderSimulated(c, s, a);
    case SendSnap(_, _) => s' := LeaderSimulated(c, s, a);
    case Deliver(p) => s' := DeliverSimulated(c, s, p);
    case Apply(_) => s' := LocalSimulated(c, s, a);
    case ServiceSnapshot(_) => s' := LocalSimulated(c, s, a);
    case Crash(_) => s' := LocalSimulated(c, s, a);
  }

  // ---------- Every run is matched ----------

  function Start0(n: nat): Sys {
    Sys(seq(n, _ => Node(0, NOBODY, Follower, [DUMMY], 0)), {}, map[], map[], map[])
  }

  lemma StartOk(n: nat)
    ensures R(Init(n), Start0(n)) && Inv(Start0(n))
  {
  }

  /** The full-log systems behind the clusters of a run. */
  ghost predicate Behind(cs: seq<Cluster>, ss: seq<Sys>) {
    && |ss| == |cs|
    && (forall k | 0 <= k < |cs| :: R(cs[k], ss[k]) && Inv(ss[k]))
    && (forall k, l | 0 <= k <= l < |cs| :: Grows(ss[k], ss[l]))
  }

  lemma {:induction false} RunSimulated(n: nat, cs: seq<Cluster>) returns (ss: seq<Sys>)
    requires IsRun(n, cs)
    ensures Behind(cs, ss)
  {
    if |cs| == 1 {
      StartOk(n);
      ss := [Start0(n)];
    } else {
      var last := |cs| - 1;
      var before := RunSimulated(n, cs[..last]);
      assert Next(cs[last - 1], cs[last]);
      var a :| Enabled(cs[last - 1], a) && cs[last] == Perform(cs[last - 1], a);
      assert R(cs[..last][last - 1], before[last - 1]);
      var s' := StepSimulated(cs[last - 1], before[last - 1], a);
      ss := before + [s'];
      forall k | 0 <= k < |cs| ensures R(cs[k], ss[k]) && Inv(ss[k]) {
        if k < last {
          assert R(cs[..last][k], before[k]);
        }
      }
      forall k, l | 0 <= k <= l < |cs| ensures Grows(ss[k], ss[l]) {
        if k < l == last {
          GrowsTransitive(before[k], before[last - 1], s');
        }
      }
    }
  }

  // ---------- The theorems ----------

  /** The server still holds the entry at a log index, above its snapshot. */
  predicate Holds(r: Server, idx: int) {
    |r.log| > 0 && First(r).index < idx < First(r).index + |r.log|
  }

  /** Server `i` after `k` steps of the run. */
  predicate At(cs: seq<Cluster>, k: nat, i: nat) {
    k < |cs| && i < |cs[k].reps|
  }

  function ServerAt(cs: seq<Cluster>, k: nat, i: nat): Server
    requires At(cs, k, i)
  {
    cs[k].reps[i].raft
  }

  /** What is known of a server's full log, looked at from a later point of the run. */
  lemma FullLogAt(cs: seq<Cluster>, ss: seq<Sys>, k: nat, i: nat, e: nat)
    requires Behind(cs, ss) && At(cs, k, i) && k <= e < |cs|
    ensures i < |ss[k].nodes| && RepOk(cs[k].reps[i], ss[k], i) && NodeOk(ss[k], i)
    ensures ValidLog(ss[e], ss[k].nodes[i].log)
    ensures Committed(ss[e], ss[k].nodes[i].log, ss[k].nodes[i].commit, ss[k].nodes[i].term)
    ensures forall idx | Holds(ServerAt(cs, k, i), idx) ::
      idx < |ss[k].nodes[i].log| && EntryAt(ServerAt(cs, k, i), idx) == ss[k].nodes[i].log[idx]
  {
    assert R(cs[k], ss[k]) && Inv(ss[k]) && Grows(ss[k], ss[e]);
    assert RepOk(cs[k].reps[i], ss[k], i) && NodeOk(ss[k], i);
    var x := ss[k].nodes[i];
    ValidLogGrows(ss[k], ss[e], x.log);
    CommittedGrows(ss[k], ss[e], x.log, x.commit, x.term);
    ServerShape(ServerAt(cs, k, i), ss[k], i);
  }

  /** Any two servers, at any two points of a run, agree on the full logs they know committed. */
  lemma CommittedLogsAgree(cs: seq<Cluster>, ss: seq<Sys>, k: nat, i: nat, l: nat, j: nat, c: nat)
    requires Behind(cs, ss) && At(cs, k, i) && At(cs, l, j)
    requires c <= ServerAt(cs, k, i).commitIndex && c <= ServerAt(cs, l, j).commitIndex
    ensures i < |ss[k].nodes| && j < |ss[l].nodes| && Same(ss[k].nodes[i].log, ss[l].nodes[j].log, c + 1)
  {
    var e := if k <= l then l else k;
    FullLogAt(cs, ss, k, i, e);
    FullLogAt(cs, ss, l, j, e);
    var x, y := ss[k].nodes[i], ss[l].nodes[j];
    var hi := if x.term <= y.term then y.term else x.term;
    CommittedMoves(ss[e], x.log, x.log, x.commit, x.commit, x.term, hi);
    CommittedMoves(ss[e], y.log, y.log, y.commit, y.commit, y.term, hi);
    CommittedAgree(ss[e], x.log, x.commit, y.log, y.commit, hi, c);
  }

  /** State Machine Safety. */
  lemma StateMachineSafety(n: nat, cs: seq<Cluster>, k: nat, i: nat, l: nat, j: nat, idx: int)
    requires IsRun(n, cs) && At(cs, k, i) && At(cs, l, j)
    requires Holds(ServerAt(cs, k, i), idx) && idx <= ServerAt(cs, k, i).commitIndex
    requires Holds(ServerAt(cs, l, j), idx) && idx <= ServerAt(cs, l, j).commitIndex
    ensures EntryAt(ServerAt(cs, k, i), idx) == EntryAt(ServerAt(cs, l, j), idx)
  {
    var ss := RunSimulated(n, cs);
    FullLogAt(cs, ss, k, i, k);
    FullLogAt(cs, ss, l, j, l);
    CommittedLogsAgree(cs, ss, k, i, l, j, idx);
  }

  /** Replicas that have applied equally much are in the same state, however they got there:
      by applying entries one by one, from a snapshot of their own, or from an installed one. */
  lemma ReplicasAgree(n: nat, cs: seq<Cluster>, k: nat, i: nat, l: nat, j: nat)
    requires IsRun(n, cs) && At(cs, k, i) && At(cs, l, j)
    requires ServerAt(cs, k, i).lastApplied == ServerAt(cs, l, j).lastApplied
    ensures cs[k].reps[i].kv == cs[l].reps[j].kv
  {
    var ss := RunSimulated(n, cs);
    FullLogAt(cs, ss, k, i, k);
    FullLogAt(cs, ss, l, j, l);
    var c := ServerAt(cs, k, i).lastApplied;
    CommittedLogsAgree(cs, ss, k, i, l, j, c);
    SameReplay(ss[k].nodes[i].log, ss[l].nodes[j].log, c);
  }

  /** A stored snapshot is the state of every replica that has applied exactly what it covers. */
  lemma SnapshotsAreReplicas(n: nat, cs: seq<Cluster>, k: nat, i: nat, l: nat, j: nat)
    requires IsRun(n, cs) && At(cs, k, i) && At(cs, l, j) && |ServerAt(cs, k, i).log| > 0
    requires ServerAt(cs, k, i).snapshot.SnapshotOf?
    requires First(ServerAt(cs, k, i)).index == ServerAt(cs, l, j).lastApplied
    ensures ServerAt(cs, k, i).snapshot.state == cs[l].reps[j].kv
  {
    var ss := RunSimulated(n, cs);
    FullLogAt(cs, ss, k, i, k);
    FullLogAt(cs, ss, l, j, l);
    var c := ServerAt(cs, l, j).lastApplied;
    CommittedLogsAgree(cs, ss, k, i, l, j, c);
    SameReplay(ss[k].nodes[i].log, ss[l].nodes[j].log, c);
  }

  /** Election Safety: over a whole run, crashes included, a term has at most one leader. */
  lemma ElectionSafety(n: nat, cs: seq<Cluster>, k: nat, i: nat, l: nat, j: nat)
    requires IsRun(n, cs) && At(cs, k, i) && At(cs, l, j)
    requires ServerAt(cs, k, i).role == Leader && ServerAt(cs, l, j).role == Leader
    requires ServerAt(cs, k, i).currentTerm == ServerAt(cs, l, j).currentTerm
    ensures i == j
  {
    var ss := RunSimulated(n, cs);
    var e := if k <= l then l else k;
    FullLogAt(cs, ss, k, i, e);
    FullLogAt(cs, ss, l, j, e);
    assert Grows(ss[k], ss[e]) && Grows(ss[l], ss[e]);
  }

  /** Log Matching: the same term at an index means the same entries up to it. */
  lemma LogsMatch(n: nat, cs: seq<Cluster>, k: nat, i: nat, l: nat, j: nat, idx: int, m: int)
    requires IsRun(n, cs) && At(cs, k, i) && At(cs, l, j)
    requires Holds(ServerAt(cs, k, i), idx) && Holds(ServerAt(cs, l, j), idx)
    requires EntryAt(ServerAt(cs, k, i), idx).term == EntryAt(ServerAt(cs, l, j), idx).term
    requires m <= idx && Holds(ServerAt(cs, k, i), m) && Holds(ServerAt(cs, l, j), m)
    ensures EntryAt(ServerAt(cs, k, i), m) == EntryAt(ServerAt(cs, l, j), m)
  {
    var ss := RunSimulated(n, cs);
    var e := if k <= l then l else k;
    FullLogAt(cs, ss, k, i, e);
    FullLogAt(cs, ss, l, j, e);
    LogMatching(ss[e], ss[k].nodes[i].log, ss[l].nodes[j].log, idx);
  }

  /** ... and the same for a log and a request on its way, at whatever times the two are looked at. */
  lemma RequestsMatch(n: nat, cs: seq<Cluster>, k: nat, i: nat, l: nat, p: Packet, idx: int, m: int)
    requires IsRun(n, cs) && At(cs, k, i) && l < |cs| && p in cs[l].net && p.LogReq?
    requires var a := p.largs; Holds(ServerAt(cs, k, i), idx) && a.prevIndex < idx <= a.prevIndex + |a.entries|
    requires EntryAt(ServerAt(cs, k, i), idx).term == p.largs.entries[idx - p.largs.prevIndex - 1].term
    requires m <= idx && Holds(ServerAt(cs, k, i), m) && p.largs.prevIndex <= m
    ensures var a, e := p.largs, EntryAt(ServerAt(cs, k, i), m);
      if m == a.prevIndex then e.term == a.prevTerm else e == a.entries[m - a.prevIndex - 1]
  {
    var ss := RunSimulated(n, cs);
    var e := if k <= l then l else k;
    FullLogAt(cs, ss, k, i, e);
    var sent := RequestLogAt(cs, ss, l, p, e);
    assert Inv(ss[e]);
    LogMatching(ss[e], ss[k].nodes[i].log, sent, idx);
  }

  /** The log a request was cut from, looked at from a later point of the run. */
  lemma RequestLogAt(cs: seq<Cluster>, ss: seq<Sys>, l: nat, p: Packet, e: nat) returns (sent: seq<Entry>)
    requires Behind(cs, ss) && l <= e < |cs| && p in cs[l].net && p.LogReq?
    ensures ValidLog(ss[e], sent) && 0 <= p.largs.prevIndex < |sent|
    ensures p.largs.prevTerm == sent[p.largs.prevIndex].term && p.largs.entries == sent[p.largs.prevIndex + 1..]
  {
    assert R(cs[l], ss[l]) && Inv(ss[l]) && Grows(ss[l], ss[e]);
    assert PacketOk(ss[l], p);
    sent :| Carries(ss[l], p.largs, sent);
    CarriedShape(ss[l], p.largs, sent);
    ValidLogGrows(ss[l], ss[e], sent);
  }

  /** The server's log covers an index, its snapshot's last entry included. */
  predicate Covers(r: Server, idx: int) {
    |r.log| > 0 && First(r).index <= idx < First(r).index + |r.log|
  }

  /** Terms never decrease along a log, its snapshot's last entry included, and never exceed the server's
      term; indices are contiguous. */
  lemma LogTermsOrdered(n: nat, cs: seq<Cluster>, k: nat, i: nat, a: int, b: int)
    requires IsRun(n, cs) && At(cs, k, i) && a <= b
    requires Covers(ServerAt(cs, k, i), a) && Covers(ServerAt(cs, k, i), b)
    ensures EntryAt(ServerAt(cs, k, i), a).term <= EntryAt(ServerAt(cs, k, i), b).term <= ServerAt(cs, k, i).currentTerm
    ensures EntryAt(ServerAt(cs, k, i), a).index == a
  {
    var ss := RunSimulated(n, cs);
    FullLogAt(cs, ss, k, i, k);
    ServerShape(ServerAt(cs, k, i), ss[k], i);
    TermsAscend(ss[k], ss[k].nodes[i].log, a, b);
    if a > First(ServerAt(cs, k, i)).index {
      assert Created(ss[k], ss[k].nodes[i].log, a);
    }
  }

  /** Leader Append-Only: while a server leads one term it never removes or changes an entry; what it no
      longer holds later has moved into its snapshot. */
  lemma LeaderAppendsOnly(n: nat, cs: seq<Cluster>, k: nat, l: nat, i: nat, idx: int)
    requires IsRun(n, cs) && k <= l && At(cs, k, i) && At(cs, l, i)
    requires ServerAt(cs, k, i).role == Leader == ServerAt(cs, l, i).role
    requires ServerAt(cs, k, i).currentTerm == ServerAt(cs, l, i).currentTerm
    requires Holds(ServerAt(cs, k, i), idx)
    ensures var r := ServerAt(cs, l, i);
      |r.log| > 0 && idx < First(r).index + |r.log|
      && (Holds(r, idx) ==> EntryAt(r, idx) == EntryAt(ServerAt(cs, k, i), idx))
  {
    var ss := RunSimulated(n, cs);
    FullLogAt(cs, ss, k, i, k);
    FullLogAt(cs, ss, l, i, l);
    ServerShape(ServerAt(cs, l, i), ss[l], i);
    assert Grows(ss[k], ss[l]);
    var x, y := ss[k].nodes[i], ss[l].nodes[i];
    assert Prefix(x.log, y.log);
  }

  /** Leader Completeness: what a server knows to be committed is in the log of every leader of
      a later term, whenever in the run that leader is looked at, and of the same term from
      then on. */
  lemma LeadersComplete(n: nat, cs: seq<Cluster>, k: nat, i: nat, l: nat, j: nat, idx: int)
    requires IsRun(n, cs) && At(cs, k, i) && At(cs, l, j)
    requires Holds(ServerAt(cs, k, i), idx) && idx <= ServerAt(cs, k, i).commitIndex
    requires ServerAt(cs, l, j).role == Leader
    requires || ServerAt(cs, l, j).currentTerm > ServerAt(cs, k, i).currentTerm
             || (ServerAt(cs, l, j).currentTerm == ServerAt(cs, k, i).currentTerm && k <= l)
    ensures var r := ServerAt(cs, l, j);
      |r.log| > 0 && idx < First(r).index + |r.log|
      && (Holds(r, idx) ==> EntryAt(r, idx) == EntryAt(ServerAt(cs, k, i), idx))
  {
    var ss := RunSimulated(n, cs);
    FullLogAt(cs, ss, k, i, k);
    FullLogAt(cs, ss, l, j, l);
    ServerShape(ServerAt(cs, l, j), ss[l], j);
    LeaderHolds(cs, ss, k, i, l, j);
  }

  /** A leader's full log begins with everything a server of an earlier term, or of the same term at
      an earlier time, knows to be committed. */
  lemma LeaderHolds(cs: seq<Cluster>, ss: seq<Sys>, k: nat, i: nat, l: nat, j: nat)
    requires Behind(cs, ss) && At(cs, k, i) && At(cs, l, j) && i < |ss[k].nodes| && j < |ss[l].nodes|
    requires ss[l].nodes[j].role == Leader && ss[k].nodes[i].commit > 0
    requires ss[k].nodes[i].term < ss[l].nodes[j].term || (ss[k].nodes[i].term == ss[l].nodes[j].term && k <= l)
    ensures Same(ss[k].nodes[i].log, ss[l].nodes[j].log, ss[k].nodes[i].commit + 1)
  {
    var x, y := ss[k].nodes[i], ss[l].nodes[j];
    assert Inv(ss[l]) && Inv(ss[k]);
    if k <= l {
      FullLogAt(cs, ss, k, i, l);
      LeaderHoldsNow(ss[l], x.log, x.commit, x.term, j);
    } else {
      FullLogAt(cs, ss, k, i, k);
      assert Grows(ss[l], ss[k]);
      LeaderHeldBefore(ss[k], x.log, x.commit, x.term, ss[l], j);
    }
  }

  lemma LeaderHoldsNow(s: Sys, log: seq<Entry>, commit: nat, hi: int, j: nat)
    requires Inv(s) && Committed(s, log, commit, hi) && commit > 0
    requires j < |s.nodes| && s.nodes[j].role == Leader && hi <= s.nodes[j].term
    ensures Same(log, s.nodes[j].log, commit + 1)
  {
    assert NodeOk(s, j);
    var t, c :| t <= hi && ChosenPrefix(s, log, commit, t, c);
    ChosenReaches(s, t, c, s.nodes[j].term);
  }

  /** The same for a leader of a later term that was elected, and is looked at, before `s`. */
  lemma LeaderHeldBefore(s: Sys, log: seq<Entry>, commit: nat, hi: int, s0: Sys, j: nat)
    requires Inv(s) && Inv(s0) && Grows(s0, s) && Committed(s, log, commit, hi) && commit > 0
    requires j < |s0.nodes| && s0.nodes[j].role == Leader && hi < s0.nodes[j].term
    ensures Same(log, s0.nodes[j].log, commit + 1)
  {
    assert NodeOk(s0, j) && LeaderLogOk(s0, s0.nodes[j].term);
    var t, c :| t <= hi && ChosenPrefix(s, log, commit, t, c);
    LeaderCompleteness(s, t, c, s0.nodes[j].term);
  }

  /** In every reachable cluster the handlers' log accesses are in range: the shape that enables
      actions always holds, packets fit their receivers, and a leader can build the request for
      every peer that does not need the snapshot. */
  lemma HandlersInRange(n: nat, cs: seq<Cluster>, k: nat)
    requires IsRun(n, cs) && k < |cs|
    ensures Shape(cs[k])
    ensures forall p | p in cs[k].net :: p.dst < |cs[k].reps| && PacketShape(p, |cs[k].reps|)
    ensures forall i: nat, peer: nat | i < |cs[k].reps| && peer < |cs[k].reps| && peer != i
              && cs[k].reps[i].raft.role == Leader && !NeedsSnapshot(cs[k].reps[i].raft, peer) ::
              CanSend(cs[k].reps[i].raft, peer)
  {
    var ss := RunSimulated(n, cs);
    var c, s := cs[k], ss[k];
    assert R(c, s) && Inv(s);
    forall i | 0 <= i < |c.reps|
      ensures RepOk(c.reps[i], s, i) && WellFormed(c.reps[i].raft)
      ensures Last(c.reps[i].raft).index == |s.nodes[i].log| - 1
      ensures c.reps[i].raft.disk.Saved? ==> |c.reps[i].raft.disk.log| > 0
    {
      assert RepOk(c.reps[i], s, i);
      ServerShape(c.reps[i].raft, s, i);
    }
    forall p | p in c.net ensures p.dst < |c.reps| && PacketShape(p, |c.reps|) {
      assert PacketOk(s, p);
      if p.LogReq? {
        var log :| Carries(s, p.largs, log);
        CarriedShape(s, p.largs, log);
      }
    }
    forall i: nat, peer: nat | i < |c.reps| && peer < |c.reps| && peer != i
      && c.reps[i].raft.role == Leader && !NeedsSnapshot(c.reps[i].raft, peer)
      ensures CanSend(c.reps[i].raft, peer)
    {
      assert RepOk(c.reps[i], s, i);
      SendInRange(c.reps[i].raft, s, i, peer);
    }
  }

  /** At every lock release a crash would lose nothing that must survive: restarting from the
      disk resumes with the term, the vote, the log and the snapshot of memory. */
  lemma PersistedIsCurrent(n: nat, cs: seq<Cluster>, k: nat, i: nat)
    requires IsRun(n, cs) && At(cs, k, i)
    ensures var r := ServerAt(cs, k, i);
      && WellFormed(r) && (r.disk.Saved? ==> |r.disk.log| > 0)
      && var b := Boot(r.me, |r.nextIndex|, r.disk);
      && b.currentTerm == r.currentTerm && b.voteFor == r.voteFor && b.log == r.log && b.snapshot == r.snapshot
      && b.commitIndex == First(r).index <= r.commitIndex
  {
    var ss := RunSimulated(n, cs);
    FullLogAt(cs, ss, k, i, k);
    ServerShape(ServerAt(cs, k, i), ss[k], i);
  }
}
