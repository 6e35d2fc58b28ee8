/** The whole cluster: n servers with their key/value replicas and a network that may lose,
    delay, reorder and repeat packets.  Every action is one critical section of the code. */
module RaftCluster {
  import opened KvState
  import opened RaftTypes
  import opened RaftServer

  /** A server, the votes its running election has collected, and the replica it feeds. */
  datatype Replica = Replica(raft: Server, votes: set<nat>, kv: State, kvLast: int)

  /** Replies carry what the waiting caller remembers about its request. */
  datatype Packet =
    | VoteReq(dst: nat, vargs: VoteArgs)
    | VoteRep(dst: nat, from: nat, vargs: VoteArgs, vreply: VoteReply)
    | LogReq(dst: nat, largs: LogArgs, sentNext: int)
    | LogRep(dst: nat, from: nat, largs: LogArgs, sentNext: int, lreply: LogReply)
    | SnapReq(dst: nat, sargs: SnapArgs, sentNext: int, sentMatch: int)
    | SnapRep(dst: nat, from: nat, sargs: SnapArgs, sentNext: int, sentMatch: int, term: int)

  datatype Cluster = Cluster(reps: seq<Replica>, net: set<Packet>)

  datatype Action =
    | Timeout(i: nat)
    | WinElection(i: nat)
    | ClientStart(i: nat, op: Op)
    | SendLog(i: nat, peer: nat)
    | SendSnap(i: nat, peer: nat)
    | Deliver(p: Packet)
    | Apply(i: nat)
    | ServiceSnapshot(i: nat)
    | Crash(i: nat)

  function Fresh(me: nat, n: nat): Replica
    requires me < n
  {
    Replica(Boot(me, n, Blank), {}, INIT, -1)
  }

  function Init(n: nat): Cluster {
    Cluster(seq(n, i requires 0 <= i < n => Fresh(i, n)), {})
  }

  /** Every replica is in the shape its handlers expect. */
  predicate Shape(c: Cluster) {
    forall i | 0 <= i < |c.reps| ::
      var r := c.reps[i].raft;
      && WellFormed(r) && r.me == i && |r.nextIndex| == |c.reps|
      && First(r).index <= r.lastApplied <= r.commitIndex <= Last(r).index
      && (r.disk.Saved? ==> |r.disk.log| > 0)
  }

  predicate Enabled(c: Cluster, a: Action) {
    && Shape(c)
    && match a
       case Timeout(i) => i < |c.reps| && c.reps[i].raft.role != Leader
       case WinElection(i) => i < |c.reps| && c.reps[i].raft.role == Candidate && |c.reps[i].votes| > |c.reps| / 2
       case ClientStart(i, _) => i < |c.reps|
       case SendLog(i, peer) => i < |c.reps| && CanSend(c.reps[i].raft, peer)
       case SendSnap(i, peer) => i < |c.reps| && peer < |c.reps| && peer != i && c.reps[i].raft.role == Leader
       case Deliver(p) => p in c.net && p.dst < |c.reps| && PacketShape(p, |c.reps|)
       case Apply(i) => i < |c.reps| && c.reps[i].raft.lastApplied < c.reps[i].raft.commitIndex
       case ServiceSnapshot(i) => i < |c.reps|
       case Crash(i) => i < |c.reps|
  }

  predicate PacketShape(p: Packet, n: nat) {
    && (p.LogReq? ==> WellFormedArgs(p.largs))
    && (p.LogRep? || p.SnapRep? ==> p.from < n)
  }

  function Put(c: Cluster, i: nat, r: Replica, out: set<Packet>): Cluster
    requires i < |c.reps|
  {
    Cluster(c.reps[i := r], c.net + out)
  }

  function Receive(r: Replica, p: Packet): (Replica, set<Packet>)
    requires WellFormed(r.raft) && First(r.raft).index <= r.raft.commitIndex
    requires PacketShape(p, |r.raft.nextIndex|)
  {
    match p
    case VoteReq(dst, a) =>
      var (s, reply) := RequestVote(r.raft, a);
      (r.(raft := s), {VoteRep(a.cand, dst, a, reply)})
    case VoteRep(_, from, a, reply) =>
      var counts := reply.granted && r.raft.currentTerm == a.term && r.raft.role == Candidate;
      (r.(votes := if counts then r.votes + {from} else r.votes, raft := AddCurrentTerm(r.raft, reply.term)), {})
    case LogReq(dst, a, next) =>
      var (s, reply) := RequestSendLog(r.raft, a);
      (r.(raft := s), {LogRep(a.leader, dst, a, next, reply)})
    case LogRep(_, from, a, next, reply) =>
      (r.(raft := LogReplyReceived(r.raft, from, a, next, reply)), {})
    case SnapReq(dst, a, next, matched) =>
      var (s, term, installed) := InstallSnapshot(r.raft, a);
      (r.(raft := s, kv := if installed then Restore(r.kv, a.data) else r.kv),
       {SnapRep(a.leader, dst, a, next, matched, term)})
    case SnapRep(_, from, a, next, matched, term) =>
      (r.(raft := SnapReplyReceived(r.raft, from, a, next, matched, term)), {})
  }

  /** The next committed entry reaches the service, which ignores indices it has seen. */
  function ApplyNext(r: Replica): Replica
    requires WellFormed(r.raft) && First(r.raft).index <= r.raft.lastApplied < Last(r.raft).index
  {
    var e := EntryAt(r.raft, r.raft.lastApplied + 1);
    r.(raft := r.raft.(lastApplied := e.index),
       kv := if e.index <= r.kvLast then r.kv else ApplyEntry(r.kv, e),
       kvLast := Max(r.kvLast, e.index))
  }

  function Restart(r: Replica): Replica
    requires WellFormed(r.raft) && (r.raft.disk.Saved? ==> |r.raft.disk.log| > 0)
  {
    var s := Boot(r.raft.me, |r.raft.nextIndex|, r.raft.disk);
    Replica(s, {}, Restore(INIT, s.snapshot), -1)
  }

  function Perform(c: Cluster, a: Action): Cluster
    requires Enabled(c, a)
  {
    match a
    case Timeout(i) =>
      var r := c.reps[i];
      var (s, args) := StartElection(r.raft);
      Put(c, i, r.(raft := s, votes := {i}), set j: nat | j < |c.reps| && j != i :: VoteReq(j, args))
    case WinElection(i) =>
      Put(c, i, c.reps[i].(raft := BecomeLeader(c.reps[i].raft)), {})
    case ClientStart(i, op) =>
      Put(c, i, c.reps[i].(raft := Start(c.reps[i].raft, op)), {})
    case SendLog(i, peer) =>
      var (s, args) := PrepareLog(c.reps[i].raft, peer);
      Put(c, i, c.reps[i].(raft := s), {LogReq(peer, args, s.nextIndex[peer])})
    case SendSnap(i, peer) =>
      var s := c.reps[i].raft;
      Put(c, i, c.reps[i], {SnapReq(peer, PrepareSnapshot(s), s.nextIndex[peer], s.matchIndex[peer])})
    case Deliver(p) =>
      var (r, out) := Receive(c.reps[p.dst], p);
      Put(c, p.dst, r, out)
    case Apply(i) =>
      Put(c, i, ApplyNext(c.reps[i]), {})
    case ServiceSnapshot(i) =>
      var r := c.reps[i];
      Put(c, i, r.(raft := TakeSnapshot(r.raft, r.raft.lastApplied, SnapshotOf(r.kv))), {})
    case Crash(i) =>
      Put(c, i, Restart(c.reps[i]), {})
  }

  ghost predicate Next(c: Cluster, c': Cluster) {
    exists a :: Enabled(c, a) && c' == Perform(c, a)
  }

  /** A run: any number of steps from the initial cluster of n servers. */
  ghost predicate IsRun(n: nat, cs: seq<Cluster>) {
    |cs| > 0 && cs[0] == Init(n) && forall k | 0 <= k < |cs| - 1 :: Next(cs[k], cs[k + 1])
  }
}
