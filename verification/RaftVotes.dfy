/** When votes are granted, and what the term in a reply is for. */
module RaftVotes {
  import opened RaftCluster
  import F = RaftFullLog
  import opened RaftFullLog
  import opened RaftRefinement
  import opened RaftSafety
  import opened RaftServer
  import opened RaftTypes

  // ---------- Exactly when ----------

  /** The server has voted for the candidate in the request's term already. */
  predicate Voted(r: Server, a: VoteArgs) {
    a.term == r.currentTerm && r.voteFor == a.cand
  }

  /** The server has not voted in the request's term, which is not over for it. */
  predicate Free(r: Server, a: VoteArgs) {
    a.term > r.currentTerm || (a.term == r.currentTerm && r.voteFor == NOBODY)
  }

  /** A request for which the log `sent` stands. */
  predicate SpeaksFor(a: VoteArgs, sent: seq<Entry>) {
    |sent| > 0 && a.lastIndex == |sent| - 1 && a.lastTerm == LastTerm(sent)
  }

  /** A vote is granted exactly when it was given to the same candidate before, or is still free and the
      candidate's full log is at least as up to date as the voter's. */
  lemma VoteIff(s: Sys, r: Server, log: seq<Entry>, a: VoteArgs, sent: seq<Entry>)
    requires View(r, log) && ValidLog(s, log) && SpeaksFor(a, sent)
    ensures RequestVote(r, a).1.granted <==> Voted(r, a) || (Free(r, a) && UpToDate(sent, log))
    ensures RequestVote(r, a).1.granted ==>
      RequestVote(r, a).0.voteFor == a.cand && RequestVote(r, a).0.currentTerm == a.term
  {
    ViewFacts(s, r, log);
  }

  /** The same for every request and every voter of a run; the candidate's log is the one it asked with. */
  lemma VotesDecided(cs: seq<Cluster>, ss: seq<Sys>, k: nat, p: Packet)
    requires Behind(cs, ss) && k < |cs| && p in cs[k].net && p.VoteReq?
    ensures At(cs, k, p.dst) && |ServerAt(cs, k, p.dst).log| > 0 && p.dst < |ss[k].nodes|
    ensures VotedFor(ss[k], p.vargs.cand, p.vargs.term, p.vargs.cand)
    ensures var r, a := ServerAt(cs, k, p.dst), p.vargs;
      var sent, log := ss[k].ballots[(a.cand, a.term)].log, ss[k].nodes[p.dst].log;
      && SpeaksFor(a, sent) && |log| > 0
      && (RequestVote(r, a).1.granted <==> Voted(r, a) || (Free(r, a) && UpToDate(sent, log)))
  {
    assert R(cs[k], ss[k]) && Inv(ss[k]) && PacketOk(ss[k], p);
    var a := p.vargs;
    assert MsgOk(ss[k], F.VoteReq(a.term, a.cand, a.lastIndex, a.lastTerm));
    FullLogAt(cs, ss, k, p.dst, k);
    VoteIff(ss[k], ServerAt(cs, k, p.dst), ss[k].nodes[p.dst].log, a, ss[k].ballots[(a.cand, a.term)].log);
  }

  // ---------- Somebody can always win ----------

  /** The server's request for votes of a term. */
  function AskFor(s: Server, t: int): VoteArgs
    requires |s.log| > 0
  {
    VoteArgs(t, s.me, Last(s).index, Last(s).term)
  }

  /** `s` would get the vote of `v` in every term that is new to `v`. */
  ghost predicate Convinces(s: Server, v: Server)
    requires |s.log| > 0 && |v.log| > 0
  {
    forall t | t > v.currentTerm :: RequestVote(v, AskFor(s, t)).1.granted
  }

  /** Of two servers at least one gets the other's vote. */
  lemma OneConvinces(s: Server, v: Server)
    requires |s.log| > 0 && |v.log| > 0
    ensures Convinces(s, v) || Convinces(v, s)
  {
  }

  lemma ConvincesTransitive(s: Server, v: Server, w: Server)
    requires |s.log| > 0 && |v.log| > 0 && |w.log| > 0 && Convinces(s, v) && Convinces(v, w)
    ensures Convinces(s, w)
  {
    assert RequestVote(v, AskFor(s, v.currentTerm + 1)).1.granted;
    assert RequestVote(w, AskFor(v, w.currentTerm + 1)).1.granted;
  }

  /** In every reachable cluster, among any servers there is one that gets the votes of all the others in
      every later term: elections cannot be deadlocked. */
  lemma {:induction false} SomeoneWins(n: nat, cs: seq<Cluster>, k: nat, q: set<nat>) returns (x: nat)
    requires IsRun(n, cs) && k < |cs| && q != {} && forall j | j in q :: j < |cs[k].reps|
    ensures x in q && Shape(cs[k])
    ensures forall j | j in q :: Convinces(ServerAt(cs, k, x), ServerAt(cs, k, j))
    decreases |q|
  {
    HandlersInRange(n, cs, k);
    var z :| z in q;
    var rest := q - {z};
    x := z;
    OneConvinces(ServerAt(cs, k, z), ServerAt(cs, k, z));
    if rest != {} {
      var y := SomeoneWins(n, cs, k, rest);
      OneConvinces(ServerAt(cs, k, z), ServerAt(cs, k, y));
      x := if Convinces(ServerAt(cs, k, z), ServerAt(cs, k, y)) then z else y;
      forall j | j in q ensures Convinces(ServerAt(cs, k, x), ServerAt(cs, k, j)) {
        if x == z && j != z {
          ConvincesTransitive(ServerAt(cs, k, z), ServerAt(cs, k, y), ServerAt(cs, k, j));
        }
      }
    } else {
      assert q == {z};
    }
  }

  // ---------- Stale requests ----------

  predicate IsRequest(p: Packet) {
    p.VoteReq? || p.LogReq? || p.SnapReq?
  }

  function TermOf(p: Packet): int
    requires IsRequest(p)
  {
    match p
    case VoteReq(_, a) => a.term
    case LogReq(_, a, _) => a.term
    case SnapReq(_, a, _, _) => a.term
  }

  function Requester(p: Packet): nat
    requires IsRequest(p)
  {
    match p
    case VoteReq(_, a) => a.cand
    case LogReq(_, a, _) => a.leader
    case SnapReq(_, a, _, _) => a.leader
  }

  ghost predicate Ready(r: Replica, n: nat) {
    WellFormed(r.raft) && First(r.raft).index <= r.raft.commitIndex && |r.raft.nextIndex| == n
  }

  /** A request of an earlier term changes nothing that matters, and its answer makes the sender, if it is
      still behind, a follower in the term it has missed. */
  lemma StaleStepsDown(r: Replica, p: Packet, sender: Replica, n: nat)
    requires Ready(r, n) && Ready(sender, n) && p.dst < n && PacketShape(p, n)
    requires IsRequest(p) && TermOf(p) < r.raft.currentTerm && sender.raft.currentTerm < r.raft.currentTerm
    ensures var (r', out) := Receive(r, p);
      && r' == r.(raft := r'.raft) && r'.raft == r.raft.(disk := r'.raft.disk)
      && exists reply :: out == {reply} && reply.dst == Requester(p) && !IsRequest(reply)
    ensures forall reply | reply in Receive(r, p).1 ::
      && PacketShape(reply, n)
      && var s' := Receive(sender, reply).0.raft;
      s'.role == Follower && s'.currentTerm == r.raft.currentTerm && s'.voteFor == NOBODY
  {
    var (r', out) := Receive(r, p);
    var reply :| reply in out;
    assert out == {reply};
  }

  // ---------- Roles ----------

  /** The request's entries all lie in the receiver's snapshot. */
  predicate Snapshotted(r: Server, a: LogArgs)
    requires |r.log| > 0
  {
    a.prevIndex < First(r).index && |a.entries| > 0 && a.entries[|a.entries| - 1].index <= First(r).index
  }

  /** A request of a later term makes any server a follower.  In its own term a candidate stays one exactly
      when it rejects the request or has all of it in its snapshot, and nobody else changes role. */
  lemma LogRequestRole(r: Server, a: LogArgs)
    requires WellFormed(r) && WellFormedArgs(a)
    ensures var (r', reply) := RequestSendLog(r, a);
      && (a.term > r.currentTerm ==> r'.role == Follower && r'.currentTerm == a.term)
      && (a.term < r.currentTerm ==> r' == r && !reply.success)
      && (a.term == r.currentTerm && r.role != Candidate ==> r'.role == r.role)
      && (a.term == r.currentTerm && r.role == Candidate ==>
            r'.role == (if !reply.success || Snapshotted(r, a) then Candidate else Follower))
  {
  }
}
