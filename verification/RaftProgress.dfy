/** Any majority can always serve the next command: from every reachable cluster, and with the servers
    outside a majority silent, the majority can elect a leader, bring its members' logs up to date, by
    entries or by snapshot, and commit and apply a command. */
module RaftProgress {
  import opened KvState
  import opened RaftCluster
  import opened RaftCommits
  import opened RaftFullLog
  import opened RaftRefinement
  import opened RaftRepair
  import opened RaftRuns
  import opened RaftSafety
  import opened RaftServer
  import opened RaftTypes
  import opened RaftVotes

  // ---------- Continuations ----------

  /** The server that performs the action. */
  function Actor(a: Action): nat {
    match a
    case Timeout(i) => i
    case WinElection(i) => i
    case ClientStart(i, _) => i
    case SendLog(i, _) => i
    case SendSnap(i, _) => i
    case Deliver(p) => p.dst
    case Apply(i) => i
    case ServiceSnapshot(i) => i
    case Crash(i) => i
  }

  ghost predicate NextBy(c: Cluster, c': Cluster, q: set<nat>) {
    exists a :: Enabled(c, a) && Actor(a) in q && !a.Crash? && c' == Perform(c, a)
  }

  ghost predicate IsPath(path: seq<Cluster>, q: set<nat>) {
    |path| > 0 && forall k {:trigger path[k + 1]} | 0 <= k < |path| - 1 :: NextBy(path[k], path[k + 1], q)
  }

  /** The servers of `q` alone, without a crash, can lead from `c` to `c'`. */
  ghost predicate Continues(c: Cluster, c': Cluster, q: set<nat>) {
    exists path :: IsPath(path, q) && path[0] == c && path[|path| - 1] == c'
  }

  /** A reachable cluster of n servers that the servers of `q` made out of `c0`. */
  ghost predicate On(n: nat, c0: Cluster, c: Cluster, q: set<nat>) {
    Reaches(n, c) && Shape(c) && |c.reps| == n && Continues(c0, c, q)
  }

  lemma Begin(n: nat, c: Cluster, q: set<nat>)
    requires Reaches(n, c)
    ensures On(n, c, c, q)
  {
    InShape(n, c);
    var path := [c];
    assert IsPath(path, q) && path[0] == c && path[|path| - 1] == c;
  }

  lemma Act(n: nat, c0: Cluster, c: Cluster, q: set<nat>, a: Action) returns (c': Cluster)
    requires On(n, c0, c, q) && Enabled(c, a) && Actor(a) in q && !a.Crash?
    ensures c' == Perform(c, a) && On(n, c0, c', q)
  {
    c' := Go(n, c, a);
    InShape(n, c');
    var path :| IsPath(path, q) && path[0] == c0 && path[|path| - 1] == c;
    var longer := path + [c'];
    assert NextBy(c, c', q);
    forall k {:trigger longer[k + 1]} | 0 <= k < |longer| - 1 ensures NextBy(longer[k], longer[k + 1], q) {
      if k < |path| - 1 {
        assert NextBy(path[k], path[k + 1], q);
      }
    }
    assert IsPath(longer, q) && longer[0] == c0 && longer[|longer| - 1] == c';
  }

  /** Delivers a packet that is on its way. */
  lemma Hand(n: nat, c0: Cluster, c: Cluster, q: set<nat>, p: Packet) returns (c': Cluster)
    requires On(n, c0, c, q) && p in c.net && p.dst in q
    ensures p.dst < n && PacketShape(p, n) && On(n, c0, c', q)
    ensures var (r, out) := Receive(c.reps[p.dst], p); c' == Put(c, p.dst, r, out)
  {
    InShape(n, c);
    assert Enabled(c, Deliver(p));
    c' := Act(n, c0, c, q, Deliver(p));
  }

  /** The full-log system behind a reachable cluster. */
  lemma BehindNow(n: nat, c: Cluster) returns (s: Sys)
    requires Reaches(n, c)
    ensures R(c, s) && Inv(s)
  {
    var cs :| IsRun(n, cs) && cs[|cs| - 1] == c;
    var ss := RunSimulated(n, cs);
    s := ss[|cs| - 1];
  }

  // ---------- Electing ----------

  function RaftOf(c: Cluster, i: nat): Server
    requires i < |c.reps|
  {
    c.reps[i].raft
  }

  predicate Members(q: set<nat>, n: nat) {
    forall j | j in q :: j < n
  }

  lemma {:induction false} HighestTerm(c: Cluster, q: set<nat>) returns (b: nat)
    requires q != {} && Members(q, |c.reps|)
    ensures b in q && forall j | j in q :: RaftOf(c, j).currentTerm <= RaftOf(c, b).currentTerm
    decreases |q|
  {
    var z :| z in q;
    b := z;
    var rest := q - {z};
    if rest != {} {
      var y := HighestTerm(c, rest);
      b := if RaftOf(c, y).currentTerm <= RaftOf(c, z).currentTerm then z else y;
      assert forall j | j in q :: j == z || j in rest;
    } else {
      assert q == {z};
    }
  }

  /** The server leads, and no member of `q` is ahead of it. */
  predicate Reigns(c: Cluster, q: set<nat>, x: nat) {
    && x < |c.reps| && x in q && Members(q, |c.reps|) && RaftOf(c, x).role == Leader
    && forall j | j in q :: RaftOf(c, j).currentTerm <= RaftOf(c, x).currentTerm
  }

  /** The log of `s` is at least as up to date as that of `v`. */
  predicate Newer(s: Server, v: Server) {
    && |s.log| > 0 && |v.log| > 0
    && (Last(s).term > Last(v).term || (Last(s).term == Last(v).term && Last(s).index >= Last(v).index))
  }

  predicate Newest(c: Cluster, q: set<nat>, x: nat) {
    x < |c.reps| && x in q && Members(q, |c.reps|) && forall j | j in q :: Newer(RaftOf(c, x), RaftOf(c, j))
  }

  lemma ConvincesNewer(s: Server, v: Server)
    requires |s.log| > 0 && |v.log| > 0 && Convinces(s, v)
    ensures Newer(s, v)
  {
    assert RequestVote(v, AskFor(s, v.currentTerm + 1)).1.granted;
  }

  /** Some member of `q` has a log that wins the votes of all members. */
  lemma FindNewest(n: nat, c: Cluster, q: set<nat>) returns (x: nat)
    requires Reaches(n, c) && |c.reps| == n && q != {} && Members(q, n)
    ensures Newest(c, q, x)
  {
    var cs :| IsRun(n, cs) && cs[|cs| - 1] == c;
    x := SomeoneWins(n, cs, |cs| - 1, q);
    forall j | j in q ensures Newer(RaftOf(c, x), RaftOf(c, j)) {
      assert ServerAt(cs, |cs| - 1, j) == RaftOf(c, j);
      ConvincesNewer(RaftOf(c, x), RaftOf(c, j));
    }
  }

  /** Logs are as they were. */
  predicate SameLogs(c: Cluster, c': Cluster) {
    |c'.reps| == |c.reps| && forall j: nat | j < |c.reps| :: RaftOf(c', j).log == RaftOf(c, j).log
  }

  lemma NewestStays(c: Cluster, c': Cluster, q: set<nat>, x: nat)
    requires Newest(c, q, x) && SameLogs(c, c')
    ensures Newest(c', q, x)
  {
  }

  function SnapFor(s: Server, j: nat): Packet
    requires |s.log| > 0 && j < |s.nextIndex| == |s.matchIndex|
  {
    SnapReq(j, PrepareSnapshot(s), s.nextIndex[j], s.matchIndex[j])
  }

  /** The leader after its snapshot has reached the peer and the reply is back. */
  function SnapAnswered(s: Server, j: nat, f: Server): Server
    requires WellFormed(s) && j < |s.nextIndex| && First(s).index <= s.commitIndex && WellFormed(f)
  {
    var a := PrepareSnapshot(s);
    SnapReplyReceived(s, j, a, s.nextIndex[j], s.matchIndex[j], InstallSnapshot(f, a).1)
  }

  /** Only the two servers have moved. */
  predicate Between(c: Cluster, c': Cluster, x: nat, j: nat) {
    |c'.reps| == |c.reps| && forall i: nat | i < |c.reps| && i != x && i != j :: c'.reps[i] == c.reps[i]
  }

  lemma SnapArrives(n: nat, c0: Cluster, c: Cluster, q: set<nat>, p: Packet) returns (c': Cluster)
    requires On(n, c0, c, q) && p in c.net && p.SnapReq? && p.dst in q
    ensures p.dst < n && On(n, c0, c', q)
    ensures |c'.reps| == n && forall i: nat | i < n && i != p.dst :: c'.reps[i] == c.reps[i]
    ensures var (f, term, installed) := InstallSnapshot(RaftOf(c, p.dst), p.sargs);
      && RaftOf(c', p.dst) == f
      && SnapRep(p.sargs.leader, p.dst, p.sargs, p.sentNext, p.sentMatch, term) in c'.net
  {
    c' := Hand(n, c0, c, q, p);
  }

  /** `x` sends its snapshot to `j`, and the reply comes back. */
  lemma SnapExchange(n: nat, c0: Cluster, c: Cluster, q: set<nat>, x: nat, j: nat) returns (c': Cluster)
    requires On(n, c0, c, q) && x in q && j in q && x < n && j < n && j != x && RaftOf(c, x).role == Leader
    ensures On(n, c0, c', q) && Between(c, c', x, j)
    ensures RaftOf(c', x) == SnapAnswered(RaftOf(c, x), j, RaftOf(c, j))
    ensures RaftOf(c', j) == InstallSnapshot(RaftOf(c, j), PrepareSnapshot(RaftOf(c, x))).0
  {
    var p := SnapFor(RaftOf(c, x), j);
    var asked := Act(n, c0, c, q, SendSnap(x, j));
    assert p in asked.net && asked.reps == c.reps;
    var told := SnapArrives(n, c0, asked, q, p);
    var term := InstallSnapshot(RaftOf(c, j), p.sargs).1;
    c' := Hand(n, c0, told, q, SnapRep(x, j, p.sargs, p.sentNext, p.sentMatch, term));
  }

  /** A leader that a member of `q` has overtaken hears of it and steps down. */
  lemma StepDown(n: nat, c0: Cluster, c: Cluster, q: set<nat>, x: nat, b: nat) returns (c': Cluster)
    requires On(n, c0, c, q) && x in q && b in q && Members(q, n) && RaftOf(c, x).role == Leader
    requires RaftOf(c, x).currentTerm < RaftOf(c, b).currentTerm
    ensures On(n, c0, c', q) && SameLogs(c, c') && RaftOf(c', x).role == Follower
  {
    c' := SnapExchange(n, c0, c, q, x, b);
    assert InstallSnapshot(RaftOf(c, b), PrepareSnapshot(RaftOf(c, x))).0 == Persist(RaftOf(c, b));
  }

  /** `x` asks for votes in term `t`; those of `done` are in, and the others will give theirs. */
  ghost predicate Campaigns(c: Cluster, q: set<nat>, x: nat, t: int, a: VoteArgs, done: set<nat>) {
    && Newest(c, q, x) && RaftOf(c, x).role == Candidate && RaftOf(c, x).currentTerm == t
    && a == VoteArgs(t, x, Last(RaftOf(c, x)).index, Last(RaftOf(c, x)).term)
    && x in done && done <= c.reps[x].votes
    && (forall j | j in q :: RaftOf(c, j).currentTerm <= t)
    && forall j | j in q && j !in done :: Packet.VoteReq(j, a) in c.net && RaftOf(c, j).currentTerm < t
  }

  /** One more election: `x` asks in the next term. */
  lemma Ask(n: nat, c0: Cluster, c: Cluster, q: set<nat>, x: nat) returns (c': Cluster)
    requires On(n, c0, c, q) && x in q && x < n && RaftOf(c, x).role != Leader
    ensures On(n, c0, c', q) && c'.reps == c.reps[x := c.reps[x].(raft := StartElection(RaftOf(c, x)).0, votes := {x})]
    ensures forall j: nat | j < n && j != x :: Packet.VoteReq(j, StartElection(RaftOf(c, x)).1) in c'.net
  {
    c' := Act(n, c0, c, q, Timeout(x));
  }

  lemma Asked(c: Cluster, c': Cluster, q: set<nat>, x: nat)
    requires Newest(c, q, x) && Newest(c', q, x)
    requires c'.reps == c.reps[x := c.reps[x].(raft := StartElection(RaftOf(c, x)).0, votes := {x})]
    requires RaftOf(c, x).me == x && forall j | j in q :: RaftOf(c, j).currentTerm <= RaftOf(c, x).currentTerm
    requires forall j: nat | j < |c.reps| && j != x :: Packet.VoteReq(j, StartElection(RaftOf(c, x)).1) in c'.net
    ensures Campaigns(c', q, x, RaftOf(c', x).currentTerm, StartElection(RaftOf(c, x)).1, {x})
  {
  }

  /** `x` starts elections until its term is new to every member of `q`. */
  lemma {:induction false} Campaign(n: nat, c0: Cluster, c: Cluster, q: set<nat>, x: nat, top: int)
    returns (c': Cluster, t: int, a: VoteArgs)
    requires On(n, c0, c, q) && Newest(c, q, x) && RaftOf(c, x).role != Leader && RaftOf(c, x).currentTerm <= top
    requires forall j | j in q :: RaftOf(c, j).currentTerm <= top
    ensures On(n, c0, c', q) && SameLogs(c, c') && Campaigns(c', q, x, t, a, {x})
    decreases top - RaftOf(c, x).currentTerm
  {
    var next := Ask(n, c0, c, q, x);
    NewestStays(c, next, q, x);
    if RaftOf(next, x).currentTerm <= top {
      c', t, a := Campaign(n, c0, next, q, x, top);
    } else {
      c', t, a := next, RaftOf(next, x).currentTerm, StartElection(RaftOf(c, x)).1;
      Asked(c, next, q, x);
    }
  }

  /** The vote that a server gives to a newer candidate. */
  lemma GivesVote(v: Server, a: VoteArgs)
    requires |v.log| > 0 && v.currentTerm < a.term
    requires a.lastTerm > Last(v).term || (a.lastTerm == Last(v).term && a.lastIndex >= Last(v).index)
    ensures RequestVote(v, a).1 == VoteReply(v.currentTerm, true)
    ensures RequestVote(v, a).0.currentTerm == a.term && RequestVote(v, a).0.log == v.log
  {
  }

  /** The vote of `j` goes to the candidate and is counted. */
  lemma VoteOf(n: nat, c0: Cluster, c: Cluster, q: set<nat>, x: nat, j: nat, a: VoteArgs) returns (c': Cluster)
    requires On(n, c0, c, q) && x in q && x < n && j in q && j < n && j != x && Packet.VoteReq(j, a) in c.net
    requires RaftOf(c, x).role == Candidate && RaftOf(c, x).currentTerm == a.term && a.cand == x
    requires |RaftOf(c, j).log| > 0 && RequestVote(RaftOf(c, j), a).1 == VoteReply(RaftOf(c, j).currentTerm, true)
    requires RaftOf(c, j).currentTerm < a.term
    ensures On(n, c0, c', q) && c.net <= c'.net
    ensures c'.reps == c.reps[j := c.reps[j].(raft := RequestVote(RaftOf(c, j), a).0)]
                             [x := c.reps[x].(votes := c.reps[x].votes + {j})]
  {
    var voted := Hand(n, c0, c, q, Packet.VoteReq(j, a));
    var p := Packet.VoteRep(x, j, a, RequestVote(RaftOf(c, j), a).1);
    assert p in voted.net;
    c' := Hand(n, c0, voted, q, p);
  }

  lemma CampaignNext(c: Cluster, c': Cluster, q: set<nat>, x: nat, t: int, a: VoteArgs, done: set<nat>, j: nat)
    requires Campaigns(c, q, x, t, a, done) && j in q && j !in done && c.net <= c'.net
    requires RequestVote(RaftOf(c, j), a).0.currentTerm == t && RequestVote(RaftOf(c, j), a).0.log == RaftOf(c, j).log
    requires c'.reps == c.reps[j := c.reps[j].(raft := RequestVote(RaftOf(c, j), a).0)]
                              [x := c.reps[x].(votes := c.reps[x].votes + {j})]
    ensures Campaigns(c', q, x, t, a, done + {j}) && SameLogs(c, c')
  {
    assert SameLogs(c, c');
    NewestStays(c, c', q, x);
  }

  lemma CollectOne(
    n: nat, c0: Cluster, c: Cluster, q: set<nat>, x: nat, t: int, a: VoteArgs, done: set<nat>, j: nat)
    returns (c': Cluster)
    requires On(n, c0, c, q) && Campaigns(c, q, x, t, a, done) && j in q && j !in done
    ensures On(n, c0, c', q) && SameLogs(c, c') && Campaigns(c', q, x, t, a, done + {j})
  {
    assert Newer(RaftOf(c, x), RaftOf(c, j));
    GivesVote(RaftOf(c, j), a);
    c' := VoteOf(n, c0, c, q, x, j, a);
    CampaignNext(c, c', q, x, t, a, done, j);
  }

  /** The votes of the other members come in. */
  lemma {:induction false} Collect(
    n: nat, c0: Cluster, c: Cluster, q: set<nat>, x: nat, t: int, a: VoteArgs, done: set<nat>) returns (c': Cluster)
    requires On(n, c0, c, q) && Campaigns(c, q, x, t, a, done) && done <= q
    ensures On(n, c0, c', q) && SameLogs(c, c') && Campaigns(c', q, x, t, a, q)
    decreases q - done
  {
    var rest := q - done;
    if rest == {} {
      assert done == q;
      c' := c;
    } else {
      var j :| j in rest;
      var next := CollectOne(n, c0, c, q, x, t, a, done, j);
      c' := Collect(n, c0, next, q, x, t, a, done + {j});
    }
  }

  /** A candidate with the votes of a majority wins. */
  lemma Win(n: nat, c0: Cluster, c: Cluster, q: set<nat>, x: nat, t: int, a: VoteArgs) returns (c': Cluster)
    requires On(n, c0, c, q) && Quorum(q, n) && Campaigns(c, q, x, t, a, q)
    ensures On(n, c0, c', q) && SameLogs(c, c') && Reigns(c', q, x)
  {
    Subset(q, c.reps[x].votes);
    c' := Act(n, c0, c, q, WinElection(x));
    assert c'.reps == c.reps[x := c.reps[x].(raft := BecomeLeader(RaftOf(c, x)))];
  }

  /** A majority can elect the member with the newest log. */
  lemma Elect(n: nat, c0: Cluster, c: Cluster, q: set<nat>, x: nat) returns (c': Cluster)
    requires On(n, c0, c, q) && Quorum(q, n) && Newest(c, q, x) && RaftOf(c, x).role != Leader
    ensures On(n, c0, c', q) && SameLogs(c, c') && Reigns(c', q, x)
  {
    var b := HighestTerm(c, q);
    var asked, t, a := Campaign(n, c0, c, q, x, RaftOf(c, b).currentTerm);
    var voted := Collect(n, c0, asked, q, x, t, a, {x});
    c' := Win(n, c0, voted, q, x, t, a);
  }

  lemma QuorumMembers(q: set<nat>, n: nat)
    requires Quorum(q, n)
    ensures q != {} && Members(q, n)
  {
  }

  lemma Overtaken(c: Cluster, q: set<nat>, x: nat) returns (b: nat)
    requires x < |c.reps| && x in q && Members(q, |c.reps|) && RaftOf(c, x).role == Leader && !Reigns(c, q, x)
    ensures b in q && RaftOf(c, b).currentTerm > RaftOf(c, x).currentTerm
  {
    b :| b in q && RaftOf(c, b).currentTerm > RaftOf(c, x).currentTerm;
  }

  /** From every reachable cluster a majority can have a leader that none of its members is ahead of. */
  lemma GetLeader(n: nat, c: Cluster, q: set<nat>) returns (c': Cluster, x: nat)
    requires Reaches(n, c) && Quorum(q, n)
    ensures On(n, c, c', q) && SameLogs(c, c') && Reigns(c', q, x)
  {
    Begin(n, c, q);
    QuorumMembers(q, n);
    x := FindNewest(n, c, q);
    c' := c;
    if !Reigns(c, q, x) {
      var down := c;
      if RaftOf(c, x).role == Leader {
        var b := Overtaken(c, q, x);
        down := StepDown(n, c, c, q, x, b);
      }
      NewestStays(c, down, q, x);
      c' := Elect(n, c, down, q, x);
    }
  }

  // ---------- Bringing a member up to date ----------

  /** An exchange with peer `j` leaves a leader its term and its log, and everything it knows. */
  predicate Keeps(s: Server, s': Server, j: nat) {
    && s'.me == s.me && s'.role == s.role == Leader && s'.currentTerm == s.currentTerm && s'.log == s.log
    && s'.commitIndex >= s.commitIndex && |s'.nextIndex| == |s.nextIndex| == |s.matchIndex| == |s'.matchIndex|
    && (forall i: nat | i < |s.nextIndex| && i != j ::
          s'.nextIndex[i] == s.nextIndex[i] && s'.matchIndex[i] == s.matchIndex[i])
    && (j < |s.matchIndex| ==> s'.matchIndex[j] >= s.matchIndex[j])
  }

  lemma AcceptedKeeps(s: Server, j: nat, f: Server)
    requires Repairing(s, j) && !NeedsSnapshot(s, j) && Follows(s, f) && Attempt(s, j, f).1
    ensures Keeps(s, Attempt(s, j, f).0, j)
    ensures s.nextIndex[j] <= Last(s).index && First(s).index < Last(s).index ==>
      Attempt(s, j, f).0.matchIndex[j] >= Last(s).index
  {
    CanAttempt(s, j);
    var (s1, a) := PrepareLog(s, j);
    RejectionTerm(f, a);
    if |a.entries| > 0 {
      var e := a.entries[|a.entries| - 1];
      assert e == Last(s);
      ScanLeavesNothing(s1.(matchIndex := s1.matchIndex[j := Max(s1.matchIndex[j], e.index)],
                            nextIndex := s1.nextIndex[j := Max(s1.nextIndex[j], e.index + 1)]));
    }
  }

  /** `x` sends its log to `j`, and the reply comes back; if it was accepted, `j` knows what `x` knew. */
  lemma LogExchange(n: nat, c0: Cluster, c: Cluster, q: set<nat>, x: nat, j: nat) returns (c': Cluster, ok: bool)
    requires On(n, c0, c, q) && Reigns(c, q, x) && j in q && j != x
    requires Repairing(RaftOf(c, x), j) && !NeedsSnapshot(RaftOf(c, x), j)
    ensures On(n, c0, c', q) && Between(c, c', x, j) && Follows(RaftOf(c, x), RaftOf(c, j))
    ensures (RaftOf(c', x), ok) == Attempt(RaftOf(c, x), j, RaftOf(c, j))
    ensures RaftOf(c', j).currentTerm == RaftOf(c, x).currentTerm
    ensures ok ==> RaftOf(c', j).commitIndex >= RaftOf(c, x).commitIndex
  {
    var s, f := RaftOf(c, x), RaftOf(c, j);
    CanAttempt(s, j);
    var (s1, a) := PrepareLog(s, j);
    var p := LogReq(j, a, s1.nextIndex[j]);
    var sent := Act(n, c0, c, q, SendLog(x, j));
    Learns(n, sent, p);
    var got := Hand(n, c0, sent, q, p);
    var reply := RequestSendLog(f, a).1;
    var r := LogRep(x, j, a, s1.nextIndex[j], reply);
    assert r in got.net;
    c' := Hand(n, c0, got, q, r);
    ok := reply.success;
    AnswerTerm(f, a);
  }

  lemma AnswerTerm(f: Server, a: LogArgs)
    requires WellFormed(f) && WellFormedArgs(a) && f.currentTerm <= a.term
    ensures RequestSendLog(f, a).0.currentTerm == a.term
  {
  }

  lemma Learns(n: nat, c: Cluster, p: Packet)
    requires Reaches(n, c) && |c.reps| == n && p in c.net && p.LogReq?
    ensures p.dst < n && WellFormed(RaftOf(c, p.dst)) && WellFormedArgs(p.largs)
    ensures var (f, reply) := RequestSendLog(RaftOf(c, p.dst), p.largs);
      reply.success ==> f.commitIndex >= p.largs.leaderCommit
  {
    var s := BehindNow(n, c);
    assert PacketOk(s, p) && RepOk(c.reps[p.dst], s, p.dst);
    var log :| Carries(s, p.largs, log);
    ServerLearns(RaftOf(c, p.dst), s, p.dst, p.largs, log);
  }

  /** After the snapshot the leader is about to send the log above it. */
  lemma SnapKeeps(s: Server, j: nat, f: Server)
    requires Repairing(s, j) && NeedsSnapshot(s, j) && Follows(s, f)
    ensures var s1 := SnapAnswered(s, j, f);
      Repairing(s1, j) && !NeedsSnapshot(s1, j) && Keeps(s, s1, j) && s1.nextIndex[j] == First(s).index + 1
  {
    var a := PrepareSnapshot(s);
    var matched := Max(s.matchIndex[j], a.lastIndex);
    ScanLeavesNothing(s.(nextIndex := s.nextIndex[j := a.lastIndex + 1], matchIndex := s.matchIndex[j := matched]));
  }

  /** The peer's log agrees with the snapshot at its last entry, or starts above it. */
  predicate Covered(f: Server, index: int, term: int) {
    && WellFormed(f) && index <= Last(f).index
    && (index > First(f).index ==> EntryAt(f, index).term == term)
  }

  lemma SnapCovers(f: Server, a: SnapArgs)
    requires WellFormed(f) && a.term >= f.currentTerm && a.lastIndex >= 0
    ensures Covered(InstallSnapshot(f, a).0, a.lastIndex, a.lastTerm)
    ensures InstallSnapshot(f, a).0.currentTerm == a.term && InstallSnapshot(f, a).1 == f.currentTerm
  {
  }

  lemma CoveredAccepts(f: Server, a: LogArgs)
    requires WellFormedArgs(a) && Covered(f, a.prevIndex, a.prevTerm) && f.currentTerm == a.term
    ensures RequestSendLog(f, a).1.success
  {
  }

  /** ... and gets it accepted. */
  lemma SnapThenLog(s: Server, j: nat, f: Server)
    requires Repairing(s, j) && !NeedsSnapshot(s, j) && s.nextIndex[j] == First(s).index + 1
    requires Covered(f, First(s).index, First(s).term) && f.currentTerm == s.currentTerm
    ensures Attempt(s, j, f).1
  {
    CanAttempt(s, j);
    CoveredAccepts(f, PrepareLog(s, j).1);
  }

  /** `j` has accepted a request of the leader `x`, which is where it was. */
  predicate Synced(c: Cluster, c': Cluster, q: set<nat>, x: nat, j: nat) {
    && Reigns(c', q, x) && x < |c.reps| && j < |c.reps| && Between(c, c', x, j) && |RaftOf(c, x).log| > 0
    && Keeps(RaftOf(c, x), RaftOf(c', x), j) && RaftOf(c', j).commitIndex >= RaftOf(c, x).commitIndex
    && j < |RaftOf(c, x).nextIndex|
    && var s := RaftOf(c, x);
    (s.nextIndex[j] <= Last(s).index && First(s).index < Last(s).index ==>
        RaftOf(c', x).matchIndex[j] >= Last(s).index)
  }

  lemma CanRepair(n: nat, c: Cluster, x: nat, j: nat)
    requires Reaches(n, c) && |c.reps| == n && x < n && j < n && j != x && RaftOf(c, x).role == Leader
    ensures Repairing(RaftOf(c, x), j)
  {
    var cs :| IsRun(n, cs) && cs[|cs| - 1] == c;
    assert ServerAt(cs, |cs| - 1, x) == RaftOf(c, x);
    LeadersRepair(n, cs, |cs| - 1, x, j);
  }

  /** A request that is accepted. */
  lemma SyncNow(n: nat, c0: Cluster, c: Cluster, q: set<nat>, x: nat, j: nat) returns (c': Cluster)
    requires On(n, c0, c, q) && Reigns(c, q, x) && j in q && j != x
    requires Repairing(RaftOf(c, x), j) && !NeedsSnapshot(RaftOf(c, x), j) && Follows(RaftOf(c, x), RaftOf(c, j))
    requires Attempt(RaftOf(c, x), j, RaftOf(c, j)).1
    ensures On(n, c0, c', q) && Synced(c, c', q, x, j)
  {
    var ok;
    c', ok := LogExchange(n, c0, c, q, x, j);
    AcceptedKeeps(RaftOf(c, x), j, RaftOf(c, j));
  }

  /** What a first exchange and a synchronization after it amount to. */
  lemma SyncedAfter(c: Cluster, c1: Cluster, c': Cluster, q: set<nat>, x: nat, j: nat)
    requires x < |c.reps| && j < |c.reps| && Between(c, c1, x, j) && |RaftOf(c, x).log| > 0
    requires Keeps(RaftOf(c, x), RaftOf(c1, x), j) && Synced(c1, c', q, x, j)
    requires var s := RaftOf(c, x);
      s.nextIndex[j] <= Last(s).index && First(s).index < Last(s).index ==> RaftOf(c1, x).nextIndex[j] <= Last(s).index
    ensures Synced(c, c', q, x, j)
  {
  }

  lemma SnapFirst(n: nat, c0: Cluster, c: Cluster, q: set<nat>, x: nat, j: nat) returns (c': Cluster)
    requires On(n, c0, c, q) && Reigns(c, q, x) && j in q && j != x
    requires Repairing(RaftOf(c, x), j) && NeedsSnapshot(RaftOf(c, x), j)
    ensures On(n, c0, c', q) && Reigns(c', q, x) && Between(c, c', x, j) && Keeps(RaftOf(c, x), RaftOf(c', x), j)
    ensures Repairing(RaftOf(c', x), j) && !NeedsSnapshot(RaftOf(c', x), j)
    ensures var s, f := RaftOf(c', x), RaftOf(c', j);
      && s.nextIndex[j] == First(s).index + 1
      && Covered(f, First(s).index, First(s).term) && f.currentTerm == s.currentTerm
  {
    c' := SnapExchange(n, c0, c, q, x, j);
    SnapKeeps(RaftOf(c, x), j, RaftOf(c, j));
    SnapCovers(RaftOf(c, j), PrepareSnapshot(RaftOf(c, x)));
  }

  /** First the snapshot, then the log above it. */
  lemma SyncBySnapshot(n: nat, c0: Cluster, c: Cluster, q: set<nat>, x: nat, j: nat) returns (c': Cluster)
    requires On(n, c0, c, q) && Reigns(c, q, x) && j in q && j != x
    requires Repairing(RaftOf(c, x), j) && NeedsSnapshot(RaftOf(c, x), j)
    ensures On(n, c0, c', q) && Synced(c, c', q, x, j)
  {
    var c1 := SnapFirst(n, c0, c, q, x, j);
    SnapThenLog(RaftOf(c1, x), j, RaftOf(c1, j));
    c' := SyncNow(n, c0, c1, q, x, j);
    SyncedAfter(c, c1, c', q, x, j);
  }

  /** Term by term, or by snapshot, the leader can always get its log accepted. */
  lemma {:induction false} Sync(n: nat, c0: Cluster, c: Cluster, q: set<nat>, x: nat, j: nat) returns (c': Cluster)
    requires On(n, c0, c, q) && Reigns(c, q, x) && j in q && j != x && Repairing(RaftOf(c, x), j)
    ensures On(n, c0, c', q) && Synced(c, c', q, x, j)
    decreases RaftOf(c, x).nextIndex[j]
  {
    var s, f := RaftOf(c, x), RaftOf(c, j);
    if NeedsSnapshot(s, j) {
      c' := SyncBySnapshot(n, c0, c, q, x, j);
    } else if Attempt(s, j, f).1 {
      c' := SyncNow(n, c0, c, q, x, j);
    } else {
      var c1, ok := LogExchange(n, c0, c, q, x, j);
      RejectionsCost(s, j, f);
      c' := Sync(n, c0, c1, q, x, j);
      SyncedAfter(c, c1, c', q, x, j);
    }
  }

  // ---------- Serving a command ----------

  /** The leader `x` holds the command at the end of its log; the members outside `rest` have it too, and the
      others are to be sent it. */
  ghost predicate Spreads(c: Cluster, q: set<nat>, x: nat, log: seq<Entry>, rest: set<nat>) {
    && Reigns(c, q, x) && RaftOf(c, x).log == log && |log| > 1 && log[0].index < log[|log| - 1].index
    && log[|log| - 1].term == RaftOf(c, x).currentTerm
    && |RaftOf(c, x).nextIndex| == |RaftOf(c, x).matchIndex| == |c.reps|
    && x !in rest && rest <= q
    && (forall j | j in q && j !in rest :: RaftOf(c, x).matchIndex[j] >= log[|log| - 1].index)
    && (forall j | j in rest :: RaftOf(c, x).nextIndex[j] <= log[|log| - 1].index)
  }

  /** The leader counts itself. */
  lemma MatchesItself(n: nat, c: Cluster, x: nat)
    requires Reaches(n, c) && n != 1 && |c.reps| == n && x < n && RaftOf(c, x).role == Leader
    ensures WellFormed(RaftOf(c, x)) && RaftOf(c, x).me == x
    ensures RaftOf(c, x).matchIndex[x] == Last(RaftOf(c, x)).index && NothingRipe(RaftOf(c, x))
  {
    InShape(n, c);
    var cs :| IsRun(n, cs) && cs[|cs| - 1] == c;
    assert ServerAt(cs, |cs| - 1, x) == RaftOf(c, x);
    LeadersCommit(n, cs, |cs| - 1, x);
  }

  lemma Commanded(n: nat, c0: Cluster, c: Cluster, q: set<nat>, x: nat, op: Op) returns (c': Cluster)
    requires On(n, c0, c, q) && n != 1 && Reigns(c, q, x)
    ensures On(n, c0, c', q) && Between(c, c', x, x) && RaftOf(c', x).log == Start(RaftOf(c, x), op).log
    ensures Spreads(c', q, x, RaftOf(c', x).log, q - {x})
  {
    c' := Act(n, c0, c, q, ClientStart(x, op));
    assert RaftOf(c', x) == Start(RaftOf(c, x), op);
    MatchesItself(n, c', x);
    forall j | j in q && j != x ensures RaftOf(c', x).nextIndex[j] <= Last(RaftOf(c', x)).index {
      CanRepair(n, c, x, j);
    }
  }

  lemma SpreadsNext(c: Cluster, c': Cluster, q: set<nat>, x: nat, log: seq<Entry>, rest: set<nat>, j: nat)
    requires Spreads(c, q, x, log, rest) && j in rest && Synced(c, c', q, x, j)
    ensures Spreads(c', q, x, log, rest - {j})
  {
  }

  /** Every member gets the command. */
  lemma {:induction false} Spread(
    n: nat, c0: Cluster, c: Cluster, q: set<nat>, x: nat, log: seq<Entry>, rest: set<nat>) returns (c': Cluster)
    requires On(n, c0, c, q) && Spreads(c, q, x, log, rest)
    ensures On(n, c0, c', q) && Spreads(c', q, x, log, {})
    decreases rest
  {
    if rest == {} {
      c' := c;
    } else {
      var j :| j in rest;
      CanRepair(n, c, x, j);
      var next := Sync(n, c0, c, q, x, j);
      SpreadsNext(c, next, q, x, log, rest, j);
      c' := Spread(n, c0, next, q, x, log, rest - {j});
    }
  }

  /** Then the leader has committed it. */
  lemma SpreadCommits(n: nat, c: Cluster, q: set<nat>, x: nat, log: seq<Entry>)
    requires Reaches(n, c) && n != 1 && |c.reps| == n && Quorum(q, n) && Spreads(c, q, x, log, {})
    ensures RaftOf(c, x).commitIndex >= log[|log| - 1].index
  {
    MatchesItself(n, c, x);
    var s, k := RaftOf(c, x), log[|log| - 1].index;
    Subset(q, Matching(s, k));
    assert Majority(s, k) && EntryAt(s, k) == log[|log| - 1];
    assert s.commitIndex < k ==> Ripe(s, k);
  }

  /** The leader knows that its log is committed, and so do the members outside `rest`. */
  ghost predicate Spoken(c: Cluster, q: set<nat>, x: nat, log: seq<Entry>, k: int, rest: set<nat>) {
    && Reigns(c, q, x) && RaftOf(c, x).log == log && rest <= q && x !in rest
    && forall j | j in q && j !in rest :: RaftOf(c, j).commitIndex >= k
  }

  lemma SpokenNext(c: Cluster, c': Cluster, q: set<nat>, x: nat, log: seq<Entry>, k: int, rest: set<nat>, j: nat)
    requires Spoken(c, q, x, log, k, rest) && j in rest && Synced(c, c', q, x, j)
    ensures Spoken(c', q, x, log, k, rest - {j})
  {
    assert RaftOf(c, x).commitIndex >= k;
  }

  /** Every member hears that the command is committed. */
  lemma {:induction false} Speak(
    n: nat, c0: Cluster, c: Cluster, q: set<nat>, x: nat, log: seq<Entry>, k: int, rest: set<nat>)
    returns (c': Cluster)
    requires On(n, c0, c, q) && Spoken(c, q, x, log, k, rest)
    ensures On(n, c0, c', q) && Spoken(c', q, x, log, k, {})
    decreases rest
  {
    if rest == {} {
      c' := c;
    } else {
      var j :| j in rest;
      CanRepair(n, c, x, j);
      var next := Sync(n, c0, c, q, x, j);
      SpokenNext(c, next, q, x, log, k, rest, j);
      c' := Speak(n, c0, next, q, x, log, k, rest - {j});
    }
  }

  // ---------- Applying it ----------

  /** Nothing but what is applied has changed. */
  predicate Applies(c: Cluster, c': Cluster) {
    && |c'.reps| == |c.reps|
    && forall j: nat | j < |c.reps| ::
      && RaftOf(c', j) == RaftOf(c, j).(lastApplied := RaftOf(c', j).lastApplied)
      && RaftOf(c', j).lastApplied >= RaftOf(c, j).lastApplied
  }

  lemma {:induction false} ApplyTo(n: nat, c0: Cluster, c: Cluster, q: set<nat>, j: nat, k: int) returns (c': Cluster)
    requires On(n, c0, c, q) && j in q && j < n && RaftOf(c, j).commitIndex >= k
    ensures On(n, c0, c', q) && Applies(c, c') && RaftOf(c', j).lastApplied >= k
    decreases k - RaftOf(c, j).lastApplied
  {
    if RaftOf(c, j).lastApplied >= k {
      c' := c;
    } else {
      var next := Act(n, c0, c, q, Apply(j));
      c' := ApplyTo(n, c0, next, q, j, k);
    }
  }

  lemma {:induction false} ApplyAll(n: nat, c0: Cluster, c: Cluster, q: set<nat>, k: int, rest: set<nat>)
    returns (c': Cluster)
    requires On(n, c0, c, q) && Members(q, n) && rest <= q
    requires forall j | j in q :: RaftOf(c, j).commitIndex >= k && (j !in rest ==> RaftOf(c, j).lastApplied >= k)
    ensures On(n, c0, c', q) && Applies(c, c') && forall j | j in q :: RaftOf(c', j).lastApplied >= k
    decreases rest
  {
    if rest == {} {
      c' := c;
    } else {
      var j :| j in rest;
      var next := ApplyTo(n, c0, c, q, j, k);
      c' := ApplyAll(n, c0, next, q, k, rest - {j});
    }
  }

  /** A request that was applied stays recorded. */
  lemma {:induction false} AppliedIsStale(log: seq<Entry>, k: nat, m: nat, op: Op)
    requires 0 < k <= m < |log| && log[k].data == Cmd(op)
    ensures Stale(ReplayTo(log, m), op)
    decreases m
  {
    if k < m {
      AppliedIsStale(log, k, m - 1, op);
    }
  }

  /** What the leader holds at a committed index is what every server that has applied so far has executed. */
  lemma ServedAt(s: Sys, r: Replica, x: nat, t: Replica, j: nat, k: int, op: Op)
    requires Inv(s) && RepOk(r, s, x) && RepOk(t, s, j)
    requires Holds(r.raft, k) && EntryAt(r.raft, k).data == Cmd(op)
    requires k <= r.raft.commitIndex && k <= t.raft.lastApplied
    ensures Stale(t.kv, op)
  {
    ServerShape(r.raft, s, x);
    ServerShape(t.raft, s, j);
    assert NodeOk(s, x) && NodeOk(s, j);
    var a, b := s.nodes[x], s.nodes[j];
    var hi := Max(a.term, b.term);
    CommittedMoves(s, a.log, a.log, a.commit, a.commit, a.term, hi);
    CommittedMoves(s, b.log, b.log, b.commit, b.commit, b.term, hi);
    CommittedAgree(s, a.log, a.commit, b.log, b.commit, hi, k);
    AppliedIsStale(b.log, k, t.raft.lastApplied, op);
  }

  // ---------- The theorem ----------

  /** Server `x` has put the command at the next index of the log it had in `c`, and every member of `q` has
      applied it: each knows the request as executed or overtaken. */
  predicate Served(c: Cluster, c': Cluster, q: set<nat>, x: nat, op: Op) {
    && x in q && x < |c.reps| == |c'.reps| && Members(q, |c.reps|) && |RaftOf(c, x).log| > 0
    && var k := Last(RaftOf(c, x)).index + 1;
    && Holds(RaftOf(c', x), k) && EntryAt(RaftOf(c', x), k).data == Cmd(op)
    && forall j | j in q :: RaftOf(c', j).lastApplied >= k && Stale(c'.reps[j].kv, op)
  }

  /** The leader's command reaches every member, and every member learns that it is committed. */
  lemma Replicate(n: nat, c0: Cluster, c: Cluster, q: set<nat>, x: nat, op: Op) returns (c': Cluster)
    requires On(n, c0, c, q) && n != 1 && Quorum(q, n) && Reigns(c, q, x)
    ensures On(n, c0, c', q) && RaftOf(c', x).log == Start(RaftOf(c, x), op).log
    ensures forall j | j in q :: RaftOf(c', j).commitIndex >= Last(RaftOf(c, x)).index + 1
  {
    var given := Commanded(n, c0, c, q, x, op);
    var log := RaftOf(given, x).log;
    var k := log[|log| - 1].index;
    var spread := Spread(n, c0, given, q, x, log, q - {x});
    SpreadCommits(n, spread, q, x, log);
    c' := Speak(n, c0, spread, q, x, log, k, q - {x});
  }

  /** A committed command that the members have applied is served. */
  lemma ServedNow(n: nat, c: Cluster, c': Cluster, q: set<nat>, x: nat, op: Op)
    requires Reaches(n, c') && x in q && x < |c.reps| == |c'.reps| && Members(q, |c.reps|) && |RaftOf(c, x).log| > 0
    requires var k := Last(RaftOf(c, x)).index + 1;
      && Holds(RaftOf(c', x), k) && EntryAt(RaftOf(c', x), k).data == Cmd(op) && RaftOf(c', x).commitIndex >= k
      && forall j | j in q :: RaftOf(c', j).lastApplied >= k
    ensures Served(c, c', q, x, op)
  {
    var s := BehindNow(n, c');
    var k := Last(RaftOf(c, x)).index + 1;
    forall j | j in q ensures Stale(c'.reps[j].kv, op) {
      assert RepOk(c'.reps[x], s, x) && RepOk(c'.reps[j], s, j);
      ServedAt(s, c'.reps[x], x, c'.reps[j], j, k, op);
    }
  }

  /** From every reachable cluster, with the other servers silent, a majority can serve a command. */
  lemma CanServe(n: nat, c: Cluster, q: set<nat>, op: Op) returns (c': Cluster, x: nat)
    requires Reaches(n, c) && n != 1 && Quorum(q, n)
    ensures Continues(c, c', q) && Served(c, c', q, x, op)
  {
    var led;
    led, x := GetLeader(n, c, q);
    var told := Replicate(n, c, led, q, x, op);
    c' := ApplyAll(n, c, told, q, Last(RaftOf(c, x)).index + 1, q);
    HoldsCommand(RaftOf(led, x), RaftOf(c', x), op);
    ServedNow(n, c, c', q, x, op);
  }

  lemma HoldsCommand(s: Server, s': Server, op: Op)
    requires WellFormed(s) && s.role == Leader && s'.log == Start(s, op).log
    ensures var k := Last(s).index + 1; Holds(s', k) && EntryAt(s', k).data == Cmd(op)
  {
  }

  /** A majority of the cluster can serve any command at any time. */
  ghost predicate AlwaysServes(n: nat) {
    forall c, q, op | Reaches(n, c) && Quorum(q, n) :: CanBeServed(c, q, op)
  }

  ghost predicate CanBeServed(c: Cluster, q: set<nat>, op: Op) {
    exists c', x: nat :: Continues(c, c', q) && Served(c, c', q, x, op)
  }

  lemma NextReaches(n: nat, c: Cluster, c': Cluster, q: set<nat>)
    requires Reaches(n, c) && NextBy(c, c', q)
    ensures Reaches(n, c')
  {
    var a :| Enabled(c, a) && c' == Perform(c, a);
    var reached := Go(n, c, a);
  }

  lemma {:induction false} PathReaches(n: nat, path: seq<Cluster>, q: set<nat>, k: nat)
    requires IsPath(path, q) && Reaches(n, path[0]) && k < |path|
    ensures Reaches(n, path[k])
  {
    if k > 0 {
      PathReaches(n, path, q, k - 1);
      var j := k - 1;
      assert NextBy(path[j], path[j + 1], q);
      NextReaches(n, path[j], path[k], q);
    }
  }

  lemma LoneServesNothing(c': Cluster, x: nat, op: Op)
    requires Continues(Init(1), c', {0})
    ensures !Served(Init(1), c', {0}, x, op)
  {
    var path :| IsPath(path, {0}) && path[0] == Init(1) && path[|path| - 1] == c';
    ReachesInit(1);
    PathReaches(1, path, {0}, |path| - 1);
    InShape(1, c');
    var cs :| IsRun(1, cs) && cs[|cs| - 1] == c';
    LoneNeverCommits(cs, |cs| - 1);
  }

  /** Exactly the cluster of one server cannot: it never commits. */
  lemma AlwaysServesIff(n: nat)
    ensures AlwaysServes(n) <==> n != 1
  {
    if n == 1 {
      ReachesInit(1);
      var q: set<nat>, op := {0}, Op(OpGet, "", "", 0, 0);
      forall c', x: nat | Continues(Init(1), c', q) ensures !Served(Init(1), c', q, x, op) {
        LoneServesNothing(c', x, op);
      }
      assert |q| == 1;
      assert Quorum(q, 1) && !CanBeServed(Init(1), q, op);
    } else {
      forall c, q, op | Reaches(n, c) && Quorum(q, n) ensures CanBeServed(c, q, op) {
        var c', x := CanServe(n, c, q, op);
      }
    }
  }
}
