/** Runs of a cluster of two in which tempting properties of the indices fail. */
module RaftExamples {
  import opened KvState
  import opened RaftCluster
  import opened RaftRepair
  import opened RaftRuns
  import opened RaftServer
  import opened RaftTypes

  // ---------- A cluster of two ----------

  /** A reachable cluster of two servers in the given states. */
  ghost predicate Two(c: Cluster, s: Server, v: Server) {
    Reaches(2, c) && |c.reps| == 2 && c.reps[0].raft == s && c.reps[1].raft == v
  }

  /** Both servers are in the shape their handlers expect. */
  predicate Fit(s: Server, v: Server) {
    && WellFormed(s) && s.me == 0 && |s.nextIndex| == 2 && First(s).index <= s.commitIndex
    && WellFormed(v) && v.me == 1 && |v.nextIndex| == 2 && First(v).index <= v.commitIndex
    && (s.disk.Saved? ==> |s.disk.log| > 0)
  }

  lemma TwoFit(c: Cluster, s: Server, v: Server)
    requires Two(c, s, v)
    ensures Shape(c) && Fit(s, v) && forall p | p in c.net :: Enabled(c, Deliver(p))
  {
    InShape(2, c);
  }

  lemma Arrive(c: Cluster, s: Server, v: Server, p: Packet) returns (c': Cluster)
    requires Two(c, s, v) && p in c.net
    ensures Shape(c) && p.dst < 2 && PacketShape(p, 2)
    ensures Reaches(2, c') && c' == Put(c, p.dst, Receive(c.reps[p.dst], p).0, Receive(c.reps[p.dst], p).1)
  {
    TwoFit(c, s, v);
    c' := Go(2, c, Deliver(p));
  }

  /** Server 0 asks for votes. */
  lemma Ask(c: Cluster, s: Server, v: Server) returns (c': Cluster)
    requires Two(c, s, v) && Fit(s, v) && s.role != Leader
    ensures Two(c', StartElection(s).0, v) && c'.reps[0].votes == {0} && VoteReq(1, StartElection(s).1) in c'.net
  {
    TwoFit(c, s, v);
    c' := Go(2, c, Timeout(0));
  }

  /** The log of server 0 is at least as long and as new as that of server 1. */
  predicate Ahead(s: Server, v: Server)
    requires |s.log| > 0 && |v.log| > 0
  {
    v.currentTerm <= s.currentTerm && Last(s).term >= Last(v).term && Last(s).index >= Last(v).index
  }

  lemma VoteGranted(s: Server, v: Server)
    requires Fit(s, v) && Ahead(s, v)
    ensures RequestVote(v, StartElection(s).1).1 == VoteReply(v.currentTerm, true)
  {
  }

  /** Server 1 grants its vote, and server 0 wins. */
  lemma Elect(c: Cluster, s: Server, v: Server) returns (c': Cluster)
    requires Two(c, s, v) && Fit(s, v) && s.role != Leader && Ahead(s, v)
    ensures Two(c', BecomeLeader(StartElection(s).0), RequestVote(v, StartElection(s).1).0)
  {
    var (s1, args) := StartElection(s);
    VoteGranted(s, v);
    var (v1, reply) := RequestVote(v, args);
    var asked := Ask(c, s, v);
    var voted := Arrive(asked, s1, v, VoteReq(1, args));
    assert Two(voted, s1, v1);
    var counted := Arrive(voted, s1, v1, VoteRep(0, 1, args, reply));
    assert counted.reps[0].votes == {0, 1};
    assert Two(counted, s1, v1);
    TwoFit(counted, s1, v1);
    c' := Go(2, counted, WinElection(0));
  }

  /** Server 0 sends its log to server 1, which answers. */
  lemma Exchange(c: Cluster, s: Server, v: Server) returns (c': Cluster, p: Packet)
    requires Two(c, s, v) && Fit(s, v) && CanSend(s, 1)
    ensures WellFormedArgs(PrepareLog(s, 1).1)
    ensures var (s', a) := PrepareLog(s, 1);
      && Two(c', s', RequestSendLog(v, a).0) && p in c'.net && c.net <= c'.net
      && p == LogRep(0, 1, a, s'.nextIndex[1], RequestSendLog(v, a).1)
  {
    var (s', a) := PrepareLog(s, 1);
    TwoFit(c, s, v);
    var sent := Go(2, c, SendLog(0, 1));
    assert Two(sent, s', v);
    c' := Arrive(sent, s', v, LogReq(1, a, s'.nextIndex[1]));
    p := LogRep(0, 1, a, s'.nextIndex[1], RequestSendLog(v, a).1);
  }

  /** The answer reaches server 0. */
  lemma Answer(c: Cluster, s: Server, v: Server, p: Packet) returns (c': Cluster)
    requires Two(c, s, v) && Fit(s, v) && p in c.net && p.LogRep? && p.dst == 0 && p.from == 1
    ensures Two(c', LogReplyReceived(s, 1, p.largs, p.sentNext, p.lreply), v) && c.net <= c'.net
  {
    c' := Arrive(c, s, v, p);
  }

  /** A client gives server 0 a command. */
  lemma Order(c: Cluster, s: Server, v: Server) returns (c': Cluster)
    requires Two(c, s, v) && Fit(s, v)
    ensures Two(c', Start(s, OP), v) && Enabled(c, ClientStart(0, OP)) && c' == Perform(c, ClientStart(0, OP))
  {
    TwoFit(c, s, v);
    c' := Go(2, c, ClientStart(0, OP));
  }

  /** Server 0 crashes and restarts. */
  lemma Restarts(c: Cluster, s: Server, v: Server) returns (c': Cluster)
    requires Two(c, s, v) && Fit(s, v)
    ensures Two(c', Boot(0, 2, s.disk), v) && Enabled(c, Crash(0)) && c' == Perform(c, Crash(0))
  {
    TwoFit(c, s, v);
    c' := Go(2, c, Crash(0));
  }

  // ---------- The states passed through ----------

  const OP := Op(OpGet, "x", "", 0, 0)

  const LOG := [DUMMY, Entry(1, 1, Cmd(OP))]

  /** Server 0, saved, with nothing snapshotted. */
  function Zero(term: int, log: seq<Entry>, commit: int, next: seq<int>, matched: seq<int>): Server {
    Server(0, term, 0, Leader, log, NoSnapshot, commit, 0, next, matched, Saved(term, 0, log, NoSnapshot))
  }

  /** Server 1, which has voted for server 0. */
  function One(term: int, log: seq<Entry>): Server {
    Server(1, term, 0, Follower, log, NoSnapshot, 0, 0, [1, 1], [0, 0], Saved(term, 0, log, NoSnapshot))
  }

  lemma FirstElection()
    ensures var s, v := Boot(0, 2, Blank), Boot(1, 2, Blank);
      && Fit(s, v) && Ahead(s, v) && s.role != Leader
      && BecomeLeader(StartElection(s).0) == Zero(1, [DUMMY], 0, [1, 1], [0, 0])
      && RequestVote(v, StartElection(s).1).0 == One(1, [DUMMY])
  {
    var s, v := Boot(0, 2, Blank), Boot(1, 2, Blank);
    assert s.nextIndex == [1, 1] && s.matchIndex == [0, 0];
    assert v.nextIndex == [1, 1] && v.matchIndex == [0, 0];
    var s' := BecomeLeader(StartElection(s).0);
    assert s'.nextIndex == [1, 1] && s'.matchIndex == [0, 0];
  }

  lemma SecondElection()
    ensures var s, v := Boot(0, 2, Saved(1, 0, LOG, NoSnapshot)), One(1, [DUMMY]);
      && Fit(s, v) && Ahead(s, v) && s.role != Leader
      && BecomeLeader(StartElection(s).0) == Zero(2, LOG, 0, [2, 2], [1, 0])
      && RequestVote(v, StartElection(s).1).0 == One(2, [DUMMY])
  {
    var s, v := Boot(0, 2, Saved(1, 0, LOG, NoSnapshot)), One(1, [DUMMY]);
    var s' := BecomeLeader(StartElection(s).0);
    assert s'.nextIndex == [2, 2] && s'.matchIndex == [1, 0];
  }

  /** The request that carries the command. */
  function Carry(term: int): LogArgs {
    LogArgs(term, 0, 0, -1, LOG[1..], 0)
  }

  lemma Accepted(term: int)
    requires term >= 1
    ensures var s, v := Zero(term, LOG, 0, [term, 1], [1, 0]), One(term, [DUMMY]);
      && Fit(s, v) && CanSend(s, 1) && PrepareLog(s, 1) == (s, Carry(term)) && WellFormedArgs(Carry(term))
      && RequestSendLog(v, Carry(term)) == (One(term, LOG), LogReply(term, true))
  {
    var s := Zero(term, LOG, 0, [term, 1], [1, 0]);
    assert s.nextIndex[1 := 1] == s.nextIndex;
    assert [DUMMY][..1] + LOG[1..] == LOG;
  }

  /** The leader once it has been accepted: only an entry of its own term is committed. */
  lemma Taken(term: int)
    requires term >= 1
    ensures Fit(Zero(term, LOG, 0, [term, 1], [1, 0]), One(term, LOG))
    ensures LogReplyReceived(Zero(term, LOG, 0, [term, 1], [1, 0]), 1, Carry(term), 1, LogReply(term, true))
         == Zero(term, LOG, if term == 1 then 1 else 0, [term, 2], [1, 1])
  {
    var s := Zero(term, LOG, 0, [term, 1], [1, 0]);
    var s1 := s.(matchIndex := [1, 1], nextIndex := [term, 2]);
    assert s.matchIndex[1 := 1] == [1, 1] && s.nextIndex[1 := 2] == [term, 2];
    assert Matching(s1, 1) == {0, 1};
    var commit := if term == 1 then 1 else 0;
    assert EntryAt(s1, 1).term == 1;
    assert ScanCommit(s1, 1, 0) == ScanCommit(s1, 2, commit) == commit;
  }

  /** A request that the empty log rejects, and the leader after the rejection. */
  lemma Refused()
    ensures var s, v := Zero(2, LOG, 0, [2, 2], [1, 0]), One(2, [DUMMY]);
      var a := LogArgs(2, 0, 1, 1, [], 0);
      && Fit(s, v) && CanSend(s, 1) && PrepareLog(s, 1) == (s, a) && WellFormedArgs(a)
      && RequestSendLog(v, a) == (v, LogReply(2, false))
      && LogReplyReceived(s, 1, a, 2, LogReply(2, false)) == Zero(2, LOG, 0, [2, 1], [1, 0])
  {
    var s := Zero(2, LOG, 0, [2, 2], [1, 0]);
    assert s.nextIndex[1 := 2] == s.nextIndex;
    assert LOG[2..] == [];
    assert TermStart(s, 1) == 1;
  }

  // ---------- Runs ----------

  /** Server 0 leads term 1. */
  lemma FirstTerm() returns (c: Cluster)
    ensures Two(c, Zero(1, [DUMMY], 0, [1, 1], [0, 0]), One(1, [DUMMY]))
  {
    ReachesInit(2);
    FirstElection();
    c := Elect(Init(2), Boot(0, 2, Blank), Boot(1, 2, Blank));
  }

  /** ... and is given a command. */
  lemma OneCommand() returns (c: Cluster)
    ensures Two(c, Zero(1, LOG, 0, [1, 1], [1, 0]), One(1, [DUMMY]))
  {
    var first := FirstTerm();
    c := Order(first, Zero(1, [DUMMY], 0, [1, 1], [0, 0]), One(1, [DUMMY]));
  }

  /** The first command given to a leader makes its own next and match indices meet. */
  lemma OwnIndicesMeet() returns (c: Cluster, c': Cluster)
    ensures Reaches(2, c) && Enabled(c, ClientStart(0, OP)) && c' == Perform(c, ClientStart(0, OP))
    ensures Two(c, Zero(1, [DUMMY], 0, [1, 1], [0, 0]), One(1, [DUMMY]))
    ensures Two(c', Zero(1, LOG, 0, [1, 1], [1, 0]), One(1, [DUMMY]))
  {
    c := FirstTerm();
    c' := Order(c, Zero(1, [DUMMY], 0, [1, 1], [0, 0]), One(1, [DUMMY]));
  }

  /** A restart forgets what was known to be committed. */
  lemma CommitIndexFallsInRun() returns (c: Cluster, c': Cluster)
    ensures Reaches(2, c) && Enabled(c, Crash(0)) && c' == Perform(c, Crash(0))
    ensures Two(c, Zero(1, LOG, 1, [1, 2], [1, 1]), One(1, LOG))
    ensures |c'.reps| == 2 && c'.reps[0].raft.commitIndex == 0
  {
    var s, v := Zero(1, LOG, 0, [1, 1], [1, 0]), One(1, [DUMMY]);
    var one := OneCommand();
    Accepted(1);
    Taken(1);
    var sent, p := Exchange(one, s, v);
    c := Answer(sent, s, One(1, LOG), p);
    c' := Restarts(c, Zero(1, LOG, 1, [1, 2], [1, 1]), One(1, LOG));
  }

  // ---------- A rejection that arrives late ----------

  /** Server 0 restarts with its command and leads term 2. */
  lemma SecondTerm() returns (c: Cluster)
    ensures Two(c, Zero(2, LOG, 0, [2, 2], [1, 0]), One(2, [DUMMY]))
  {
    var one := OneCommand();
    var down := Restarts(one, Zero(1, LOG, 0, [1, 1], [1, 0]), One(1, [DUMMY]));
    SecondElection();
    c := Elect(down, Boot(0, 2, Saved(1, 0, LOG, NoSnapshot)), One(1, [DUMMY]));
  }

  const REJECTION := LogRep(0, 1, LogArgs(2, 0, 1, 1, [], 0), 2, LogReply(2, false))

  /** Server 1 rejects its first request, the leader backs off and repairs it; the rejection may arrive
      again. */
  lemma RepairedAfterRejection() returns (c: Cluster)
    ensures Two(c, Zero(2, LOG, 0, [2, 2], [1, 1]), One(2, LOG)) && REJECTION in c.net
  {
    var again := SecondTerm();
    Refused();
    var refused, p := Exchange(again, Zero(2, LOG, 0, [2, 2], [1, 0]), One(2, [DUMMY]));
    var back := Answer(refused, Zero(2, LOG, 0, [2, 2], [1, 0]), One(2, [DUMMY]), p);
    Accepted(2);
    Taken(2);
    var sent, q := Exchange(back, Zero(2, LOG, 0, [2, 1], [1, 0]), One(2, [DUMMY]));
    c := Answer(sent, Zero(2, LOG, 0, [2, 1], [1, 0]), One(2, LOG), q);
  }

  /** ... and then puts the next index back to what is already matched. */
  lemma StaleRejectionInRun() returns (c: Cluster, c': Cluster)
    ensures Reaches(2, c) && Enabled(c, Deliver(REJECTION)) && c' == Perform(c, Deliver(REJECTION))
    ensures Two(c, Zero(2, LOG, 0, [2, 2], [1, 1]), One(2, LOG))
    ensures Two(c', Zero(2, LOG, 0, [2, 1], [1, 1]), One(2, LOG))
  {
    c := RepairedAfterRejection();
    var s := Zero(2, LOG, 0, [2, 2], [1, 1]);
    TwoFit(c, s, One(2, LOG));
    assert TermStart(s, 1) == 1;
    c' := Arrive(c, s, One(2, LOG), REJECTION);
  }
}
