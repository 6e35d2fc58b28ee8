/** The small steps of Raft over full logs.  Each keeps the invariant of RaftFullLog.  A step that
    touches the history is split: what happens to the history, what happens to the acknowledged
    entries, and what the step itself adds; all else follows from the frame lemmas. */
module RaftFullSteps {
  import opened RaftTypes
  import opened RaftFullLog

  lemma LeaderLogsSame(s: Sys, s': Sys)
    requires LeaderLogs(s) && Grows(s, s') && s'.llog == s.llog && s'.elect == s.elect
    ensures LeaderLogs(s')
  {
    forall t | t in s'.llog ensures LeaderLogOk(s', t) {
      assert LeaderLogOk(s, t);
      ValidLogGrows(s, s', s.llog[t]);
      ValidLogGrows(s, s', s.elect[t].log);
    }
  }

  /** With no new acknowledgement or ballot, a server whose log only grows keeps its promises. */
  lemma AcksStayKept(s: Sys, s': Sys, i: nat)
    requires Inv(s) && Grows(s, s') && i < |s.nodes|
    requires s'.net == s.net && s'.ballots == s.ballots
    requires Prefix(s.nodes[i].log, s'.nodes[i].log)
    ensures NewAcksKept(s, s', i)
  {
    forall m, k: nat | m in s'.net && m.Ack? && m.from == i && k <= m.upTo && MsgOk(s', m)
      ensures KeptInLog(s', m, k)
    {
      assert MsgOk(s, m) && KeptInLog(s, m, k);
      KeptInLogGrows(s, s', m, k);
    }
  }

  /** Only server `i` changes, and its log does not lose anything. */
  lemma NodeStep(s: Sys, i: nat, x: Node, s': Sys)
    requires Inv(s) && i < |s.nodes| && s' == s.(nodes := s.nodes[i := x])
    requires s.nodes[i].term <= x.term
    requires s.nodes[i].term == x.term ==> x.vote == s.nodes[i].vote
    requires NodeOk(s', i)
    requires Prefix(s.nodes[i].log, x.log)
    ensures Inv(s') && Grows(s, s')
  {
    LeaderLogsSame(s, s');
    VoteUnchanged(s, s', i);
    AcksStayKept(s, s', i);
    InvGrows(s, s', i);
  }

  lemma VoteUnchanged(s: Sys, s': Sys, i: nat)
    requires Ballots(s) && i < |s.nodes| && i < |s'.nodes|
    requires s.nodes[i].term <= s'.nodes[i].term
    requires s.nodes[i].term == s'.nodes[i].term ==> s'.nodes[i].vote == s.nodes[i].vote
    ensures forall t | (i, t) in s.ballots && t == s'.nodes[i].term :: s'.nodes[i].vote == s.ballots[(i, t)].cand
  {
    forall t | (i, t) in s.ballots && t == s'.nodes[i].term ensures s'.nodes[i].vote == s.ballots[(i, t)].cand {
      assert BallotOk(s, i, t);
    }
  }

  /** A message is sent by server `i`. */
  lemma AddMsg(s: Sys, i: nat, a: Msg, s': Sys)
    requires Inv(s) && i < |s.nodes| && s' == s.(net := s.net + {a})
    requires MsgOk(s, a)
    requires a.Ack? ==> s.nodes[a.from].term == a.term && Same(s.llog[a.term], s.nodes[a.from].log, a.upTo + 1)
    ensures Inv(s') && Grows(s, s')
  {
    LeaderLogsSame(s, s');
    assert NodeOk(s, i);
    NodeGrows(s, s', i);
    MsgGrows(s, s', a);
    VoteUnchanged(s, s', i);
    forall m, k: nat | m in s'.net && m.Ack? && (m !in s.net || m.from == i) && k <= m.upTo && MsgOk(s', m)
      ensures KeptInLog(s', m, k)
    {
      if m in s.net {
        assert MsgOk(s, m) && KeptInLog(s, m, k);
        KeptInLogGrows(s, s', m, k);
      }
    }
    assert forall u | a.Ack? && Counts(s', a.from, u) :: BallotOk(s, a.from, u);
    InvGrows(s, s', i);
  }

  /** What a follower with an unchanged log needs. */
  lemma FollowerOk(s: Sys, i: nat, x: Node, s': Sys)
    requires Inv(s) && i < |s.nodes| && s' == s.(nodes := s.nodes[i := x])
    requires x.role == Follower && x.log == s.nodes[i].log && x.commit <= s.nodes[i].commit
    requires if s.nodes[i].term == x.term then x.vote == s.nodes[i].vote
             else s.nodes[i].term < x.term && x.vote == NOBODY
    ensures NodeOk(s', i)
  {
    var y := s.nodes[i];
    assert NodeOk(s, i);
    CommittedMoves(s, y.log, x.log, y.commit, x.commit, y.term, x.term);
    CommittedSame(s, s', x.log, x.commit, x.term);
    ValidLogGrows(s, s', x.log);
  }

  lemma CommittedSame(s: Sys, s': Sys, log: seq<Entry>, c: nat, hi: int)
    requires Committed(s, log, c, hi) && s'.net == s.net && s'.llog == s.llog && |s'.nodes| == |s.nodes|
    ensures Committed(s', log, c, hi)
  {
    if c > 0 {
      var t, k :| t <= hi && ChosenPrefix(s, log, c, t, k);
      var q :| AckedBy(s, q, t, k);
      forall v | v in q ensures Acked(s', v, t, k) {
        assert Acked(s, v, t, k);
      }
      assert AckedBy(s', q, t, k);
      assert ChosenPrefix(s', log, c, t, k);
    }
  }

  // ---------- Terms, crashes ----------

  function AdvanceTerm(s: Sys, i: nat, t: int): Sys
    requires i < |s.nodes|
  {
    s.(nodes := s.nodes[i := s.nodes[i].(term := t, vote := NOBODY, role := Follower)])
  }

  lemma AdvanceTermKeeps(s: Sys, i: nat, t: int)
    requires Inv(s) && i < |s.nodes| && s.nodes[i].term < t
    ensures Inv(AdvanceTerm(s, i, t)) && Grows(s, AdvanceTerm(s, i, t))
  {
    var s' := AdvanceTerm(s, i, t);
    FollowerOk(s, i, s'.nodes[i], s');
    NodeStep(s, i, s'.nodes[i], s');
  }

  /** Step down in the same term, possibly forgetting part of what was known to be committed:
      conversion to follower, and a crash followed by a restart. */
  function StepDown(s: Sys, i: nat, commit: nat): Sys
    requires i < |s.nodes|
  {
    s.(nodes := s.nodes[i := s.nodes[i].(role := Follower, commit := commit)])
  }

  lemma StepDownKeeps(s: Sys, i: nat, commit: nat)
    requires Inv(s) && i < |s.nodes| && commit <= s.nodes[i].commit
    ensures Inv(StepDown(s, i, commit)) && Grows(s, StepDown(s, i, commit))
  {
    var s' := StepDown(s, i, commit);
    FollowerOk(s, i, s'.nodes[i], s');
    NodeStep(s, i, s'.nodes[i], s');
  }

  // ---------- Elections ----------

  /** The state after server `i` casts its ballot of a term. */
  function CastBallot(s: Sys, i: nat, t: int, cand: nat, role: Role): Sys
    requires i < |s.nodes|
  {
    s.(nodes := s.nodes[i := s.nodes[i].(term := t, vote := cand, role := role)],
       ballots := s.ballots[(i, t) := Ballot(cand, s.nodes[i].log)])
  }

  ghost predicate MayCast(s: Sys, i: nat, t: int, cand: nat, role: Role) {
    && i < |s.nodes| && cand < |s.nodes| && (i, t) !in s.ballots
    && 1 <= t && s.nodes[i].term <= t && |s.nodes[i].log| > 0
    && (role == Follower || (role == Candidate && cand == i))
    && if cand == i then s.nodes[i].term < t
       else VotedFor(s, cand, t, cand) && |s.ballots[(cand, t)].log| > 0
            && UpToDate(s.ballots[(cand, t)].log, s.nodes[i].log)
  }

  lemma CastHistory(s: Sys, i: nat, t: int, cand: nat, role: Role, s': Sys)
    requires Inv(s) && MayCast(s, i, t, cand, role) && s' == CastBallot(s, i, t, cand, role)
    ensures Grows(s, s') && NewHistoryOk(s, s', i)
  {
    var x := s.nodes[i];
    assert NodeOk(s, i);
    LeaderLogsSame(s, s');
    ValidLogGrows(s, s', x.log);
    CommittedGrows(s, s', x.log, x.commit, x.term);
    CommittedMoves(s', x.log, x.log, x.commit, x.commit, x.term, t);
    if cand != i {
      assert BallotOk(s, cand, t);
      ValidLogGrows(s, s', s.ballots[(cand, t)].log);
    }
    assert BallotOk(s', i, t);
    if t in s.elect {
      assert ElectionOk(s, t);
    }
  }

  lemma CastAcks(s: Sys, i: nat, t: int, cand: nat, role: Role, s': Sys)
    requires Inv(s) && MayCast(s, i, t, cand, role) && s' == CastBallot(s, i, t, cand, role) && Grows(s, s')
    ensures NewAcksKept(s, s', i)
  {
    forall m, k: nat | m in s'.net && m.Ack? && m.from == i && k <= m.upTo && MsgOk(s', m)
      ensures KeptInLog(s', m, k)
    {
      assert MsgOk(s, m) && KeptInLog(s, m, k);
      KeptInLogGrows(s, s', m, k);
    }
    forall m, k: nat, u | m in s'.net && m.Ack? && k <= m.upTo && m.term < u && Counts(s', m.from, u)
                          && (m.from, u) !in s.ballots && MsgOk(s', m)
      ensures KeptInBallot(s', m, k, u)
    {
      assert MsgOk(s, m) && KeptInLog(s, m, k);
      assert (m.from, u) == (i, t);
      UndecidedTerm(s, s', i, t);
      if CarriedOver(s', m.term, k, u) {
        assert CarriedOver(s, m.term, k, s.nodes[i].term + 1);
      }
    }
  }

  /** A counting ballot that is new was cast in a term without a leader. */
  lemma UndecidedTerm(s: Sys, s': Sys, i: nat, t: int)
    requires Elections(s) && s'.elect == s.elect && (i, t) !in s.ballots && Counts(s', i, t)
    ensures t !in s.elect
  {
    assert t in s.elect ==> ElectionOk(s, t) && VotedFor(s, i, t, s.elect[t].leader);
  }

  lemma CastKeeps(s: Sys, i: nat, t: int, cand: nat, role: Role, s': Sys)
    requires Inv(s) && MayCast(s, i, t, cand, role) && s' == CastBallot(s, i, t, cand, role)
    ensures Inv(s') && Grows(s, s')
  {
    CastHistory(s, i, t, cand, role, s');
    CastAcks(s, i, t, cand, role, s');
    InvGrows(s, s', i);
  }

  function StartElection(s: Sys, i: nat): Sys
    requires i < |s.nodes| && |s.nodes[i].log| > 0
  {
    var x := s.nodes[i];
    var s1 := CastBallot(s, i, x.term + 1, i, Candidate);
    s1.(net := s1.net + {VoteReq(x.term + 1, i, |x.log| - 1, LastTerm(x.log))})
  }

  lemma StartElectionKeeps(s: Sys, i: nat)
    requires Inv(s) && i < |s.nodes| && |s.nodes[i].log| > 0
    ensures Inv(StartElection(s, i)) && Grows(s, StartElection(s, i))
  {
    var x := s.nodes[i];
    assert NodeOk(s, i);
    assert (i, x.term + 1) in s.ballots ==> BallotOk(s, i, x.term + 1);
    var s1 := CastBallot(s, i, x.term + 1, i, Candidate);
    CastKeeps(s, i, x.term + 1, i, Candidate, s1);
    AddMsg(s1, i, VoteReq(x.term + 1, i, |x.log| - 1, LastTerm(x.log)), StartElection(s, i));
    GrowsTransitive(s, s1, StartElection(s, i));
  }

  /** The vote check of a request against a log. */
  predicate RequestUpToDate(m: Msg, log: seq<Entry>)
    requires m.VoteReq? && |log| > 0
  {
    m.lastTerm > LastTerm(log) || (m.lastTerm == LastTerm(log) && m.lastIndex >= |log| - 1)
  }

  function Grant(s: Sys, i: nat, m: Msg): Sys
    requires i < |s.nodes| && m.VoteReq?
  {
    var s1 := CastBallot(s, i, m.term, m.cand, Follower);
    s1.(net := s1.net + {VoteRep(m.term, i, m.cand)})
  }

  lemma GrantKeeps(s: Sys, i: nat, m: Msg)
    requires Inv(s) && i < |s.nodes| && m in s.net && m.VoteReq? && m.cand != i
    requires s.nodes[i].term == m.term && s.nodes[i].vote == NOBODY && |s.nodes[i].log| > 0
    requires RequestUpToDate(m, s.nodes[i].log)
    ensures Inv(Grant(s, i, m)) && Grows(s, Grant(s, i, m))
  {
    assert NodeOk(s, i) && MsgOk(s, m);
    assert BallotOk(s, m.cand, m.term);
    assert (i, m.term) in s.ballots ==> BallotOk(s, i, m.term);
    var s1 := CastBallot(s, i, m.term, m.cand, Follower);
    CastKeeps(s, i, m.term, m.cand, Follower, s1);
    AddMsg(s1, i, VoteRep(m.term, i, m.cand), Grant(s, i, m));
    GrowsTransitive(s, s1, Grant(s, i, m));
  }

  /** Server `v`'s vote for `i` in `i`'s term is on record. */
  predicate HasVote(s: Sys, i: nat, v: nat)
    requires i < |s.nodes|
  {
    v == i || VoteRep(s.nodes[i].term, v, i) in s.net
  }

  function Crown(s: Sys, i: nat, q: set<nat>): Sys
    requires i < |s.nodes|
  {
    var x := s.nodes[i];
    s.(nodes := s.nodes[i := x.(role := Leader)],
       elect := s.elect[x.term := Election(i, x.log, q)],
       llog := s.llog[x.term := x.log])
  }

  function Win(s: Sys, i: nat, q: set<nat>): Sys
    requires i < |s.nodes| && |s.nodes[i].log| > 0
  {
    var x := s.nodes[i];
    var s1 := Crown(s, i, q);
    s1.(net := s1.net + {Ack(x.term, i, |x.log| - 1)})
  }

  /** A quorum of a term's votes names its leader. */
  lemma VotesNameLeader(s: Sys, t: int, i: nat, q: set<nat>)
    requires Elections(s) && t in s.elect && Quorum(q, |s.nodes|)
    requires forall v | v in q :: VotedFor(s, v, t, i)
    ensures s.elect[t].leader == i
  {
    assert ElectionOk(s, t);
    var v := QuorumsMeet(q, s.elect[t].voters, |s.nodes|);
    assert VotedFor(s, v, t, s.elect[t].leader);
  }

  /** Election Safety at the moment of winning: the term has no leader yet. */
  lemma FirstLeader(s: Sys, i: nat, q: set<nat>)
    requires Inv(s) && i < |s.nodes| && s.nodes[i].role == Candidate
    requires Quorum(q, |s.nodes|) && forall v | v in q :: HasVote(s, i, v)
    ensures s.nodes[i].term !in s.elect
    ensures forall v | v in q :: VotedFor(s, v, s.nodes[i].term, i)
  {
    var t := s.nodes[i].term;
    assert NodeOk(s, i);
    forall v | v in q ensures VotedFor(s, v, t, i) {
      assert HasVote(s, i, v);
      if v != i {
        assert MsgOk(s, VoteRep(t, v, i));
      }
    }
    if t in s.elect {
      VotesNameLeader(s, t, i, q);
    }
  }

  lemma CrownHistory(s: Sys, i: nat, q: set<nat>, s': Sys)
    requires Inv(s) && i < |s.nodes| && s.nodes[i].role == Candidate && s.nodes[i].term !in s.elect
    requires Quorum(q, |s.nodes|) && forall v | v in q :: VotedFor(s, v, s.nodes[i].term, i)
    requires s' == Crown(s, i, q)
    ensures Grows(s, s') && NewHistoryOk(s, s', i)
  {
    var x := s.nodes[i];
    assert NodeOk(s, i);
    assert BallotOk(s, i, x.term);
    assert Grows(s, s');
    forall t | t in s'.llog ensures LeaderLogOk(s', t) {
      ValidLogGrows(s, s', x.log);
      if t != x.term {
        assert LeaderLogOk(s, t);
        ValidLogGrows(s, s', s.llog[t]);
        ValidLogGrows(s, s', s.elect[t].log);
      }
    }
    forall v | v in q ensures VotedFor(s', v, x.term, i) {
      assert VotedFor(s, v, x.term, i);
    }
    CommittedGrows(s, s', x.log, x.commit, x.term);
    VoteUnchanged(s, s', i);
  }

  lemma CrownKeeps(s: Sys, i: nat, q: set<nat>, s': Sys)
    requires Inv(s) && i < |s.nodes| && s.nodes[i].role == Candidate && s.nodes[i].term !in s.elect
    requires Quorum(q, |s.nodes|) && forall v | v in q :: VotedFor(s, v, s.nodes[i].term, i)
    requires s' == Crown(s, i, q)
    ensures Inv(s') && Grows(s, s')
  {
    CrownHistory(s, i, q, s');
    AcksStayKept(s, s', i);
    InvGrows(s, s', i);
  }

  lemma WinKeeps(s: Sys, i: nat, q: set<nat>)
    requires Inv(s) && i < |s.nodes| && s.nodes[i].role == Candidate && |s.nodes[i].log| > 0
    requires Quorum(q, |s.nodes|) && forall v | v in q :: HasVote(s, i, v)
    ensures Inv(Win(s, i, q)) && Grows(s, Win(s, i, q))
  {
    FirstLeader(s, i, q);
    var s1, s' := Crown(s, i, q), Win(s, i, q);
    CrownKeeps(s, i, q, s1);
    AddMsg(s1, i, Ack(s.nodes[i].term, i, |s.nodes[i].log| - 1), s');
    GrowsTransitive(s, s1, s');
  }

  // ---------- Replication ----------

  function Extend(s: Sys, i: nat, d: Data): Sys
    requires i < |s.nodes|
  {
    var x := s.nodes[i];
    var log := x.log + [Entry(x.term, |x.log|, d)];
    s.(nodes := s.nodes[i := x.(log := log)], llog := s.llog[x.term := log])
  }

  function Append(s: Sys, i: nat, d: Data): Sys
    requires i < |s.nodes|
  {
    var s1 := Extend(s, i, d);
    s1.(net := s1.net + {Ack(s.nodes[i].term, i, |s.nodes[i].log|)})
  }

  lemma ExtendedLog(s: Sys, i: nat, d: Data, s': Sys)
    requires Inv(s) && i < |s.nodes| && s.nodes[i].role == Leader && d.Cmd? && s' == Extend(s, i, d)
    ensures Grows(s, s') && LeaderLogs(s')
  {
    var x := s.nodes[i];
    assert NodeOk(s, i);
    assert LeaderLogOk(s, x.term);
    assert Grows(s, s');
    forall t | t in s'.llog ensures LeaderLogOk(s', t) {
      assert LeaderLogOk(s, t);
      ValidLogGrows(s, s', s.llog[t]);
      ValidLogGrows(s, s', s.elect[t].log);
      if t == x.term {
        var log := s'.llog[t];
        forall j | 0 < j < |log| ensures IsCommand(log[j], j) && Created(s', log, j) {
          if j < |x.log| {
            assert Created(s', x.log, j);
          }
        }
      }
    }
  }

  lemma ExtendHistory(s: Sys, i: nat, d: Data, s': Sys)
    requires Inv(s) && i < |s.nodes| && s.nodes[i].role == Leader && d.Cmd? && s' == Extend(s, i, d)
    requires Grows(s, s') && LeaderLogs(s')
    ensures NewHistoryOk(s, s', i)
  {
    var x := s.nodes[i];
    assert NodeOk(s, i);
    assert LeaderLogOk(s', x.term);
    CommittedGrows(s, s', x.log, x.commit, x.term);
    CommittedMoves(s', x.log, s'.nodes[i].log, x.commit, x.commit, x.term, x.term);
    VoteUnchanged(s, s', i);
  }

  lemma ExtendKeeps(s: Sys, i: nat, d: Data, s': Sys)
    requires Inv(s) && i < |s.nodes| && s.nodes[i].role == Leader && d.Cmd? && s' == Extend(s, i, d)
    ensures Inv(s') && Grows(s, s')
  {
    ExtendedLog(s, i, d, s');
    ExtendHistory(s, i, d, s');
    AcksStayKept(s, s', i);
    InvGrows(s, s', i);
  }

  lemma AppendKeeps(s: Sys, i: nat, d: Data)
    requires Inv(s) && i < |s.nodes| && s.nodes[i].role == Leader && d.Cmd?
    ensures Inv(Append(s, i, d)) && Grows(s, Append(s, i, d))
  {
    var s1, s' := Extend(s, i, d), Append(s, i, d);
    ExtendKeeps(s, i, d, s1);
    assert NodeOk(s, i);
    AddMsg(s1, i, Ack(s.nodes[i].term, i, |s.nodes[i].log|), s');
    GrowsTransitive(s, s1, s');
  }

  /** A leader publishes a prefix of its log and how much of it is committed. */
  function Send(s: Sys, i: nat, k: nat, c: nat): Sys
    requires i < |s.nodes| && k <= |s.nodes[i].log|
  {
    s.(net := s.net + {LogMsg(s.nodes[i].term, s.nodes[i].log[..k], c)})
  }

  lemma SendKeeps(s: Sys, i: nat, k: nat, c: nat)
    requires Inv(s) && i < |s.nodes| && s.nodes[i].role == Leader
    requires c < k <= |s.nodes[i].log| && c <= s.nodes[i].commit
    ensures Inv(Send(s, i, k, c)) && Grows(s, Send(s, i, k, c))
  {
    var x := s.nodes[i];
    assert NodeOk(s, i);
    CommittedMoves(s, x.log, x.log[..k], x.commit, c, x.term, x.term);
    AddMsg(s, i, LogMsg(x.term, x.log[..k], c), Send(s, i, k, c));
  }

  /** A follower takes over the log of a message it does not already hold. */
  function Adopt(s: Sys, i: nat, m: Msg): Sys
    requires i < |s.nodes| && m.LogMsg?
  {
    s.(nodes := s.nodes[i := s.nodes[i].(log := m.log, role := Follower)])
  }

  /** Taking over the message's log loses nothing that the log and the leader's log share. */
  lemma AdoptKeepsPrefix(s: Sys, i: nat, m: Msg, k: nat, p: seq<Entry>)
    requires i < |s.nodes| && m.LogMsg? && MsgOk(s, m)
    requires !Prefix(m.log, s.nodes[i].log)
    requires Same(p, s.nodes[i].log, k + 1) && Same(p, s.llog[m.term], k + 1)
    ensures Same(p, m.log, k + 1)
  {
  }

  /** ... and so nothing that is committed. */
  lemma AdoptKeepsCommitted(s: Sys, i: nat, m: Msg)
    requires Inv(s) && i < |s.nodes| && m in s.net && m.LogMsg? && m.term == s.nodes[i].term
    requires !Prefix(m.log, s.nodes[i].log)
    ensures var x := s.nodes[i]; Same(x.log, m.log, x.commit + 1) && Committed(s, m.log, x.commit, x.term)
  {
    var x := s.nodes[i];
    assert NodeOk(s, i) && MsgOk(s, m);
    assert LeaderLogOk(s, m.term);
    if x.commit > 0 {
      var t, k :| t <= x.term && ChosenPrefix(s, x.log, x.commit, t, k);
      ChosenReaches(s, t, k, m.term);
    }
    AdoptKeepsPrefix(s, i, m, x.commit, x.log);
    CommittedMoves(s, x.log, m.log, x.commit, x.commit, x.term, x.term);
  }

  lemma MessageLogValid(s: Sys, m: Msg)
    requires LeaderLogs(s) && m.LogMsg? && MsgOk(s, m)
    ensures ValidLog(s, m.log) && TermsBelow(m.log, m.term + 1)
  {
    assert LeaderLogOk(s, m.term);
    forall j | 0 < j < |m.log| ensures IsCommand(m.log[j], j) && Created(s, m.log, j) {
      assert Created(s, s.llog[m.term], j);
    }
  }

  lemma AdoptHistory(s: Sys, i: nat, m: Msg, s': Sys)
    requires Inv(s) && i < |s.nodes| && m in s.net && m.LogMsg? && m.term == s.nodes[i].term
    requires !Prefix(m.log, s.nodes[i].log) && s' == Adopt(s, i, m)
    ensures Grows(s, s') && NewHistoryOk(s, s', i)
  {
    var x := s.nodes[i];
    assert NodeOk(s, i) && MsgOk(s, m);
    AdoptKeepsCommitted(s, i, m);
    MessageLogValid(s, m);
    LeaderLogsSame(s, s');
    ValidLogGrows(s, s', m.log);
    CommittedGrows(s, s', m.log, x.commit, x.term);
    VoteUnchanged(s, s', i);
  }

  lemma AdoptAcks(s: Sys, i: nat, m: Msg, s': Sys)
    requires Inv(s) && i < |s.nodes| && m in s.net && m.LogMsg? && m.term == s.nodes[i].term
    requires !Prefix(m.log, s.nodes[i].log) && s' == Adopt(s, i, m) && Grows(s, s')
    ensures NewAcksKept(s, s', i)
  {
    var x := s.nodes[i];
    assert MsgOk(s, m);
    assert LeaderLogOk(s, m.term);
    forall a, k: nat | a in s'.net && a.Ack? && a.from == i && k <= a.upTo && MsgOk(s', a)
      ensures KeptInLog(s', a, k)
    {
      assert MsgOk(s, a) && KeptInLog(s, a, k);
      if CarriedOver(s', a.term, k, x.term + 1) {
        CarriedBack(s, s', a.term, k, x.term + 1);
        assert Same(s.llog[a.term], s.llog[m.term], k + 1);
        AdoptKeepsPrefix(s, i, m, k, s.llog[a.term]);
      }
    }
  }

  lemma AdoptKeeps(s: Sys, i: nat, m: Msg)
    requires Inv(s) && i < |s.nodes| && m in s.net && m.LogMsg? && m.term == s.nodes[i].term
    requires !Prefix(m.log, s.nodes[i].log)
    ensures Inv(Adopt(s, i, m)) && Grows(s, Adopt(s, i, m))
  {
    var s' := Adopt(s, i, m);
    AdoptHistory(s, i, m, s');
    AdoptAcks(s, i, m, s');
    InvGrows(s, s', i);
  }

  /** A server that holds the whole log of a message of its term acknowledges it. */
  function Confirm(s: Sys, i: nat, m: Msg): Sys
    requires i < |s.nodes| && m.LogMsg? && |m.log| > 0
  {
    s.(net := s.net + {Ack(m.term, i, |m.log| - 1)})
  }

  lemma ConfirmKeeps(s: Sys, i: nat, m: Msg)
    requires Inv(s) && i < |s.nodes| && m in s.net && m.LogMsg? && |m.log| > 0 && m.term == s.nodes[i].term
    requires Prefix(m.log, s.nodes[i].log)
    ensures Inv(Confirm(s, i, m)) && Grows(s, Confirm(s, i, m))
  {
    assert MsgOk(s, m);
    AddMsg(s, i, Ack(m.term, i, |m.log| - 1), Confirm(s, i, m));
  }

  /** A server's commit index moves forward. */
  function CommitTo(s: Sys, i: nat, c: nat): Sys
    requires i < |s.nodes|
  {
    s.(nodes := s.nodes[i := s.nodes[i].(commit := c)])
  }

  lemma CommitKeeps(s: Sys, i: nat, c: nat)
    requires Inv(s) && i < |s.nodes| && c < |s.nodes[i].log|
    requires Committed(s, s.nodes[i].log, c, s.nodes[i].term)
    ensures Inv(CommitTo(s, i, c)) && Grows(s, CommitTo(s, i, c))
  {
    var s', x := CommitTo(s, i, c), s.nodes[i];
    assert NodeOk(s, i);
    CommittedGrows(s, s', x.log, c, x.term);
    ValidLogGrows(s, s', x.log);
    NodeStep(s, i, s'.nodes[i], s');
  }

  /** A follower learns from a message of its term how much of the shared log is committed. */
  lemma LearnCommitKeeps(s: Sys, i: nat, m: Msg, c: nat)
    requires Inv(s) && i < |s.nodes| && m in s.net && m.LogMsg? && m.term == s.nodes[i].term
    requires c <= m.commit && Same(m.log, s.nodes[i].log, c + 1)
    ensures Inv(CommitTo(s, i, c)) && Grows(s, CommitTo(s, i, c))
  {
    assert MsgOk(s, m);
    CommittedMoves(s, m.log, s.nodes[i].log, m.commit, c, m.term, m.term);
    CommitKeeps(s, i, c);
  }

  /** A leader commits an entry of its own term that a quorum stores. */
  lemma LeaderCommitKeeps(s: Sys, i: nat, k: nat, q: set<nat>)
    requires Inv(s) && i < |s.nodes| && s.nodes[i].role == Leader
    requires k < |s.nodes[i].log| && s.nodes[i].log[k].term == s.nodes[i].term
    requires AckedBy(s, q, s.nodes[i].term, k)
    ensures Inv(CommitTo(s, i, k)) && Grows(s, CommitTo(s, i, k))
  {
    assert NodeOk(s, i);
    var x := s.nodes[i];
    assert ChosenPrefix(s, x.log, k, x.term, k);
    CommitKeeps(s, i, k);
  }
}
