/** Raft over full logs, with the history that shows it is safe. */
module RaftFullLog {
  import opened RaftTypes

  // The history records who won each term and with which log, the log the leader of each term ever
  // held, and the log each voter held when it voted.  RaftRefinement maps the steps of the code onto
  // the steps of this protocol.

  datatype Node = Node(term: int, vote: int, role: Role, log: seq<Entry>, commit: nat)

  datatype Msg =
    | VoteReq(term: int, cand: nat, lastIndex: int, lastTerm: int)
    | VoteRep(term: int, voter: nat, cand: nat)
    | LogMsg(term: int, log: seq<Entry>, commit: nat)
    | Ack(term: int, from: nat, upTo: nat)

  datatype Election = Election(leader: nat, log: seq<Entry>, voters: set<nat>)

  datatype Ballot = Ballot(cand: nat, log: seq<Entry>)

  /** `elect`, `llog` and `ballots` are history: no step's guard reads them. */
  datatype Sys = Sys(
    nodes: seq<Node>,
    net: set<Msg>,
    elect: map<int, Election>,
    llog: map<int, seq<Entry>>,
    ballots: map<(nat, int), Ballot>)

  // ---------- Invariant ----------

  /** Every entry above the dummy is a command that the leader of its term created, with that
      leader's log below it. */
  ghost predicate ValidLog(s: Sys, log: seq<Entry>) {
    && |log| > 0 && log[0] == DUMMY
    && forall i {:trigger Created(s, log, i)} | 0 < i < |log| :: IsCommand(log[i], i) && Created(s, log, i)
  }

  predicate IsCommand(e: Entry, i: int) {
    e.index == i && e.data.Cmd?
  }

  ghost predicate Created(s: Sys, log: seq<Entry>, i: int)
    requires 0 < i < |log|
  {
    log[i].term in s.llog && Same(log, s.llog[log[i].term], i + 1)
  }

  ghost predicate TermsBelow(log: seq<Entry>, t: int) {
    forall i | 0 <= i < |log| :: log[i].term < t
  }

  predicate UpToDate(cand: seq<Entry>, voter: seq<Entry>)
    requires |cand| > 0 && |voter| > 0
  {
    LastTerm(cand) > LastTerm(voter) || (LastTerm(cand) == LastTerm(voter) && |cand| >= |voter|)
  }

  ghost predicate LeaderLogOk(s: Sys, t: int)
    requires t in s.llog && t in s.elect
  {
    var won, held := s.elect[t].log, s.llog[t];
    && t >= 1
    && ValidLog(s, held) && ValidLog(s, won)
    && Prefix(won, held) && TermsBelow(won, t)
    && forall i | |won| <= i < |held| :: held[i].term == t
  }

  ghost predicate LeaderLogs(s: Sys) {
    && s.llog.Keys == s.elect.Keys
    && forall t {:trigger LeaderLogOk(s, t)} | t in s.llog :: LeaderLogOk(s, t)
  }

  ghost predicate VotedFor(s: Sys, v: nat, t: int, cand: nat) {
    (v, t) in s.ballots && s.ballots[(v, t)].cand == cand
  }

  ghost predicate BallotOk(s: Sys, v: nat, t: int)
    requires (v, t) in s.ballots
  {
    var b := s.ballots[(v, t)];
    && v < |s.nodes| && 1 <= t <= s.nodes[v].term && b.cand < |s.nodes|
    && (t == s.nodes[v].term ==> s.nodes[v].vote == b.cand)
    && ValidLog(s, b.log)
    && VotedFor(s, b.cand, t, b.cand)
    && ValidLog(s, s.ballots[(b.cand, t)].log)
    && UpToDate(s.ballots[(b.cand, t)].log, b.log)
    && TermsBelow(s.ballots[(b.cand, t)].log, t)
  }

  ghost predicate Ballots(s: Sys) {
    forall v, t {:trigger BallotOk(s, v, t)} | (v, t) in s.ballots :: BallotOk(s, v, t)
  }

  ghost predicate ElectionOk(s: Sys, t: int)
    requires t in s.elect
  {
    var e := s.elect[t];
    && Quorum(e.voters, |s.nodes|)
    && (forall v {:trigger VotedFor(s, v, t, e.leader)} | v in e.voters :: VotedFor(s, v, t, e.leader))
    && VotedFor(s, e.leader, t, e.leader)
    && s.ballots[(e.leader, t)].log == e.log
  }

  ghost predicate Elections(s: Sys) {
    forall t {:trigger ElectionOk(s, t)} | t in s.elect :: ElectionOk(s, t)
  }

  ghost predicate Acked(s: Sys, v: nat, t: int, k: nat) {
    exists m | m in s.net :: m.Ack? && m.term == t && m.from == v && k <= m.upTo
  }

  ghost predicate AckedBy(s: Sys, q: set<nat>, t: int, k: nat) {
    Quorum(q, |s.nodes|) && forall v {:trigger Acked(s, v, t, k)} | v in q :: Acked(s, v, t, k)
  }

  /** The leader of term `t` created entry `k` and a quorum stored its log up to there. */
  ghost predicate Chosen(s: Sys, t: int, k: nat) {
    && t in s.llog && k < |s.llog[t]| && s.llog[t][k].term == t
    && exists q :: AckedBy(s, q, t, k)
  }

  ghost predicate ChosenPrefix(s: Sys, log: seq<Entry>, c: nat, t: int, k: nat) {
    Chosen(s, t, k) && c <= k && Same(log, s.llog[t], c + 1)
  }

  /** Entries 0..c of `log` are covered by a choice made in a term up to `hi`. */
  ghost predicate Committed(s: Sys, log: seq<Entry>, c: nat, hi: int) {
    c == 0 || exists t, k :: t <= hi && ChosenPrefix(s, log, c, t, k)
  }

  ghost predicate NodeOk(s: Sys, i: nat)
    requires i < |s.nodes|
  {
    var x := s.nodes[i];
    && x.term >= 0
    && (x.vote == NOBODY || (x.vote >= 0 && VotedFor(s, i, x.term, x.vote)))
    && ValidLog(s, x.log) && TermsBelow(x.log, x.term + 1)
    && x.commit < |x.log| && Committed(s, x.log, x.commit, x.term)
    && (x.role == Candidate ==>
          && VotedFor(s, i, x.term, i) && s.ballots[(i, x.term)].log == x.log
          && !(x.term in s.elect && s.elect[x.term].leader == i))
    && (x.role == Leader ==>
          x.term in s.elect && s.elect[x.term].leader == i && x.term in s.llog && x.log == s.llog[x.term])
  }

  ghost predicate Nodes(s: Sys) {
    forall i {:trigger NodeOk(s, i)} | 0 <= i < |s.nodes| :: NodeOk(s, i)
  }

  ghost predicate MsgOk(s: Sys, m: Msg) {
    match m
    case VoteReq(t, c, li, lt) =>
      && VotedFor(s, c, t, c)
      && var log := s.ballots[(c, t)].log; |log| > 0 && li == |log| - 1 && lt == LastTerm(log)
    case VoteRep(t, v, c) => VotedFor(s, v, t, c)
    case LogMsg(t, log, c) =>
      && t in s.llog && |log| > 0 && Prefix(log, s.llog[t])
      && c < |log| && Committed(s, log, c, t)
    case Ack(t, v, k) =>
      v < |s.nodes| && t in s.llog && k < |s.llog[t]| && t <= s.nodes[v].term
  }

  ghost predicate Net(s: Sys) {
    forall m {:trigger MsgOk(s, m)} | m in s.net :: MsgOk(s, m)
  }

  /** Every leader strictly between the terms was elected with entries 0..k of `t`'s log. */
  ghost predicate CarriedOver(s: Sys, t: int, k: nat, hi: int)
    requires t in s.llog
  {
    forall u | u in s.elect && t < u < hi :: Same(s.llog[t], s.elect[u].log, k + 1)
  }

  /** A server keeps what it acknowledged as long as every later leader had it too. */
  ghost predicate KeptInLog(s: Sys, m: Msg, k: nat)
    requires m.Ack? && m.from < |s.nodes| && m.term in s.llog
  {
    CarriedOver(s, m.term, k, s.nodes[m.from].term + 1) ==>
      Same(s.llog[m.term], s.nodes[m.from].log, k + 1)
  }

  ghost predicate KeptInBallot(s: Sys, m: Msg, k: nat, u: int)
    requires m.Ack? && m.term in s.llog && (m.from, u) in s.ballots
  {
    CarriedOver(s, m.term, k, u) ==>
      Same(s.llog[m.term], s.ballots[(m.from, u)].log, k + 1)
  }

  /** The ballot was cast before its term was decided, or decided it. */
  ghost predicate Counts(s: Sys, v: nat, u: int) {
    (v, u) in s.ballots && (u in s.elect ==> v in s.elect[u].voters)
  }

  ghost predicate LogsKeep(s: Sys) {
    forall m, k: nat {:trigger KeptInLog(s, m, k)} | m in s.net && m.Ack? && MsgOk(s, m) && k <= m.upTo ::
      KeptInLog(s, m, k)
  }

  ghost predicate BallotsKeep(s: Sys) {
    forall m, k: nat, u {:trigger KeptInBallot(s, m, k, u)}
      | m in s.net && m.Ack? && MsgOk(s, m) && k <= m.upTo && m.term < u && Counts(s, m.from, u) ::
      KeptInBallot(s, m, k, u)
  }

  ghost predicate Inv(s: Sys) {
    && LeaderLogs(s) && Ballots(s) && Elections(s) && Nodes(s)
    && Net(s) && LogsKeep(s) && BallotsKeep(s)
  }

  // ---------- Consequences of the invariant ----------

  /** Two valid logs with the same term at an index agree up to it. */
  lemma LogMatching(s: Sys, a: seq<Entry>, b: seq<Entry>, i: nat)
    requires ValidLog(s, a) && ValidLog(s, b)
    requires i < |a| && i < |b| && a[i].term == b[i].term
    ensures Same(a, b, i + 1)
  {
    if i > 0 {
      assert Created(s, a, i) && Created(s, b, i);
    }
  }

  /** Terms never decrease along a valid log. */
  lemma TermsAscend(s: Sys, log: seq<Entry>, i: nat, j: nat)
    requires LeaderLogs(s) && ValidLog(s, log) && i <= j < |log|
    ensures log[i].term <= log[j].term
  {
    if 0 < j {
      var t := log[j].term;
      assert Created(s, log, j);
      assert LeaderLogOk(s, t);
    }
  }

  /** The vote check: a log at least as up to date as one holding the chosen prefix holds it,
      provided every leader since then held it. */
  lemma UpToDateHolds(s: Sys, won: seq<Entry>, held: seq<Entry>, t: int, k: nat, u: int)
    requires LeaderLogs(s) && ValidLog(s, won) && ValidLog(s, held)
    requires UpToDate(won, held) && TermsBelow(won, u)
    requires t in s.llog && k < |s.llog[t]| && s.llog[t][k].term == t && Same(s.llog[t], held, k + 1)
    requires forall w | w in s.elect && t < w < u :: Same(s.llog[t], s.elect[w].log, k + 1)
    ensures Same(s.llog[t], won, k + 1)
  {
    assert LeaderLogOk(s, t);
    TermsAscend(s, held, k, |held| - 1);
    var last, end := LastTerm(won), |won| - 1;
    assert Created(s, won, end);
    if last == LastTerm(held) {
      assert Created(s, held, |held| - 1);
    } else {
      assert LeaderLogOk(s, last);
      assert s.llog[last][k].term == t;
      assert k < end;
    }
  }

  /** Leader Completeness: a chosen prefix is in the log every later leader was elected with. */
  lemma {:induction false} LeaderCompleteness(s: Sys, t: int, k: nat, u: int)
    requires Inv(s) && Chosen(s, t, k) && u in s.elect && t < u
    ensures Same(s.llog[t], s.elect[u].log, k + 1)
    decreases u - t
  {
    forall w | w in s.elect && t < w < u
      ensures Same(s.llog[t], s.elect[w].log, k + 1)
    {
      LeaderCompleteness(s, t, k, w);
    }
    var q :| AckedBy(s, q, t, k);
    assert ElectionOk(s, u);
    var v := QuorumsMeet(q, s.elect[u].voters, |s.nodes|);
    assert Acked(s, v, t, k);
    var m :| m in s.net && m.Ack? && m.term == t && m.from == v && k <= m.upTo;
    assert MsgOk(s, m);
    assert VotedFor(s, v, u, s.elect[u].leader);
    assert Counts(s, v, u);
    assert KeptInBallot(s, m, k, u);
    assert BallotOk(s, v, u);
    UpToDateHolds(s, s.elect[u].log, s.ballots[(v, u)].log, t, k, u);
  }

  /** A chosen prefix is in the log of every leader of the same or a later term. */
  lemma ChosenReaches(s: Sys, t: int, k: nat, u: int)
    requires Inv(s) && Chosen(s, t, k) && u in s.elect && t <= u
    ensures u in s.llog && Same(s.llog[t], s.llog[u], k + 1)
  {
    assert LeaderLogOk(s, u);
    if t < u {
      LeaderCompleteness(s, t, k, u);
    }
  }

  /** Two committed prefixes agree on the entries they share. */
  lemma CommittedAgree(s: Sys, a: seq<Entry>, i: nat, b: seq<Entry>, j: nat, hi: int, c: nat)
    requires Inv(s) && c <= i && c <= j
    requires |a| > 0 && |b| > 0 && a[0] == b[0]
    requires Committed(s, a, i, hi) && Committed(s, b, j, hi)
    ensures Same(a, b, c + 1)
  {
    if c > 0 {
      var t, k :| t <= hi && ChosenPrefix(s, a, i, t, k);
      var u, l :| u <= hi && ChosenPrefix(s, b, j, u, l);
      if t <= u {
        ChosenReaches(s, t, k, u);
      } else {
        ChosenReaches(s, u, l, t);
      }
    }
  }

  /** A leader's message agrees with every prefix committed in a term up to its own. */
  lemma CommittedInMessage(s: Sys, m: Msg, log: seq<Entry>, c: nat, k: nat)
    requires Inv(s) && m in s.net && m.LogMsg?
    requires |log| > 0 && log[0] == DUMMY && Committed(s, log, c, m.term)
    requires k <= c && k < |m.log|
    ensures Same(log, m.log, k + 1)
  {
    assert MsgOk(s, m);
    assert LeaderLogOk(s, m.term);
    if c > 0 {
      var t, j :| t <= m.term && ChosenPrefix(s, log, c, t, j);
      ChosenReaches(s, t, j, m.term);
    }
  }

  // ---------- Growth of the system ----------

  ghost predicate Grows(s: Sys, s': Sys) {
    && |s'.nodes| == |s.nodes|
    && (forall i | 0 <= i < |s.nodes| :: s.nodes[i].term <= s'.nodes[i].term)
    && s.net <= s'.net
    && (forall t | t in s.elect :: t in s'.elect && s'.elect[t] == s.elect[t])
    && (forall t | t in s.llog :: t in s'.llog && Prefix(s.llog[t], s'.llog[t]))
    && (forall b | b in s.ballots :: b in s'.ballots && s'.ballots[b] == s.ballots[b])
  }

  lemma GrowsTransitive(s: Sys, s': Sys, s'': Sys)
    requires Grows(s, s') && Grows(s', s'')
    ensures Grows(s, s'')
  {
    forall t | t in s.llog
      ensures t in s''.llog && Prefix(s.llog[t], s''.llog[t])
    {
      assert Prefix(s.llog[t], s'.llog[t]) && Prefix(s'.llog[t], s''.llog[t]);
    }
  }

  lemma ValidLogGrows(s: Sys, s': Sys, log: seq<Entry>)
    requires Grows(s, s') && ValidLog(s, log)
    ensures ValidLog(s', log)
  {
    forall i | 0 < i < |log|
      ensures IsCommand(log[i], i) && Created(s', log, i)
    {
      assert Created(s, log, i);
    }
  }

  lemma ChosenGrows(s: Sys, s': Sys, t: int, k: nat)
    requires Grows(s, s') && Chosen(s, t, k)
    ensures Chosen(s', t, k)
  {
    var q :| AckedBy(s, q, t, k);
    forall v | v in q
      ensures Acked(s', v, t, k)
    {
      assert Acked(s, v, t, k);
    }
    assert AckedBy(s', q, t, k);
  }

  lemma CommittedGrows(s: Sys, s': Sys, log: seq<Entry>, c: nat, hi: int)
    requires Grows(s, s') && Committed(s, log, c, hi)
    ensures Committed(s', log, c, hi)
  {
    if c > 0 {
      var t, k :| t <= hi && ChosenPrefix(s, log, c, t, k);
      ChosenGrows(s, s', t, k);
      assert ChosenPrefix(s', log, c, t, k);
    }
  }

  /** A committed prefix stays committed in any log that still has it, at any lower index and
      any higher term. */
  lemma CommittedMoves(s: Sys, a: seq<Entry>, b: seq<Entry>, c: nat, d: nat, hi: int, hi': int)
    requires Committed(s, a, c, hi) && d <= c && hi <= hi' && Same(a, b, d + 1)
    ensures Committed(s, b, d, hi')
  {
    if d > 0 {
      var t, k :| t <= hi && ChosenPrefix(s, a, c, t, k);
      assert ChosenPrefix(s, b, d, t, k);
    }
  }

  lemma BallotGrows(s: Sys, s': Sys, v: nat, t: int)
    requires Grows(s, s') && (v, t) in s.ballots && BallotOk(s, v, t)
    requires t == s'.nodes[v].term ==> s'.nodes[v].vote == s.ballots[(v, t)].cand
    ensures (v, t) in s'.ballots && BallotOk(s', v, t)
  {
    ValidLogGrows(s, s', s.ballots[(v, t)].log);
    ValidLogGrows(s, s', s.ballots[(s.ballots[(v, t)].cand, t)].log);
  }

  lemma ElectionGrows(s: Sys, s': Sys, t: int)
    requires Grows(s, s') && t in s.elect && ElectionOk(s, t)
    ensures t in s'.elect && ElectionOk(s', t)
  {
    forall v | v in s.elect[t].voters ensures VotedFor(s', v, t, s.elect[t].leader) {
      assert VotedFor(s, v, t, s.elect[t].leader);
    }
  }

  lemma MsgGrows(s: Sys, s': Sys, m: Msg)
    requires Grows(s, s') && MsgOk(s, m)
    ensures MsgOk(s', m)
  {
    if m.LogMsg? {
      CommittedGrows(s, s', m.log, m.commit, m.term);
    }
  }

  lemma CarriedBack(s: Sys, s': Sys, t: int, k: nat, hi: int)
    requires Grows(s, s') && t in s.llog && k < |s.llog[t]| && CarriedOver(s', t, k, hi)
    ensures CarriedOver(s, t, k, hi)
  {
    forall u | u in s.elect && t < u < hi ensures Same(s.llog[t], s.elect[u].log, k + 1) {
      assert Same(s'.llog[t], s'.elect[u].log, k + 1);
    }
  }

  lemma KeptInLogGrows(s: Sys, s': Sys, m: Msg, k: nat)
    requires Grows(s, s') && m.Ack? && MsgOk(s, m) && k <= m.upTo && KeptInLog(s, m, k)
    requires Prefix(s.nodes[m.from].log, s'.nodes[m.from].log)
    ensures MsgOk(s', m) && KeptInLog(s', m, k)
  {
    if CarriedOver(s', m.term, k, s'.nodes[m.from].term + 1) {
      CarriedBack(s, s', m.term, k, s.nodes[m.from].term + 1);
    }
  }

  lemma KeptInBallotGrows(s: Sys, s': Sys, m: Msg, k: nat, u: int)
    requires Grows(s, s') && m.Ack? && MsgOk(s, m) && k <= m.upTo && (m.from, u) in s.ballots
    requires KeptInBallot(s, m, k, u)
    ensures (m.from, u) in s'.ballots && m.term in s'.llog && KeptInBallot(s', m, k, u)
  {
    if CarriedOver(s', m.term, k, u) {
      CarriedBack(s, s', m.term, k, u);
    }
  }

  lemma NodeGrows(s: Sys, s': Sys, j: nat)
    requires Grows(s, s') && j < |s.nodes| && NodeOk(s, j) && s'.nodes[j] == s.nodes[j]
    requires var t := s.nodes[j].term;
      && (t in s.llog && t in s.elect && s.elect[t].leader == j ==> s'.llog[t] == s.llog[t])
      && (t in s'.elect && t !in s.elect ==> s'.elect[t].leader != j)
    ensures NodeOk(s', j)
  {
    ValidLogGrows(s, s', s.nodes[j].log);
    CommittedGrows(s, s', s.nodes[j].log, s.nodes[j].commit, s.nodes[j].term);
  }

  // ---------- What a step has to show ----------

  /** What is new in the history and in server `i` after a step is in order. */
  ghost predicate NewHistoryOk(s: Sys, s': Sys, i: nat)
    requires i < |s.nodes| && Grows(s, s')
  {
    && LeaderLogs(s')
    && (forall j | 0 <= j < |s.nodes| && j != i :: s'.nodes[j] == s.nodes[j])
    && (forall t | t in s.llog && t in s.elect && s.elect[t].leader != i :: s'.llog[t] == s.llog[t])
    && (forall t {:trigger ElectionOk(s', t)} | t in s'.elect && t !in s.elect :: ElectionOk(s', t))
    && (forall t | t in s'.elect && t !in s.elect :: s'.elect[t].leader == i)
    && (forall v, t {:trigger BallotOk(s', v, t)} | (v, t) in s'.ballots && (v, t) !in s.ballots :: BallotOk(s', v, t))
    && (forall t | (i, t) in s.ballots && t == s'.nodes[i].term :: s'.nodes[i].vote == s.ballots[(i, t)].cand)
    && NodeOk(s', i)
    && (forall m {:trigger MsgOk(s', m)} | m in s'.net && m !in s.net :: MsgOk(s', m))
  }

  /** What server `i` acknowledged, and every new acknowledgement, is kept. */
  ghost predicate NewAcksKept(s: Sys, s': Sys, i: nat)
    requires i < |s.nodes| && Grows(s, s')
  {
    && (forall m, k: nat {:trigger KeptInLog(s', m, k)}
          | m in s'.net && m.Ack? && (m !in s.net || m.from == i) && k <= m.upTo && MsgOk(s', m) ::
          KeptInLog(s', m, k))
    && (forall m, k: nat, u {:trigger KeptInBallot(s', m, k, u)} |
          && m in s'.net && m.Ack? && k <= m.upTo && m.term < u && Counts(s', m.from, u)
          && (m !in s.net || (m.from, u) !in s.ballots) && MsgOk(s', m) ::
          KeptInBallot(s', m, k, u))
  }

  lemma NetGrows(s: Sys, s': Sys, i: nat)
    requires Inv(s) && Grows(s, s') && i < |s.nodes| && NewHistoryOk(s, s', i)
    ensures Net(s')
  {
    forall m | m in s'.net ensures MsgOk(s', m) {
      if m in s.net {
        assert MsgOk(s, m);
        MsgGrows(s, s', m);
      }
    }
  }

  lemma KeptGrows(s: Sys, s': Sys, i: nat)
    requires Inv(s) && Grows(s, s') && i < |s.nodes| && NewHistoryOk(s, s', i) && NewAcksKept(s, s', i) && Net(s')
    ensures LogsKeep(s') && BallotsKeep(s')
  {
    forall m, k: nat | m in s'.net && m.Ack? && MsgOk(s', m) && k <= m.upTo ensures KeptInLog(s', m, k) {
      assert MsgOk(s', m);
      if m in s.net && m.from != i {
        assert MsgOk(s, m) && KeptInLog(s, m, k);
        KeptInLogGrows(s, s', m, k);
      }
    }
    forall m, k: nat, u | m in s'.net && m.Ack? && MsgOk(s', m) && k <= m.upTo && m.term < u && Counts(s', m.from, u)
      ensures KeptInBallot(s', m, k, u)
    {
      assert MsgOk(s', m);
      if m in s.net && (m.from, u) in s.ballots {
        assert MsgOk(s, m) && Counts(s, m.from, u);
        assert KeptInBallot(s, m, k, u);
        KeptInBallotGrows(s, s', m, k, u);
      }
    }
  }

  /** The frame rule of the protocol: a step that is right about what it changes keeps everything. */
  lemma InvGrows(s: Sys, s': Sys, i: nat)
    requires Inv(s) && Grows(s, s') && i < |s.nodes|
    requires NewHistoryOk(s, s', i) && NewAcksKept(s, s', i)
    ensures Inv(s')
  {
    forall v, t | (v, t) in s'.ballots ensures BallotOk(s', v, t) {
      if (v, t) in s.ballots {
        assert BallotOk(s, v, t);
        BallotGrows(s, s', v, t);
      }
    }
    forall t | t in s'.elect ensures ElectionOk(s', t) {
      if t in s.elect {
        assert ElectionOk(s, t);
        ElectionGrows(s, s', t);
      }
    }
    forall j | 0 <= j < |s'.nodes| ensures NodeOk(s', j) {
      if j != i {
        assert NodeOk(s, j);
        NodeGrows(s, s', j);
      }
    }
    NetGrows(s, s', i);
    KeptGrows(s, s', i);
  }
}
