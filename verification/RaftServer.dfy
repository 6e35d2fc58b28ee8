/** One Raft server of src/raft/raft.go: its state and the effect of every critical section
    under `rf.mu`, over the compacted log whose first entry holds the index and the term of
    the last entry covered by the snapshot. */
module RaftServer {
  import opened KvState
  import opened RaftTypes

  /** What persister.go stores: nothing yet, or the last atomic save. */
  datatype Disk = Blank | Saved(term: int, voteFor: int, log: seq<Entry>, snapshot: Snapshot)

  datatype Server = Server(
    me: nat,
    currentTerm: int,
    voteFor: int,
    role: Role,
    log: seq<Entry>,
    snapshot: Snapshot,
    commitIndex: int,
    lastApplied: int,
    nextIndex: seq<int>,
    matchIndex: seq<int>,
    disk: Disk)

  datatype VoteArgs = VoteArgs(term: int, cand: nat, lastIndex: int, lastTerm: int)

  datatype VoteReply = VoteReply(term: int, granted: bool)

  datatype LogArgs = LogArgs(
    term: int, leader: nat, prevIndex: int, prevTerm: int, entries: seq<Entry>, leaderCommit: int)

  datatype LogReply = LogReply(term: int, success: bool)

  datatype SnapArgs = SnapArgs(term: int, leader: nat, lastIndex: int, lastTerm: int, data: Snapshot)

  // ---------- Well-formed servers and messages ----------

  predicate Contiguous(log: seq<Entry>, first: int) {
    forall j | 0 <= j < |log| :: log[j].index == first + j
  }

  /** Log indices run on from the dummy entry, and there is one slot per peer. */
  predicate WellFormed(s: Server) {
    && |s.log| > 0 && s.log[0].index >= 0 && Contiguous(s.log, s.log[0].index)
    && s.me < |s.nextIndex| && |s.nextIndex| == |s.matchIndex|
  }

  predicate WellFormedArgs(a: LogArgs) {
    Contiguous(a.entries, a.prevIndex + 1)
  }

  function First(s: Server): Entry
    requires |s.log| > 0
  {
    s.log[0]
  }

  function Last(s: Server): Entry
    requires |s.log| > 0
  {
    s.log[|s.log| - 1]
  }

  /** The entry at a log index that the server still holds. */
  function EntryAt(s: Server, i: int): Entry
    requires |s.log| > 0 && 0 <= i - First(s).index < |s.log|
  {
    s.log[i - First(s).index]
  }

  // ---------- Terms and persistence ----------

  function Persist(s: Server): Server {
    s.(disk := Saved(s.currentTerm, s.voteFor, s.log, s.snapshot))
  }

  function AddCurrentTerm(s: Server, term: int): Server {
    if term <= s.currentTerm then s
    else Persist(s.(currentTerm := term, role := Follower, voteFor := NOBODY))
  }

  function ResetIndex(s: Server): Server
    requires |s.log| > 0 && s.me < |s.nextIndex|
  {
    var n := |s.nextIndex|;
    s.(nextIndex := seq(n, _ => Last(s).index + 1),
       matchIndex := seq(n, j => if j == s.me then Last(s).index else 0))
  }

  function Boot(me: nat, n: nat, disk: Disk): (s: Server)
    requires me < n && (disk.Saved? ==> |disk.log| > 0)
  {
    var zero := seq(n, _ => 0);
    var blank := Server(me, 0, NOBODY, Follower, [DUMMY], NoSnapshot, 0, 0, zero, zero, disk);
    match disk
    case Blank => ResetIndex(blank)
    case Saved(t, v, log, snap) =>
      ResetIndex(blank.(currentTerm := t, voteFor := v, log := log, snapshot := snap,
                        lastApplied := log[0].index, commitIndex := log[0].index))
  }

  // ---------- Elections ----------

  function StartElection(s: Server): (Server, VoteArgs)
    requires |s.log| > 0
  {
    var s1 := Persist(s.(currentTerm := s.currentTerm + 1, role := Candidate, voteFor := s.me));
    (s1, VoteArgs(s1.currentTerm, s.me, Last(s).index, Last(s).term))
  }

  function RequestVote(s: Server, a: VoteArgs): (Server, VoteReply)
    requires |s.log| > 0
  {
    if a.term < s.currentTerm then (s, VoteReply(s.currentTerm, false))
    else
      var s1 := AddCurrentTerm(s, a.term);
      if s1.voteFor == a.cand then
        (Persist(s1.(role := Follower)), VoteReply(s.currentTerm, true))
      else if s1.voteFor != NOBODY then
        (s1, VoteReply(s.currentTerm, false))
      else if a.lastTerm > Last(s1).term || (a.lastTerm == Last(s1).term && a.lastIndex >= Last(s1).index) then
        (Persist(s1.(voteFor := a.cand, role := Follower)), VoteReply(s.currentTerm, true))
      else
        (s1, VoteReply(s.currentTerm, false))
  }

  function BecomeLeader(s: Server): Server
    requires |s.log| > 0 && s.me < |s.nextIndex|
  {
    ResetIndex(s.(role := Leader))
  }

  // ---------- The leader's log ----------

  function Start(s: Server, op: Op): Server
    requires WellFormed(s)
  {
    if s.role != Leader then s
    else
      var e := Entry(s.currentTerm, Last(s).index + 1, Cmd(op));
      Persist(s.(log := s.log + [e], matchIndex := s.matchIndex[s.me := e.index]))
  }

  /** The peer is so far behind that it needs the snapshot. */
  predicate NeedsSnapshot(s: Server, peer: nat)
    requires |s.log| > 0 && peer < |s.nextIndex|
  {
    First(s).term != -1 && s.nextIndex[peer] <= First(s).index
  }

  /** The next index actually used for a peer, and remembered, when sending log entries. */
  function SendIndex(s: Server, peer: nat): int
    requires |s.log| > 0 && peer < |s.nextIndex|
  {
    if First(s).term == -1 && s.nextIndex[peer] == First(s).index then First(s).index + 1
    else s.nextIndex[peer]
  }

  predicate CanSend(s: Server, peer: nat)
    requires |s.log| > 0
  {
    && peer < |s.nextIndex| && peer != s.me && s.role == Leader && !NeedsSnapshot(s, peer)
    && First(s).index < SendIndex(s, peer) <= First(s).index + |s.log|
  }

  function PrepareLog(s: Server, peer: nat): (Server, LogArgs)
    requires |s.log| > 0 && CanSend(s, peer)
  {
    var next := SendIndex(s, peer);
    var prev := EntryAt(s, next - 1);
    (s.(nextIndex := s.nextIndex[peer := next]),
     LogArgs(s.currentTerm, s.me, prev.index, prev.term, s.log[next - First(s).index..], s.commitIndex))
  }

  function PrepareSnapshot(s: Server): SnapArgs
    requires |s.log| > 0
  {
    SnapArgs(s.currentTerm, s.me, First(s).index, First(s).term, s.snapshot)
  }

  // ---------- A follower's log ----------

  /** Requests whose previous entry lies below the snapshot are cut down to what is above it. */
  function Trim(s: Server, a: LogArgs): LogArgs
    requires |s.log| > 0 && WellFormedArgs(a)
    requires a.prevIndex < First(s).index && |a.entries| > 0 && a.prevIndex + |a.entries| > First(s).index
  {
    a.(entries := a.entries[First(s).index - a.prevIndex..], prevIndex := First(s).index, prevTerm := First(s).term)
  }

  /** The previous entry is missing or belongs to another term; at the snapshot boundary and
      below it no term is compared. */
  predicate Conflicts(s: Server, a: LogArgs)
    requires |s.log| > 0
  {
    || a.prevIndex > First(s).index + |s.log| - 1
    || (a.prevIndex > First(s).index && EntryAt(s, a.prevIndex).term != a.prevTerm)
  }

  /** The log already ends with, or contains, the last entry of the request. */
  predicate HoldsLast(s: Server, a: LogArgs)
    requires |s.log| > 0 && |a.entries| > 0
    requires a.entries[|a.entries| - 1].index >= First(s).index
  {
    var e := a.entries[|a.entries| - 1];
    e.index <= First(s).index + |s.log| - 1 && EntryAt(s, e.index).term == e.term
  }

  function MergeEntries(s: Server, a: LogArgs): seq<Entry>
    requires WellFormed(s) && WellFormedArgs(a) && a.prevIndex <= Last(s).index
    requires |a.entries| > 0 ==> First(s).index <= a.prevIndex
  {
    if |a.entries| == 0 || HoldsLast(s, a) then s.log
    else s.log[..a.prevIndex - First(s).index + 1] + a.entries
  }

  function FollowerCommit(s: Server, leaderCommit: int): int
    requires |s.log| > 0
  {
    var c := if leaderCommit < Last(s).index then leaderCommit else Last(s).index;
    if leaderCommit > s.commitIndex && c > s.commitIndex then c else s.commitIndex
  }

  /** A candidate that hears from the leader of its term gives up. */
  function Yield(role: Role): Role {
    if role == Candidate then Follower else role
  }

  /** An accepted request: merge the entries, persist, follow the leader's commit index. */
  function AcceptLog(s: Server, a: LogArgs): Server
    requires WellFormed(s) && WellFormedArgs(a) && a.prevIndex <= Last(s).index
    requires |a.entries| > 0 ==> First(s).index <= a.prevIndex
  {
    var s1 := Persist(s.(role := Yield(s.role), log := MergeEntries(s, a)));
    s1.(commitIndex := FollowerCommit(s1, a.leaderCommit))
  }

  /** RequestSendLog once the server is in the request's term. */
  function ReceiveLog(s: Server, a: LogArgs): (Server, LogReply)
    requires WellFormed(s) && WellFormedArgs(a)
  {
    var below := a.prevIndex < First(s).index && |a.entries| > 0;
    if a.prevIndex > Last(s).index then (s, LogReply(s.currentTerm, false))
    else if below && a.entries[|a.entries| - 1].index <= First(s).index then (s, LogReply(s.currentTerm, true))
    else
      var b := if below then Trim(s, a) else a;
      if Conflicts(s, b) then (s, LogReply(s.currentTerm, false))
      else (AcceptLog(s, b), LogReply(s.currentTerm, true))
  }

  function RequestSendLog(s: Server, a: LogArgs): (Server, LogReply)
    requires WellFormed(s) && WellFormedArgs(a)
  {
    if a.term < s.currentTerm then (s, LogReply(s.currentTerm, false))
    else ReceiveLog(AddCurrentTerm(s, a.term), a)
  }

  // ---------- Snapshots ----------

  function TakeSnapshot(s: Server, index: int, data: Snapshot): Server
    requires WellFormed(s)
  {
    if index <= First(s).index || index > Last(s).index then s
    else
      var e := EntryAt(s, index);
      Persist(s.(log := [Entry(e.term, e.index, Nil)] + s.log[index - First(s).index + 1..], snapshot := data))
  }

  predicate DiscardsSnapshot(s: Server, a: SnapArgs)
    requires WellFormed(s)
  {
    a.lastIndex <= First(s).index || (a.lastIndex <= Last(s).index && EntryAt(s, a.lastIndex).term == a.lastTerm)
  }

  /** The snapshot in the server's own term: discarded, or installed and handed to the service. */
  function ReceiveSnapshot(s: Server, a: SnapArgs): (Server, bool)
    requires WellFormed(s)
  {
    if DiscardsSnapshot(s, a) then (Persist(s), false)
    else
      var s1 := Persist(s.(log := [Entry(a.lastTerm, a.lastIndex, Nil)], snapshot := a.data));
      (s1.(lastApplied := Max(s1.lastApplied, a.lastIndex), commitIndex := Max(s1.commitIndex, a.lastIndex)), true)
  }

  /** Returns the new state, the term to reply with, and whether the snapshot was installed. */
  function InstallSnapshot(s: Server, a: SnapArgs): (Server, int, bool)
    requires WellFormed(s)
  {
    if a.term < s.currentTerm then (Persist(s), s.currentTerm, false)
    else
      var s1 := AddCurrentTerm(s, a.term);
      var (s2, installed) := ReceiveSnapshot(s1.(role := Yield(s1.role)), a);
      (s2, s.currentTerm, installed)
  }

  // ---------- Replies to the leader ----------

  /** The peers whose match index has reached `k`. */
  function Matching(s: Server, k: int): set<nat> {
    set j: nat | j < |s.matchIndex| && s.matchIndex[j] >= k
  }

  /** The scan over match indices: stop at the first index without a majority; move the commit
      index to every entry of the current term that is passed. */
  function ScanCommit(s: Server, k: int, commit: int): int
    requires |s.log| > 0 && First(s).index < k
    decreases First(s).index + |s.log| - k
  {
    if k > First(s).index + |s.log| - 1 || |Matching(s, k)| <= |s.matchIndex| / 2 then commit
    else ScanCommit(s, k + 1, if EntryAt(s, k).term == s.currentTerm then k else commit)
  }

  function AdvanceCommit(s: Server): Server
    requires |s.log| > 0 && First(s).index <= s.commitIndex
  {
    s.(commitIndex := ScanCommit(s, s.commitIndex + 1, s.commitIndex))
  }

  /** Walk back over the entries that share the term of entry `k`. */
  function TermStart(s: Server, k: int): int
    requires |s.log| > 0 && First(s).index <= k < First(s).index + |s.log|
    decreases k - First(s).index
  {
    if k > First(s).index && EntryAt(s, k - 1).term == EntryAt(s, k).term then TermStart(s, k - 1) else k
  }

  /** The next index to try after a rejection. */
  function BackOff(s: Server, next: int): int
    requires |s.log| > 0
  {
    var lastIndex := First(s).index + |s.log| - 1;
    if next - 1 <= First(s).index then First(s).index
    else TermStart(s, if next - 1 > lastIndex then lastIndex else next - 1)
  }

  function Max(a: int, b: int): int {
    if a > b then a else b
  }

  function LogReplyReceived(s: Server, peer: nat, a: LogArgs, sentNext: int, r: LogReply): Server
    requires WellFormed(s) && peer < |s.nextIndex| && First(s).index <= s.commitIndex
  {
    if r.term > s.currentTerm then AddCurrentTerm(s, r.term)
    else if s.role != Leader || s.currentTerm != a.term then s
    else if r.success then
      if |a.entries| == 0 then s
      else
        var e := a.entries[|a.entries| - 1];
        AdvanceCommit(s.(matchIndex := s.matchIndex[peer := Max(s.matchIndex[peer], e.index)],
                         nextIndex := s.nextIndex[peer := Max(s.nextIndex[peer], e.index + 1)]))
    else if s.nextIndex[peer] == sentNext then
      s.(nextIndex := s.nextIndex[peer := BackOff(s, sentNext)])
    else s
  }

  function SnapReplyReceived(s: Server, peer: nat, a: SnapArgs, sentNext: int, sentMatch: int, term: int): Server
    requires WellFormed(s) && peer < |s.nextIndex| && First(s).index <= s.commitIndex
  {
    if term > s.currentTerm then AddCurrentTerm(s, term)
    else if s.role != Leader || s.currentTerm != a.term then s
    else
      var next := if s.nextIndex[peer] == sentNext then Max(sentNext, a.lastIndex + 1) else s.nextIndex[peer];
      var matched := if s.matchIndex[peer] == sentMatch then Max(sentMatch, a.lastIndex) else s.matchIndex[peer];
      AdvanceCommit(s.(nextIndex := s.nextIndex[peer := next], matchIndex := s.matchIndex[peer := matched]))
  }
}
