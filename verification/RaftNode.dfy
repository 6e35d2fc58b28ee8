/** The Raft object of src/raft/raft.go and its Persister, as objects updated in place.  Every
    method is one critical section and refines the function of RaftServer with its name. */
module RaftNode {
  import opened KvState
  import opened RaftTypes
  import opened RaftServer

  /** Stable storage: one atomic save of the Raft state and the snapshot. */
  class Persister {
    var disk: Disk

    constructor ()
      ensures disk == Blank
    {
      disk := Blank;
    }

    method Save(term: int, voteFor: int, log: seq<Entry>, snapshot: Snapshot)
      modifies this
      ensures disk == Saved(term, voteFor, log, snapshot)
    {
      disk := Saved(term, voteFor, log, snapshot);
    }

    /** A crash hands a copy to the next incarnation; later saves do not reach it. */
    method Copy() returns (p: Persister)
      ensures fresh(p) && p.disk == disk
    {
      p := new Persister();
      p.disk := disk;
    }
  }

  class Raft {
    const me: nat
    const persister: Persister
    var currentTerm: int
    var voteFor: int
    var role: Role
    var log: seq<Entry>
    var snapshot: Snapshot
    var commitIndex: int
    var lastApplied: int
    const nextIndex: array<int>
    const matchIndex: array<int>

    /** The server as a value. */
    ghost function View(): (s: Server)
      reads this, persister, nextIndex, matchIndex
    {
      Server(me, currentTerm, voteFor, role, log, snapshot, commitIndex, lastApplied,
             nextIndex[..], matchIndex[..], persister.disk)
    }

    ghost predicate Valid()
      reads this, persister, nextIndex, matchIndex
    {
      && nextIndex != matchIndex
      && WellFormed(View()) && First(View()).index <= commitIndex
    }

    constructor (n: nat, me: nat, persister: Persister)
      requires me < n
      requires persister.disk.Saved? ==>
                 var log := persister.disk.log; |log| > 0 && log[0].index >= 0 && Contiguous(log, log[0].index)
      ensures Valid() && this.me == me && this.persister == persister
      ensures fresh(nextIndex) && fresh(matchIndex)
      ensures View() == Boot(me, n, persister.disk)
    {
      this.me := me;
      this.persister := persister;
      role := Follower;
      currentTerm, voteFor := 0, NOBODY;
      commitIndex, lastApplied := 0, 0;
      log, snapshot := [DUMMY], NoSnapshot;
      nextIndex := new int[n];
      matchIndex := new int[n];
      if persister.disk.Saved? {
        currentTerm, voteFor, log, snapshot := persister.disk.term, persister.disk.voteFor, persister.disk.log,
          persister.disk.snapshot;
        lastApplied, commitIndex := persister.disk.log[0].index, persister.disk.log[0].index;
      }
      new;
      ResetIndex();
    }

    method ResetIndex()
      requires |log| > 0 && me < nextIndex.Length == matchIndex.Length && nextIndex != matchIndex
      modifies nextIndex, matchIndex
      ensures View() == RaftServer.ResetIndex(old(View()))
    {
      var last := log[|log| - 1].index;
      var i := 0;
      while i < nextIndex.Length
        invariant 0 <= i <= nextIndex.Length
        invariant forall j | 0 <= j < i :: nextIndex[j] == last + 1
        invariant forall j | 0 <= j < i :: matchIndex[j] == if j == me then last else 0
      {
        nextIndex[i] := last + 1;
        matchIndex[i] := 0;
        if i == me {
          matchIndex[i] := last;
        }
        i := i + 1;
      }
      assert nextIndex[..] == seq(nextIndex.Length, _ => last + 1);
      assert matchIndex[..] == seq(nextIndex.Length, j => if j == me then last else 0);
    }

    method Persist()
      modifies persister
      ensures View() == RaftServer.Persist(old(View()))
    {
      persister.Save(currentTerm, voteFor, log, snapshot);
    }

    method AddCurrentTerm(term: int)
      modifies this, persister
      ensures View() == RaftServer.AddCurrentTerm(old(View()), term)
      ensures old(Valid()) ==> Valid()
    {
      if term <= currentTerm {
        return;
      }
      currentTerm := term;
      role := Follower;
      voteFor := NOBODY;
      Persist();
    }

    method BeginElection() returns (args: VoteArgs)
      requires Valid() && role != Leader
      modifies this, persister
      ensures Valid() && (View(), args) == RaftServer.StartElection(old(View()))
    {
      currentTerm := currentTerm + 1;
      role := Candidate;
      voteFor := me;
      Persist();
      args := VoteArgs(currentTerm, me, log[|log| - 1].index, log[|log| - 1].term);
    }

    method RequestVote(args: VoteArgs) returns (reply: VoteReply)
      requires Valid()
      modifies this, persister
      ensures Valid() && (View(), reply) == RaftServer.RequestVote(old(View()), args)
    {
      reply := VoteReply(currentTerm, false);
      if args.term < currentTerm {
        return;
      }
      if args.term > currentTerm {
        AddCurrentTerm(args.term);
      }
      if args.term == currentTerm && voteFor == args.cand {
        reply := reply.(granted := true);
      } else if voteFor != NOBODY {
        return;
      } else {
        var last := log[|log| - 1];
        if args.lastTerm > last.term || (args.lastTerm == last.term && args.lastIndex >= last.index) {
          voteFor := args.cand;
          reply := reply.(granted := true);
        }
      }
      if reply.granted {
        role := Follower;
        Persist();
      }
    }

    method BecomeLeader()
      requires Valid() && role == Candidate
      modifies this, nextIndex, matchIndex
      ensures Valid() && View() == RaftServer.BecomeLeader(old(View()))
    {
      role := Leader;
      ResetIndex();
    }

    method Start(op: Op) returns (index: int, term: int, isLeader: bool)
      requires Valid()
      modifies this, persister, matchIndex
      ensures Valid() && View() == RaftServer.Start(old(View()), op)
      ensures isLeader == old(role == Leader) && term == currentTerm
      ensures isLeader ==> log == old(log) + [Entry(term, index, Cmd(op))] && index == Last(old(View())).index + 1
    {
      if role != Leader {
        return 0, currentTerm, false;
      }
      index := log[|log| - 1].index + 1;
      log := log + [Entry(currentTerm, index, Cmd(op))];
      matchIndex[me] := index;
      Persist();
      return index, currentTerm, true;
    }

    method PrepareLog(peer: nat) returns (args: LogArgs)
      requires Valid() && CanSend(View(), peer)
      modifies nextIndex
      ensures Valid() && (View(), args) == RaftServer.PrepareLog(old(View()), peer)
    {
      var first := log[0];
      if first.term == -1 && nextIndex[peer] == first.index {
        nextIndex[peer] := first.index + 1;
      }
      assert nextIndex[..] == old(nextIndex[..])[peer := nextIndex[peer]];
      var at := nextIndex[peer] - first.index;
      var prev := log[at - 1];
      args := LogArgs(currentTerm, me, prev.index, prev.term, log[at..], commitIndex);
    }

    method RequestSendLog(args: LogArgs) returns (reply: LogReply)
      requires Valid() && WellFormedArgs(args)
      modifies this, persister
      ensures Valid() && (View(), reply) == RaftServer.RequestSendLog(old(View()), args)
    {
      if args.term < currentTerm {
        return LogReply(currentTerm, false);
      }
      if args.term > currentTerm {
        AddCurrentTerm(args.term);
      }
      reply := ReceiveLog(args);
    }

    method ReceiveLog(args: LogArgs) returns (reply: LogReply)
      requires Valid() && WellFormedArgs(args)
      modifies this, persister
      ensures Valid() && (View(), reply) == RaftServer.ReceiveLog(old(View()), args)
    {
      var first := log[0];
      if args.prevIndex > log[|log| - 1].index {
        return LogReply(currentTerm, false);
      }
      var a := args;
      if args.prevIndex < first.index && |args.entries| > 0 {
        if args.entries[|args.entries| - 1].index <= first.index {
          return LogReply(currentTerm, true);
        }
        a := Trim(args);
      }
      if a.prevIndex > first.index && log[a.prevIndex - first.index].term != a.prevTerm {
        return LogReply(currentTerm, false);
      }
      AcceptLog(a);
      reply := LogReply(currentTerm, true);
    }

    method Trim(args: LogArgs) returns (a: LogArgs)
      requires Valid() && WellFormedArgs(args) && args.prevIndex < log[0].index && |args.entries| > 0
      requires args.entries[|args.entries| - 1].index > log[0].index
      ensures a == RaftServer.Trim(View(), args) && WellFormedArgs(a)
    {
      var first := log[0];
      var firstBig := 0;
      while args.entries[firstBig].index <= first.index
        invariant 0 <= firstBig < |args.entries|
        invariant args.prevIndex + firstBig <= first.index
        decreases |args.entries| - firstBig
      {
        firstBig := firstBig + 1;
      }
      a := args.(entries := args.entries[firstBig..], prevIndex := first.index, prevTerm := first.term);
    }

    method AcceptLog(a: LogArgs)
      requires Valid() && WellFormedArgs(a) && a.prevIndex <= Last(View()).index
      requires |a.entries| > 0 ==> First(View()).index <= a.prevIndex
      modifies this, persister
      ensures Valid() && View() == RaftServer.AcceptLog(old(View()), a)
    {
      MergeEntries(a);
      if role == Candidate {
        role := Follower;
      }
      Persist();
      FollowCommit(a.leaderCommit);
    }

    method MergeEntries(a: LogArgs)
      requires Valid() && WellFormedArgs(a) && a.prevIndex <= Last(View()).index
      requires |a.entries| > 0 ==> First(View()).index <= a.prevIndex
      modifies this`log
      ensures Valid() && View() == old(View()).(log := RaftServer.MergeEntries(old(View()), a))
    {
      if |a.entries| > 0 {
        var e := a.entries[|a.entries| - 1];
        if !(log[|log| - 1].index >= e.index && log[e.index - log[0].index].term == e.term) {
          log := log[..a.prevIndex - log[0].index + 1] + a.entries;
        }
      }
    }

    method FollowCommit(leaderCommit: int)
      requires Valid()
      modifies this`commitIndex
      ensures Valid() && View() == old(View()).(commitIndex := FollowerCommit(old(View()), leaderCommit))
    {
      if leaderCommit > commitIndex {
        var last := log[|log| - 1].index;
        var newCommitIndex := if leaderCommit < last then leaderCommit else last;
        if newCommitIndex > commitIndex {
          commitIndex := newCommitIndex;
        }
      }
    }

    method TakeSnapshot(index: int, data: Snapshot)
      requires Valid()
      modifies this, persister
      ensures View() == RaftServer.TakeSnapshot(old(View()), index, data)
      ensures WellFormed(View()) && (index <= commitIndex ==> Valid())
    {
      var first := log[0];
      if index <= first.index || index > log[|log| - 1].index {
        return;
      }
      var e := log[index - first.index];
      log := [Entry(e.term, e.index, Nil)] + log[index - first.index + 1..];
      snapshot := data;
      Persist();
    }

    /** Also returns whether the snapshot goes to the service. */
    method InstallSnapshot(args: SnapArgs) returns (term: int, installed: bool)
      requires Valid()
      modifies this, persister
      ensures Valid() && (View(), term, installed) == RaftServer.InstallSnapshot(old(View()), args)
    {
      term, installed := currentTerm, false;
      if args.term < currentTerm {
        Persist();
        return;
      }
      if args.term > currentTerm {
        AddCurrentTerm(args.term);
      }
      if role == Candidate {
        role := Follower;
      }
      installed := ReceiveSnapshot(args);
    }

    method ReceiveSnapshot(args: SnapArgs) returns (installed: bool)
      requires Valid()
      modifies this, persister
      ensures Valid() && (View(), installed) == RaftServer.ReceiveSnapshot(old(View()), args)
    {
      var first, last := log[0], log[|log| - 1];
      installed := !(args.lastIndex <= first.index
                     || (args.lastIndex <= last.index && log[args.lastIndex - first.index].term == args.lastTerm));
      if installed {
        log := [Entry(args.lastTerm, args.lastIndex, Nil)];
        snapshot := args.data;
        if args.lastIndex > lastApplied {
          lastApplied := args.lastIndex;
        }
        if args.lastIndex > commitIndex {
          commitIndex := args.lastIndex;
        }
      }
      Persist();
    }

    /** How many peers have matched the log up to `k`. */
    method CountMatches(k: int) returns (count: nat)
      ensures count == |Matching(View(), k)|
    {
      count := 0;
      var i := 0;
      ghost var seen: set<nat> := {};
      while i < matchIndex.Length
        invariant 0 <= i <= matchIndex.Length
        invariant seen == set j: nat | j < i && matchIndex[j] >= k
        invariant count == |seen|
      {
        if matchIndex[i] >= k {
          count := count + 1;
          seen := seen + {i};
        }
        i := i + 1;
      }
      assert seen == Matching(View(), k);
    }

    method AdvanceCommit()
      requires Valid()
      modifies this`commitIndex
      ensures Valid() && View() == RaftServer.AdvanceCommit(old(View()))
    {
      ghost var v := View();
      var k := commitIndex + 1;
      while k <= log[|log| - 1].index
        invariant First(v).index < k && v.commitIndex <= commitIndex < k
        invariant View() == v.(commitIndex := commitIndex)
        invariant ScanCommit(v, k, commitIndex) == ScanCommit(v, v.commitIndex + 1, v.commitIndex)
        decreases Last(v).index - k
      {
        var count := CountMatches(k);
        assert Matching(View(), k) == Matching(v, k);
        if count <= matchIndex.Length / 2 {
          break;
        }
        if log[k - log[0].index].term == currentTerm {
          commitIndex := k;
        }
        k := k + 1;
      }
    }

    method BackOff(next: int) returns (back: int)
      requires Valid()
      ensures back == RaftServer.BackOff(View(), next)
    {
      var first := log[0].index;
      if next - 1 <= first {
        return first;
      }
      back := next - 1;
      if back > log[|log| - 1].index {
        back := log[|log| - 1].index;
      }
      ghost var k := back;
      var term := log[back - first].term;
      while back >= first && log[back - first].term == term
        invariant first - 1 <= back <= k
        invariant forall j | back < j <= k :: EntryAt(View(), j).term == term
        invariant back == k ==> log[back - first].term == term
        decreases back
      {
        back := back - 1;
      }
      back := back + 1;
      TermRun(View(), k, back);
    }

    method LogReplyReceived(peer: nat, args: LogArgs, sentNext: int, reply: LogReply)
      requires Valid() && peer < nextIndex.Length
      modifies this, persister, nextIndex, matchIndex
      ensures Valid() && View() == RaftServer.LogReplyReceived(old(View()), peer, args, sentNext, reply)
    {
      if reply.term > currentTerm {
        AddCurrentTerm(reply.term);
        return;
      }
      if role == Leader && currentTerm == args.term {
        if reply.success {
          if |args.entries| > 0 {
            var e := args.entries[|args.entries| - 1];
            RecordMatch(peer, e.index, e.index + 1);
            AdvanceCommit();
          }
        } else if nextIndex[peer] == sentNext {
          var back := BackOff(sentNext);
          nextIndex[peer] := back;
        }
      }
    }

    method RecordMatch(peer: nat, matched: int, next: int)
      requires Valid() && peer < nextIndex.Length
      modifies nextIndex, matchIndex
      ensures Valid()
      ensures View() == old(View()).(matchIndex := old(matchIndex[..])[peer := Max(old(matchIndex[peer]), matched)],
                                     nextIndex := old(nextIndex[..])[peer := Max(old(nextIndex[peer]), next)])
    {
      if matched > matchIndex[peer] {
        matchIndex[peer] := matched;
      }
      if next > nextIndex[peer] {
        nextIndex[peer] := next;
      }
    }

    method SnapReplyReceived(peer: nat, args: SnapArgs, sentNext: int, sentMatch: int, term: int)
      requires Valid() && peer < nextIndex.Length
      modifies this, persister, nextIndex, matchIndex
      ensures Valid() && View() == RaftServer.SnapReplyReceived(old(View()), peer, args, sentNext, sentMatch, term)
    {
      if term > currentTerm {
        AddCurrentTerm(term);
        return;
      }
      if role == Leader && currentTerm == args.term {
        var next := if nextIndex[peer] == sentNext then args.lastIndex + 1 else nextIndex[peer];
        var matched := if matchIndex[peer] == sentMatch then args.lastIndex else matchIndex[peer];
        RecordMatch(peer, matched, next);
        AdvanceCommit();
      }
    }
  }

  /** A maximal run of equal terms that ends at `k` starts where TermStart says. */
  lemma {:induction false} TermRun(s: Server, k: int, start: int)
    requires |s.log| > 0 && First(s).index <= start <= k < First(s).index + |s.log|
    requires forall j | start <= j <= k :: EntryAt(s, j).term == EntryAt(s, k).term
    requires start > First(s).index ==> EntryAt(s, start - 1).term != EntryAt(s, k).term
    ensures TermStart(s, k) == start
    decreases k - start
  {
    if start < k {
      TermRun(s, k - 1, start);
    }
  }
}
