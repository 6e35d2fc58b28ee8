/** Raft and the key/value service together: one sequence of operations stands behind every replica
    of a run, and each request takes effect in it at most once. */
module Replication {
  import opened KvServer
  import opened KvState
  import opened RaftCluster
  import opened RaftFullLog
  import opened RaftRefinement
  import opened RaftSafety
  import opened RaftTypes

  /** The operations in entries 1..k of a full log. */
  function Commands(log: seq<Entry>, k: nat): seq<Op>
    requires k < |log|
  {
    if k == 0 then [] else Commands(log, k - 1) + if log[k].data.Cmd? then [log[k].data.op] else []
  }

  lemma {:induction false} ReplayCommands(log: seq<Entry>, k: nat)
    requires k < |log|
    ensures ReplayTo(log, k) == Replay(INIT, Commands(log, k))
  {
    if k > 0 {
      ReplayCommands(log, k - 1);
      if log[k].data.Cmd? {
        assert Commands(log, k)[..|Commands(log, k)| - 1] == Commands(log, k - 1);
      } else {
        assert Commands(log, k) == Commands(log, k - 1);
      }
    }
  }

  /** Every entry of a log that Raft creates is an operation. */
  lemma {:induction false} CommandsCount(s: Sys, log: seq<Entry>, k: nat)
    requires ValidLog(s, log) && k < |log|
    ensures |Commands(log, k)| == k
  {
    if k > 0 {
      CommandsCount(s, log, k - 1);
      assert Created(s, log, k);
    }
  }

  /** A log that agrees with a longer one holds a beginning of its operations. */
  lemma {:induction false} CommandsPrefix(a: seq<Entry>, k: nat, b: seq<Entry>, m: nat)
    requires k <= m < |b| && Same(a, b, k + 1)
    ensures |Commands(a, k)| <= |Commands(b, m)| && Commands(a, k) == Commands(b, m)[..|Commands(a, k)|]
    decreases m
  {
    if k == m {
      CommandsSame(a, b, k);
    } else {
      CommandsPrefix(a, k, b, m - 1);
    }
  }

  lemma {:induction false} CommandsSame(a: seq<Entry>, b: seq<Entry>, k: nat)
    requires Same(a, b, k + 1)
    ensures Commands(a, k) == Commands(b, k)
  {
    if k > 0 {
      CommandsSame(a, b, k - 1);
    }
  }

  // ---------- The replica that has applied most ----------

  function Applied(cs: seq<Cluster>, k: nat, i: nat): int
    requires At(cs, k, i)
  {
    ServerAt(cs, k, i).lastApplied
  }

  /** Server `i` after `k` steps has applied as much as any of the first `m` servers then. */
  lemma {:induction false} MostAt(cs: seq<Cluster>, k: nat, m: nat) returns (i: nat)
    requires k < |cs| && 0 < m <= |cs[k].reps|
    ensures At(cs, k, i) && forall j: nat | j < m :: Applied(cs, k, j) <= Applied(cs, k, i)
    decreases m
  {
    i := 0;
    if m > 1 {
      i := MostAt(cs, k, m - 1);
      if Applied(cs, k, i) < Applied(cs, k, m - 1) {
        i := m - 1;
      }
    }
  }

  lemma {:induction false} Most(cs: seq<Cluster>, e: nat) returns (k: nat, i: nat)
    requires 0 < e <= |cs| && forall l | 0 <= l < e :: |cs[l].reps| > 0
    ensures At(cs, k, i)
    ensures forall l: nat, j: nat | l < e && At(cs, l, j) :: Applied(cs, l, j) <= Applied(cs, k, i)
    decreases e
  {
    k := e - 1;
    i := MostAt(cs, k, |cs[k].reps|);
    if e > 1 {
      var l, j := Most(cs, e - 1);
      if Applied(cs, k, i) < Applied(cs, l, j) {
        k, i := l, j;
      }
    }
  }

  // ---------- One sequence of operations ----------

  /** The state is that after the first `m` operations, each request taking effect at most once. */
  ghost predicate Explained(ops: seq<Op>, kv: State, m: int) {
    && 0 <= m <= |ops| && kv == Replay(INIT, ops[..m])
    && kv.store == ExecuteAll(map[], Executed(INIT, ops[..m])) && Increasing(Executed(INIT, ops[..m]))
  }

  lemma PrefixExplains(s: Sys, ops: seq<Op>, log: seq<Entry>, k: nat, longest: seq<Entry>, c: nat)
    requires ValidLog(s, log) && k <= c < |longest| && Same(log, longest, k + 1) && ops == Commands(longest, c)
    ensures Explained(ops, ReplayTo(log, k), k)
  {
    CommandsPrefix(log, k, longest, c);
    CommandsCount(s, log, k);
    var done := Commands(log, k);
    ReplayCommands(log, k);
    StoreIsExecuted(INIT, done);
    ExecutedIncreasing(INIT, done);
  }

  /** Both the state of the replica and its stored snapshot come from the operations, as far as they were
      applied and as far as they were snapshotted. */
  ghost predicate ReplicaExplained(ops: seq<Op>, r: Replica) {
    && Explained(ops, r.kv, r.raft.lastApplied) && |r.raft.log| > 0
    && Explained(ops, Restore(INIT, r.raft.snapshot), r.raft.log[0].index)
  }

  /** Over a whole run, crashes, elections and snapshots included, there is one sequence of operations
      such that every replica, at any time, is in the state after the operations it has applied. */
  lemma OneHistory(n: nat, cs: seq<Cluster>) returns (ops: seq<Op>)
    requires n > 0 && IsRun(n, cs)
    ensures forall k: nat, i: nat | At(cs, k, i) :: ReplicaExplained(ops, cs[k].reps[i])
  {
    var ss := RunSimulated(n, cs);
    forall l | 0 <= l < |cs| ensures |cs[l].reps| > 0 {
      RunSize(cs, ss, l);
    }
    var l, j := Most(cs, |cs|);
    FullLogAt(cs, ss, l, j, l);
    var longest, c := ss[l].nodes[j].log, Applied(cs, l, j);
    ops := Commands(longest, c);
    forall k: nat, i: nat | At(cs, k, i) ensures ReplicaExplained(ops, cs[k].reps[i]) {
      FullLogAt(cs, ss, k, i, k);
      CommittedLogsAgree(cs, ss, k, i, l, j, Applied(cs, k, i));
      ExplainsReplica(cs[k].reps[i], ss[k], i, ops, longest, c);
    }
  }

  lemma ExplainsReplica(r: Replica, s: Sys, i: nat, ops: seq<Op>, longest: seq<Entry>, c: nat)
    requires RepOk(r, s, i) && ValidLog(s, s.nodes[i].log) && r.raft.lastApplied <= c < |longest|
    requires Same(s.nodes[i].log, longest, r.raft.lastApplied + 1) && ops == Commands(longest, c)
    ensures ReplicaExplained(ops, r)
  {
    var log := s.nodes[i].log;
    PrefixExplains(s, ops, log, r.raft.lastApplied, longest, c);
    PrefixExplains(s, ops, log, r.raft.log[0].index, longest, c);
  }

  /** Snapshot cut independence: wherever replicas snapshotted, crashed, or installed the snapshot of
      another, restoring the stored snapshot and replaying the operations after it gives the state that
      one uninterrupted replay gives. */
  lemma CutsDoNotMatter(n: nat, cs: seq<Cluster>) returns (ops: seq<Op>)
    requires n > 0 && IsRun(n, cs)
    ensures forall k: nat, i: nat | At(cs, k, i) ::
      var r := cs[k].reps[i];
      && |r.raft.log| > 0 && 0 <= r.raft.log[0].index <= r.raft.lastApplied <= |ops|
      && r.kv == Replay(INIT, ops[..r.raft.lastApplied])
      && r.kv == Replay(Restore(INIT, r.raft.snapshot), ops[r.raft.log[0].index..r.raft.lastApplied])
  {
    ops := OneHistory(n, cs);
    forall k: nat, i: nat | At(cs, k, i)
      ensures var r := cs[k].reps[i];
        && |r.raft.log| > 0 && 0 <= r.raft.log[0].index <= r.raft.lastApplied <= |ops|
        && r.kv == Replay(INIT, ops[..r.raft.lastApplied])
        && r.kv == Replay(Restore(INIT, r.raft.snapshot), ops[r.raft.log[0].index..r.raft.lastApplied])
    {
      HandlersInRange(n, cs, k);
      assert ReplicaExplained(ops, cs[k].reps[i]);
      var first, applied := cs[k].reps[i].raft.log[0].index, Applied(cs, k, i);
      ReplaySplit(INIT, ops[..first], ops[first..applied]);
      assert ops[..first] + ops[first..applied] == ops[..applied];
    }
  }

  lemma RunSize(cs: seq<Cluster>, ss: seq<Sys>, k: nat)
    requires Behind(cs, ss) && k < |cs|
    ensures |cs[k].reps| == |cs[0].reps|
  {
    assert R(cs[0], ss[0]) && R(cs[k], ss[k]) && Grows(ss[0], ss[k]);
  }
}
