/** Log entries, roles and log comparison shared by the models of src/raft. */
module RaftTypes {
  import opened KvState

  /** The payload of a log entry: nil for the dummy entry, a command otherwise. */
  datatype Data = Nil | Cmd(op: Op)

  datatype Entry = Entry(term: int, index: int, data: Data)

  datatype Role = Follower | Candidate | Leader

  const NOBODY := -1

  /** The entry every log starts from. */
  const DUMMY := Entry(-1, 0, Nil)

  /** The first `k` entries of the two logs are the same. */
  predicate Same(a: seq<Entry>, b: seq<Entry>, k: int) {
    k <= |a| && k <= |b| && forall j | 0 <= j < k :: a[j] == b[j]
  }

  predicate Prefix(a: seq<Entry>, b: seq<Entry>) {
    Same(a, b, |a|)
  }

  predicate Quorum(q: set<nat>, n: nat) {
    (forall v | v in q :: v < n) && |q| > n / 2
  }

  function LastTerm(log: seq<Entry>): int
    requires |log| > 0
  {
    log[|log| - 1].term
  }

  /** The state machine after entries 1..k of a full log. */
  function ReplayTo(log: seq<Entry>, k: nat): State
    requires k < |log|
  {
    if k == 0 then INIT else ApplyEntry(ReplayTo(log, k - 1), log[k])
  }

  function ApplyEntry(s: State, e: Entry): State {
    if e.data.Nil? then s else ApplyOp(s, e.data.op)
  }

  lemma {:induction false} SameReplay(a: seq<Entry>, b: seq<Entry>, k: nat)
    requires Same(a, b, k + 1)
    ensures ReplayTo(a, k) == ReplayTo(b, k)
  {
    if k > 0 {
      SameReplay(a, b, k - 1);
    }
  }

  lemma {:induction false} SubsetSize(a: set<nat>, n: nat)
    requires forall v | v in a :: v < n
    ensures |a| <= n
  {
    if n > 0 {
      SubsetSize(a - {n - 1}, n - 1);
    } else {
      assert a == {};
    }
  }

  /** Any two quorums share a server. */
  lemma QuorumsMeet(a: set<nat>, b: set<nat>, n: nat) returns (v: nat)
    requires Quorum(a, n) && Quorum(b, n)
    ensures v in a && v in b && v < n
  {
    SubsetSize(a + b, n);
    assert |a + b| == |a| + |b| - |a * b|;
    assert |a * b| > 0;
    v :| v in a * b;
  }
}
