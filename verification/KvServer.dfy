/** The apply loop of src/kvraft/server.go: duplicate suppression, snapshot and restore, as an
    object updated in place and as laws about the log it is fed. */
module KvServer {
  import opened KvState
  import RaftNode
  import RaftServer

  class KVServer {
    var lastApplied: int
    var store: Store
    var maxReq: map<int, int>
    var lastReply: map<int, Reply>

    function View(): State
      reads this
    {
      State(store, maxReq, lastReply)
    }

    /** Every client with a recorded request has a cached reply. */
    predicate Valid()
      reads this
    {
      maxReq.Keys == lastReply.Keys
    }

    constructor (data: Snapshot)
      requires data.SnapshotOf? ==> data.state.maxReq.Keys == data.state.lastReply.Keys
      ensures Valid() && View() == Restore(INIT, data) && lastApplied == -1
    {
      lastApplied := -1;
      store, maxReq, lastReply := map[], map[], map[];
      new;
      RestoreSnapShot(data);
    }

    method RestoreSnapShot(data: Snapshot)
      requires data.SnapshotOf? ==> data.state.maxReq.Keys == data.state.lastReply.Keys
      modifies this
      ensures View() == Restore(old(View()), data) && lastApplied == old(lastApplied)
      ensures old(Valid()) ==> Valid()
    {
      if data.NoSnapshot? {
        return;
      }
      store, maxReq, lastReply := data.state.store, data.state.maxReq, data.state.lastReply;
    }

    /** Hands the whole state to Raft, as of a log index. */
    method TakeSnapShot(index: int, rf: RaftNode.Raft)
      requires rf.Valid()
      modifies rf, rf.persister
      ensures rf.View() == RaftServer.TakeSnapshot(old(rf.View()), index, SnapshotOf(View()))
      ensures View() == old(View()) && (index <= rf.commitIndex ==> rf.Valid())
    {
      rf.TakeSnapshot(index, SnapshotOf(State(store, maxReq, lastReply)));
    }

    method ApplyToStateMachine(op: Op) returns (reply: Reply)
      modifies this`store
      ensures (store, reply) == Execute(old(store), op)
    {
      reply := Reply(NoErr, "");
      match op.kind {
        case OpGet =>
          if op.key in store {
            reply := Reply(OK, store[op.key]);
          } else {
            reply := Reply(NoKey, "");
          }
        case OpPut =>
          store := store[op.key := op.value];
          reply := Reply(OK, "");
        case OpAppend =>
          store := store[op.key := Lookup(store, op.key) + op.value];
          reply := Reply(OK, "");
        case OpOther(_) =>
      }
    }

    /** One delivered command.  Indices already applied are dropped; a duplicate request gets the
        cached reply and has no effect. */
    method ApplyCommand(index: int, op: Op) returns (applied: bool, reply: Reply)
      requires Valid()
      modifies this
      ensures Valid() && applied == (index > old(lastApplied))
      ensures lastApplied == if applied then index else old(lastApplied)
      ensures View() == if applied then ApplyOp(old(View()), op) else old(View())
      ensures applied ==> op.clientId in lastReply && reply == lastReply[op.clientId]
      ensures applied && !Stale(old(View()), op) ==> reply == Execute(old(store), op).1
    {
      reply := Reply(NoErr, "");
      if index <= lastApplied {
        return false, reply;
      }
      lastApplied := index;
      if op.clientId in maxReq && maxReq[op.clientId] >= op.reqSeq {
        reply := lastReply[op.clientId];
      } else {
        reply := ApplyToStateMachine(op);
        lastReply := lastReply[op.clientId := reply];
        maxReq := maxReq[op.clientId := op.reqSeq];
      }
      applied := true;
    }
  }

  // ---------- At-most-once ----------

  /** The operations that take effect, in order. */
  function Executed(s: State, ops: seq<Op>): seq<Op> {
    if |ops| == 0 then []
    else
      var n := |ops| - 1;
      Executed(s, ops[..n]) + if Stale(Replay(s, ops[..n]), ops[n]) then [] else [ops[n]]
  }

  /** Plain execution, without a duplicate table. */
  function ExecuteAll(store: Store, ops: seq<Op>): Store {
    if |ops| == 0 then store else Execute(ExecuteAll(store, ops[..|ops| - 1]), ops[|ops| - 1]).0
  }

  lemma ExecuteAllSnoc(store: Store, ops: seq<Op>, op: Op)
    ensures ExecuteAll(store, ops + [op]) == Execute(ExecuteAll(store, ops), op).0
  {
    assert (ops + [op])[..|ops|] == ops;
  }

  /** The store is the plain execution of the operations that took effect. */
  lemma {:induction false} StoreIsExecuted(s: State, ops: seq<Op>)
    ensures Replay(s, ops).store == ExecuteAll(s.store, Executed(s, ops))
  {
    if |ops| > 0 {
      var n := |ops| - 1;
      StoreIsExecuted(s, ops[..n]);
      var before := Executed(s, ops[..n]);
      ExecuteAllSnoc(s.store, before, ops[n]);
      assert before + [] == before;
    }
  }

  /** Along a log, a client's entry in the duplicate table is the request number of the last of
      its operations that took effect, and the cached reply is that operation's own reply. */
  ghost predicate TableTracks(s: State, done: seq<Op>, t: State) {
    && (forall i | 0 <= i < |done| :: done[i].clientId in t.maxReq && done[i].reqSeq <= t.maxReq[done[i].clientId])
    && (forall c | c in t.maxReq :: LastOf(s, done, t, c))
  }

  ghost predicate LastOf(s: State, done: seq<Op>, t: State, c: int)
    requires c in t.maxReq
  {
    || (c in s.maxReq && t.maxReq[c] == s.maxReq[c]
      && (c in s.lastReply ==> c in t.lastReply && t.lastReply[c] == s.lastReply[c]))
    || exists p :: IsLast(s, done, t, c, p)
  }

  ghost predicate IsLast(s: State, done: seq<Op>, t: State, c: int, p: int)
    requires c in t.maxReq
  {
    && 0 <= p < |done| && done[p].clientId == c && done[p].reqSeq == t.maxReq[c]
    && c in t.lastReply && t.lastReply[c] == Execute(ExecuteAll(s.store, done[..p]), done[p]).1
  }

  lemma {:induction false} TableTracksLog(s: State, ops: seq<Op>)
    ensures TableTracks(s, Executed(s, ops), Replay(s, ops))
  {
    if |ops| > 0 {
      var n := |ops| - 1;
      TableTracksLog(s, ops[..n]);
      StoreIsExecuted(s, ops[..n]);
      var before, t, op := Executed(s, ops[..n]), Replay(s, ops[..n]), ops[n];
      if Stale(t, op) {
        assert Executed(s, ops) == before;
      } else {
        TableTracksStep(s, before, t, op);
      }
    }
  }

  lemma TableTracksStep(s: State, done: seq<Op>, t: State, op: Op)
    requires TableTracks(s, done, t) && !Stale(t, op) && t.store == ExecuteAll(s.store, done)
    ensures TableTracks(s, done + [op], ApplyOp(t, op))
  {
    var done', t' := done + [op], ApplyOp(t, op);
    forall c | c in t'.maxReq ensures LastOf(s, done', t', c) {
      if c == op.clientId {
        assert done'[..|done|] == done;
        assert IsLast(s, done', t', c, |done|);
      } else {
        assert LastOf(s, done, t, c);
        if p :| IsLast(s, done, t, c, p) {
          assert done'[..p] == done[..p];
          assert IsLast(s, done', t', c, p);
        }
      }
    }
  }

  /** Each client's operations carry strictly increasing request numbers. */
  predicate Increasing(ops: seq<Op>) {
    forall i, j | 0 <= i < j < |ops| && ops[i].clientId == ops[j].clientId :: ops[i].reqSeq < ops[j].reqSeq
  }

  /** At most once: no client request takes effect twice, or after a later one. */
  lemma {:induction false} ExecutedIncreasing(s: State, ops: seq<Op>)
    ensures Increasing(Executed(s, ops))
  {
    if |ops| > 0 {
      var n := |ops| - 1;
      ExecutedIncreasing(s, ops[..n]);
      TableTracksLog(s, ops[..n]);
    }
  }

  predicate SameRequest(a: Op, b: Op) {
    a.clientId == b.clientId && a.reqSeq == b.reqSeq
  }

  predicate Seen(ops: seq<Op>, op: Op) {
    exists i | 0 <= i < |ops| :: SameRequest(ops[i], op)
  }

  /** The operations of the log without retries of requests seen before. */
  function FirstOccurrences(ops: seq<Op>): seq<Op> {
    if |ops| == 0 then []
    else
      var n := |ops| - 1;
      FirstOccurrences(ops[..n]) + if Seen(ops[..n], ops[n]) then [] else [ops[n]]
  }

  lemma SeenSnoc(ops: seq<Op>, x: Op, op: Op)
    ensures Seen(ops + [x], op) <==> Seen(ops, op) || SameRequest(x, op)
  {
    var all := ops + [x];
    if i :| 0 <= i < |ops| && SameRequest(ops[i], op) {
      assert SameRequest(all[i], op);
    }
    assert all[|ops|] == x;
  }

  lemma {:induction false} FirstsCover(ops: seq<Op>, op: Op)
    ensures Seen(ops, op) <==> Seen(FirstOccurrences(ops), op)
  {
    if |ops| > 0 {
      var n := |ops| - 1;
      var fs := FirstOccurrences(ops[..n]);
      FirstsCover(ops[..n], op);
      assert ops == ops[..n] + [ops[n]];
      SeenSnoc(ops[..n], ops[n], op);
      if Seen(ops[..n], ops[n]) {
        assert fs + [] == fs;
      } else {
        SeenSnoc(fs, ops[n], op);
      }
    }
  }

  /** Exactly when each client's first occurrences are in order, they are what takes effect: the
      store is then the plain execution of the log with the retries removed. */
  lemma ExactlyOnceIff(ops: seq<Op>)
    ensures Executed(INIT, ops) == FirstOccurrences(ops) <==> Increasing(FirstOccurrences(ops))
    ensures Increasing(FirstOccurrences(ops)) ==> Replay(INIT, ops).store == ExecuteAll(map[], FirstOccurrences(ops))
  {
    ExecutedIncreasing(INIT, ops);
    StoreIsExecuted(INIT, ops);
    if Increasing(FirstOccurrences(ops)) {
      OrderedExecutesFirsts(ops);
    }
  }

  lemma SeenIsStale(ops: seq<Op>, op: Op)
    requires Executed(INIT, ops) == FirstOccurrences(ops) && Seen(ops, op)
    ensures Stale(Replay(INIT, ops), op)
  {
    FirstsCover(ops, op);
    TableTracksLog(INIT, ops);
  }

  lemma LaterIsFresh(ops: seq<Op>, op: Op)
    requires Increasing(Executed(INIT, ops) + [op])
    ensures !Stale(Replay(INIT, ops), op)
  {
    TableTracksLog(INIT, ops);
    var done, t := Executed(INIT, ops), Replay(INIT, ops);
    if op.clientId in t.maxReq {
      assert LastOf(INIT, done, t, op.clientId);
      var p :| IsLast(INIT, done, t, op.clientId, p);
      assert (done + [op])[p] == done[p] && (done + [op])[|done|] == op;
    }
  }

  lemma {:induction false} OrderedExecutesFirsts(ops: seq<Op>)
    requires Increasing(FirstOccurrences(ops))
    ensures Executed(INIT, ops) == FirstOccurrences(ops)
  {
    if |ops| > 0 {
      var n := |ops| - 1;
      var fs := FirstOccurrences(ops[..n]);
      assert forall i | 0 <= i < |fs| :: FirstOccurrences(ops)[i] == fs[i];
      OrderedExecutesFirsts(ops[..n]);
      if Seen(ops[..n], ops[n]) {
        SeenIsStale(ops[..n], ops[n]);
      } else {
        LaterIsFresh(ops[..n], ops[n]);
      }
    }
  }

  // ---------- Replaying in parts ----------

  /** Replaying a log in two parts is replaying it in one. */
  lemma {:induction false} ReplaySplit(s: State, a: seq<Op>, b: seq<Op>)
    ensures Replay(s, a + b) == Replay(Replay(s, a), b)
  {
    if |b| == 0 {
      assert a + b == a;
    } else {
      var n := |b| - 1;
      assert (a + b)[..|a| + n] == a + b[..n];
      ReplaySplit(s, a, b[..n]);
    }
  }
}
