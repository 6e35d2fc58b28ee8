/** What clients of the replicated service read. */
module KvReads {
  import opened ClientView
  import K = KvModel
  import O = Operations
  import Orders = KvOrders
  import opened KvServer
  import opened KvState
  import opened RaftCluster
  import opened RaftSafety
  import opened Replication

  // The answers of src/kvraft/server.go said without its store: by the positions of the operations that
  // took effect, and by the model that the linearizability checker tests them against.

  // ---------- One operation ----------

  function WriteOf(op: Op): Write {
    match op.kind
    case OpPut => PutTo(op.key, op.value)
    case OpAppend => AppendTo(op.key, op.value)
    case OpGet => NoWrite
    case OpOther(_) => NoWrite
  }

  /** What a Get of the key is answered. */
  function Answer(store: Store, key: string): Reply {
    Execute(store, Op(OpGet, key, "", 0, 0)).1
  }

  /** A Get is answered the value put, or the old value followed by the one appended; operations on other
      keys, and Gets, change no answer. */
  lemma AnswerAfter(store: Store, op: Op, key: string)
    ensures var before, after := Answer(store, key), Answer(Execute(store, op).0, key);
      && (Puts(WriteOf(op), key) ==> after == Reply(OK, op.value))
      && (Appends(WriteOf(op), key) ==> after == Reply(OK, before.value + op.value))
      && (!Puts(WriteOf(op), key) && !Appends(WriteOf(op), key) ==> after == before)
    ensures op.kind == OpGet ==> Execute(store, op) == (store, Answer(store, op.key))
  {
  }

  // ---------- Logs ----------

  function WritesOf(ops: seq<Op>): (ws: seq<Write>)
    ensures |ws| == |ops|
  {
    seq(|ops|, i requires 0 <= i < |ops| => WriteOf(ops[i]))
  }

  /** The reply an operation must get after the given writes. */
  function ReplyAfter(ws: seq<Write>, op: Op): Reply {
    match op.kind
    case OpGet => if Written(ws, op.key) then Reply(OK, ValueOf(ws, op.key)) else Reply(NoKey, "")
    case OpPut => Reply(OK, "")
    case OpAppend => Reply(OK, "")
    case OpOther(_) => Reply(NoErr, "")
  }

  lemma WritesNext(ops: seq<Op>, op: Op)
    ensures WritesOf(ops + [op]) == WritesOf(ops) + [WriteOf(op)]
  {
  }

  lemma SplitWrites(ops: seq<Op>)
    requires |ops| > 0
    ensures WritesOf(ops) == WritesOf(ops[..|ops| - 1]) + [WriteOf(ops[|ops| - 1])]
  {
    assert ops == ops[..|ops| - 1] + [ops[|ops| - 1]];
    WritesNext(ops[..|ops| - 1], ops[|ops| - 1]);
  }

  /** The store holds exactly the written keys, with their values. */
  predicate Holds(store: Store, ws: seq<Write>, key: string) {
    (key in store <==> Written(ws, key)) && Lookup(store, key) == ValueOf(ws, key)
  }

  lemma LookupAfter(store: Store, op: Op, key: string)
    ensures var after, w := Execute(store, op).0, WriteOf(op);
      && Lookup(after, key)
        == (if Puts(w, key) then w.value else Lookup(store, key) + if Appends(w, key) then w.value else "")
      && (key in after <==> key in store || Puts(w, key) || Appends(w, key))
  {
  }

  lemma HoldsNext(store: Store, ws: seq<Write>, op: Op, key: string)
    requires Holds(store, ws, key)
    ensures Holds(Execute(store, op).0, ws + [WriteOf(op)], key)
  {
    LookupAfter(store, op, key);
    ValueNext(ws, WriteOf(op), key);
    WrittenNext(ws, WriteOf(op), key);
  }

  lemma {:induction false} StoreHolds(ops: seq<Op>, key: string)
    ensures Holds(ExecuteAll(map[], ops), WritesOf(ops), key)
  {
    if |ops| > 0 {
      var n := |ops| - 1;
      StoreHolds(ops[..n], key);
      HoldsNext(ExecuteAll(map[], ops[..n]), WritesOf(ops[..n]), ops[n], key);
      SplitWrites(ops);
    }
  }

  lemma ReplyIsRight(ops: seq<Op>, op: Op)
    ensures Execute(ExecuteAll(map[], ops), op).1 == ReplyAfter(WritesOf(ops), op)
  {
    StoreHolds(ops, op.key);
  }

  /** The client's last operation that took effect is at `p`, and its cached reply is the right one. */
  ghost predicate Answered(done: seq<Op>, t: State, client: int, p: int) {
    && 0 <= p < |done| && done[p].clientId == client && (forall q | p < q < |done| :: done[q].clientId != client)
    && client in t.lastReply && t.lastReply[client] == ReplyAfter(WritesOf(done[..p]), done[p])
  }

  lemma LastIsAnswered(ops: seq<Op>, client: int, p: int)
    requires var done, t := Executed(INIT, ops), Replay(INIT, ops);
      client in t.maxReq && IsLast(INIT, done, t, client, p)
    ensures Answered(Executed(INIT, ops), Replay(INIT, ops), client, p)
  {
    var done, t := Executed(INIT, ops), Replay(INIT, ops);
    ReplyIsRight(done[..p], done[p]);
    TableTracksLog(INIT, ops);
    ExecutedIncreasing(INIT, ops);
    forall q | p < q < |done| ensures done[q].clientId != client {
      assert done[q].clientId in t.maxReq && done[q].reqSeq <= t.maxReq[done[q].clientId];
    }
  }

  /** For every log: the reply kept for a client is the one its last operation that took effect must get.
      For a Get that is the last value put before it, followed by what was appended since. */
  lemma CachedReplies(ops: seq<Op>, client: int)
    requires client in Replay(INIT, ops).maxReq
    ensures exists p :: Answered(Executed(INIT, ops), Replay(INIT, ops), client, p)
  {
    var done, t := Executed(INIT, ops), Replay(INIT, ops);
    TableTracksLog(INIT, ops);
    assert LastOf(INIT, done, t, client);
    var p :| IsLast(INIT, done, t, client, p);
    LastIsAnswered(ops, client, p);
  }

  // ---------- Runs ----------

  /** The replica holds what the first operations of the history left, and has answered accordingly. */
  ghost predicate Serves(ops: seq<Op>, r: Replica) {
    && 0 <= r.raft.lastApplied <= |ops|
    && var done := Executed(INIT, ops[..r.raft.lastApplied]);
    && (forall key :: key in r.kv.store <==> Written(WritesOf(done), key))
    && (forall key | key in r.kv.store :: r.kv.store[key] == ValueOf(WritesOf(done), key))
    && (forall client | client in r.kv.maxReq :: exists p :: Answered(done, r.kv, client, p))
  }

  /** Over every run there is one history of operations such that, at any time, each replica holds what the
      part it has applied left in every key, and has given every client the right answer. */
  lemma ClientsRead(n: nat, cs: seq<Cluster>) returns (ops: seq<Op>)
    requires n > 0 && IsRun(n, cs)
    ensures forall k: nat, i: nat | At(cs, k, i) :: Serves(ops, cs[k].reps[i])
  {
    ops := OneHistory(n, cs);
    forall k: nat, i: nat | At(cs, k, i) ensures Serves(ops, cs[k].reps[i]) {
      assert ReplicaExplained(ops, cs[k].reps[i]);
      ExplainedServes(ops, cs[k].reps[i]);
    }
  }

  lemma ExplainedServes(ops: seq<Op>, r: Replica)
    requires ReplicaExplained(ops, r)
    ensures Serves(ops, r)
  {
    var applied := ops[..r.raft.lastApplied];
    var done := Executed(INIT, applied);
    forall key
      ensures key in r.kv.store <==> Written(WritesOf(done), key)
      ensures key in r.kv.store ==> r.kv.store[key] == ValueOf(WritesOf(done), key)
    {
      StoreHolds(done, key);
    }
    forall client | client in r.kv.maxReq ensures exists p :: Answered(done, r.kv, client, p) {
      CachedReplies(applied, client);
    }
  }

  // ---------- The checker's model ----------

  /** The operation as the checker sees it; it has no name for other codes, which clients never send. */
  function InputOf(op: Op): K.KvInput {
    K.KvInput(if op.kind == OpPut then 1 else if op.kind == OpAppend then 2 else 0, op.key, op.value)
  }

  /** The model's step accepts every reply of the service, and leaves in the key what the service does. */
  lemma StepAccepts(store: Store, op: Op)
    requires !op.kind.OpOther?
    ensures var (after, reply) := Execute(store, op);
      && K.Step(Lookup(store, op.key), InputOf(op), K.KvOutput(reply.value)) == (true, Lookup(after, op.key))
      && forall key | key != op.key :: Lookup(after, key) == Lookup(store, key)
  {
  }

  /** What clients observe of executed operations that were called and returned at the given times. */
  function Observed(done: seq<Op>, times: seq<(int, int)>): seq<K.KvOperation>
    requires |times| == |done|
  {
    if |done| == 0 then []
    else
      var n := |done| - 1;
      Observed(done[..n], times[..n]) + if done[n].kind.OpOther? then [] else [ObservedAt(done, times, n)]
  }

  function ObservedAt(done: seq<Op>, times: seq<(int, int)>, n: nat): K.KvOperation
    requires n < |done| == |times|
  {
    var reply := Execute(ExecuteAll(map[], done[..n]), done[n]).1;
    O.Operation(done[n].clientId, InputOf(done[n]), times[n].0, K.KvOutput(reply.value), times[n].1)
  }

  /** An operation that took effect earlier was not called after a later one had returned. */
  predicate TimesAgree(times: seq<(int, int)>) {
    forall a, b | 0 <= a < b < |times| :: times[a].0 <= times[b].1
  }

  lemma OrderNext(order: seq<K.KvOperation>, x: K.KvOperation)
    ensures Orders.WritesOf(order + [x]) == Orders.WritesOf(order) + [Orders.WriteOf(x.input)]
  {
  }

  /** Equal values stay equal under equal writes, and under operations that write nothing. */
  lemma SameValue(ws: seq<Write>, vs: seq<Write>, w: Write, key: string)
    requires ValueOf(ws, key) == ValueOf(vs, key)
    ensures ValueOf(ws + [w], key) == ValueOf(vs + [w], key)
    ensures w.NoWrite? ==> ValueOf(ws, key) == ValueOf(vs + [w], key)
  {
    ValueNext(ws, w, key);
    ValueNext(vs, w, key);
  }

  /** Observed operations leave in every key what the executed ones do. */
  lemma {:induction false} ObservedWrites(done: seq<Op>, times: seq<(int, int)>, key: string)
    requires |times| == |done|
    ensures ValueOf(Orders.WritesOf(Observed(done, times)), key) == ValueOf(WritesOf(done), key)
  {
    if |done| > 0 {
      var n := |done| - 1;
      var before := Observed(done[..n], times[..n]);
      ObservedWrites(done[..n], times[..n], key);
      SameValue(Orders.WritesOf(before), WritesOf(done[..n]), WriteOf(done[n]), key);
      SplitWrites(done);
      ObservedNext(done, times, before);
    }
  }

  lemma SameWrite(op: Op)
    requires !op.kind.OpOther?
    ensures Orders.WriteOf(InputOf(op)) == WriteOf(op)
  {
  }

  lemma ObservedNext(done: seq<Op>, times: seq<(int, int)>, before: seq<K.KvOperation>)
    requires |times| == |done| > 0 && before == Observed(done[..|done| - 1], times[..|done| - 1])
    ensures var n, ws := |done| - 1, Orders.WritesOf(before);
      Orders.WritesOf(Observed(done, times)) == if done[n].kind.OpOther? then ws else ws + [WriteOf(done[n])]
  {
    var n := |done| - 1;
    if done[n].kind.OpOther? {
      assert Observed(done, times) == before;
    } else {
      SameWrite(done[n]);
      OrderNext(before, ObservedAt(done, times, n));
    }
  }

  lemma {:induction false} ObservedReads(done: seq<Op>, times: seq<(int, int)>)
    requires |times| == |done|
    ensures Orders.ReadsRight(Observed(done, times))
  {
    if |done| > 0 {
      var n := |done| - 1;
      var before, all := Observed(done[..n], times[..n]), Observed(done, times);
      ObservedReads(done[..n], times[..n]);
      forall i | 0 <= i < |all| ensures Orders.ReadRight(all, i) {
        if i < |before| {
          assert all[..i] == before[..i] && all[i] == before[i];
          assert Orders.ReadRight(before, i);
        } else {
          assert all[..i] == before;
          LastReadsRight(done, times, before);
        }
      }
    }
  }

  lemma LastReadsRight(done: seq<Op>, times: seq<(int, int)>, before: seq<K.KvOperation>)
    requires |times| == |done| > 0 && before == Observed(done[..|done| - 1], times[..|done| - 1])
    requires !done[|done| - 1].kind.OpOther?
    ensures var x := ObservedAt(done, times, |done| - 1);
      Orders.Returns(x.input) ==> x.output.value == ValueOf(Orders.WritesOf(before), x.input.key)
  {
    var n := |done| - 1;
    ReplyIsRight(done[..n], done[n]);
    StoreHolds(done[..n], done[n].key);
    ObservedWrites(done[..n], times[..n], done[n].key);
  }

  lemma {:induction false} ObservedTimes(done: seq<Op>, times: seq<(int, int)>, ret: int)
    requires |times| == |done| && TimesAgree(times) && forall a | 0 <= a < |times| :: times[a].0 <= ret
    ensures O.InRealTime(Observed(done, times))
    ensures forall a | 0 <= a < |Observed(done, times)| :: Observed(done, times)[a].call <= ret
  {
    if |done| > 0 {
      var n := |done| - 1;
      ObservedTimes(done[..n], times[..n], times[n].1);
      ObservedBefore(done[..n], times[..n], ret);
    }
  }

  lemma {:induction false} ObservedBefore(done: seq<Op>, times: seq<(int, int)>, ret: int)
    requires |times| == |done| && forall a | 0 <= a < |times| :: times[a].0 <= ret
    ensures forall a | 0 <= a < |Observed(done, times)| :: Observed(done, times)[a].call <= ret
  {
    if |done| > 0 {
      ObservedBefore(done[..|done| - 1], times[..|done| - 1], ret);
    }
  }

  /** Whatever the log: if operations took effect in an order that respects time, the replies they computed
      make a history that is linearizable against the checker's model, in whatever order it is listed. */
  lemma ServiceLinearizable(done: seq<Op>, times: seq<(int, int)>, history: seq<K.KvOperation>)
    requires |times| == |done| && TimesAgree(times) && multiset(history) == multiset(Observed(done, times))
    ensures O.OpsLinearizable(K.WHOLE_MAP, history)
  {
    var order := Observed(done, times);
    var last := Latest(times);
    ObservedTimes(done, times, last);
    ObservedReads(done, times);
    Orders.AcceptedIff(order);
    assert O.Linearizes(K.WHOLE_MAP, K.WHOLE_MAP.init, history, order);
  }

  lemma {:induction false} Latest(times: seq<(int, int)>) returns (last: int)
    ensures forall a | 0 <= a < |times| :: times[a].0 <= last
  {
    last := 0;
    if |times| > 0 {
      var n := |times| - 1;
      last := Latest(times[..n]);
      last := if times[n].0 > last then times[n].0 else last;
    }
  }
}
