/** The replicated key/value state machine of src/kvraft: operations, replies, the
    duplicate table, and the effect of one committed operation. */
module KvState {

  datatype OpKind = OpPut | OpAppend | OpGet | OpOther(code: nat)

  datatype Err = NoErr | OK | NoKey | WrongLeader | TimeOut | Duplicate

  datatype Op = Op(kind: OpKind, key: string, value: string, clientId: int, reqSeq: int)

  datatype Reply = Reply(err: Err, value: string)

  type Store = map<string, string>

  /** What a snapshot encodes: the store, the highest request applied for each client,
      and the reply computed for that request. */
  datatype State = State(store: Store, maxReq: map<int, int>, lastReply: map<int, Reply>)

  /** The bytes handed to Raft: none yet, or an encoded state. */
  datatype Snapshot = NoSnapshot | SnapshotOf(state: State)

  const INIT := State(map[], map[], map[])

  function Lookup(store: Store, key: string): string {
    if key in store then store[key] else ""
  }

  function Execute(store: Store, op: Op): (Store, Reply) {
    match op.kind
    case OpGet => (store, if op.key in store then Reply(OK, store[op.key]) else Reply(NoKey, ""))
    case OpPut => (store[op.key := op.value], Reply(OK, ""))
    case OpAppend => (store[op.key := Lookup(store, op.key) + op.value], Reply(OK, ""))
    case OpOther(_) => (store, Reply(NoErr, ""))
  }

  /** True when the duplicate table says that `op` has been executed or overtaken. */
  predicate Stale(s: State, op: Op) {
    op.clientId in s.maxReq && s.maxReq[op.clientId] >= op.reqSeq
  }

  function ApplyOp(s: State, op: Op): State {
    if Stale(s, op) then s
    else
      var (store, reply) := Execute(s.store, op);
      State(store, s.maxReq[op.clientId := op.reqSeq], s.lastReply[op.clientId := reply])
  }

  /** A snapshot replaces the state; no snapshot leaves it alone. */
  function Restore(s: State, data: Snapshot): State {
    if data.NoSnapshot? then s else data.state
  }

  function Replay(s: State, ops: seq<Op>): State {
    if |ops| == 0 then s else ApplyOp(Replay(s, ops[..|ops| - 1]), ops[|ops| - 1])
  }
}
