/** What it means that the key/value model accepts an order of operations. */
module KvOrders {
  import opened ClientView
  import opened KvModel
  import opened LinearSearch
  import opened Operations

  function WriteOf(inp: KvInput): Write {
    if inp.op == 0 then NoWrite else if inp.op == 1 then PutTo(inp.key, inp.value) else AppendTo(inp.key, inp.value)
  }

  function WritesOf(order: seq<KvOperation>): (ws: seq<Write>)
    ensures |ws| == |order|
  {
    seq(|order|, i requires 0 <= i < |order| => WriteOf(order[i].input))
  }

  /** Gets return a value, and so do operations of an unnamed code. */
  predicate Returns(inp: KvInput) {
    inp.op == 0 || inp.op > 2
  }

  /** The operation returned what the ones before it left in its key. */
  predicate ReadRight(order: seq<KvOperation>, i: nat)
    requires i < |order|
  {
    Returns(order[i].input) ==> order[i].output.value == ValueOf(WritesOf(order[..i]), order[i].input.key)
  }

  predicate ReadsRight(order: seq<KvOperation>) {
    forall i | 0 <= i < |order| :: ReadRight(order, i)
  }

  /** The store holds what the first `k` operations left. */
  ghost predicate Left(store: Store, order: seq<KvOperation>, k: nat)
    requires k <= |order|
  {
    forall key :: Value(store, key) == ValueOf(WritesOf(order[..k]), key)
  }

  lemma WritesNext(order: seq<KvOperation>, k: nat)
    requires k < |order|
    ensures WritesOf(order[..k + 1]) == WritesOf(order[..k]) + [WriteOf(order[k].input)]
  {
  }

  /** One step of the model is one more write. */
  lemma StepWrites(store: Store, ws: seq<Write>, inp: KvInput, out: KvOutput, key: string)
    requires Value(store, key) == ValueOf(ws, key)
    ensures Value(StepStore(store, inp, out).1, key) == ValueOf(ws + [WriteOf(inp)], key)
  {
    ValueNext(ws, WriteOf(inp), key);
  }

  lemma LeftNext(store: Store, order: seq<KvOperation>, k: nat)
    requires k < |order| && Left(store, order, k)
    ensures Left(StepStore(store, order[k].input, order[k].output).1, order, k + 1)
  {
    var store' := StepStore(store, order[k].input, order[k].output).1;
    WritesNext(order, k);
    forall key ensures Value(store', key) == ValueOf(WritesOf(order[..k + 1]), key) {
      StepWrites(store, WritesOf(order[..k]), order[k].input, order[k].output, key);
    }
  }

  lemma StepReads(store: Store, order: seq<KvOperation>, k: nat)
    requires k < |order| && Left(store, order, k)
    ensures StepStore(store, order[k].input, order[k].output).0 <==> ReadRight(order, k)
  {
    assert Value(store, order[k].input.key) == ValueOf(WritesOf(order[..k]), order[k].input.key);
  }

  lemma {:induction false} AcceptedFrom(store: Store, order: seq<KvOperation>, k: nat)
    requires k <= |order| && Left(store, order, k)
    ensures Accepted(WHOLE_MAP, store, order[k..]) <==> forall i: nat | k <= i < |order| :: ReadRight(order, i)
    decreases |order| - k
  {
    if k < |order| {
      LeftNext(store, order, k);
      StepReads(store, order, k);
      var next := StepStore(store, order[k].input, order[k].output).1;
      AcceptedFrom(next, order, k + 1);
      assert order[k..][0] == order[k] && order[k..][1..] == order[k + 1..];
    }
  }

  /** The model accepts an order exactly when every operation that returns a value returns the value of the
      last put of its key before it, followed by the appends after that put. */
  lemma AcceptedIff(order: seq<KvOperation>)
    ensures Accepted(WHOLE_MAP, map[], order) <==> ReadsRight(order)
  {
    assert order[0..] == order && WritesOf(order[..0]) == [];
    AcceptedFrom(map[], order, 0);
  }

  /** Some order of the operations respects time and explains what each of them returned. */
  ghost predicate Explained(ops: seq<KvOperation>) {
    exists order :: multiset(order) == multiset(ops) && InRealTime(order) && ReadsRight(order)
  }

  lemma LinearizableIff(ops: seq<KvOperation>)
    ensures OpsLinearizable(WHOLE_MAP, ops) <==> Explained(ops)
  {
    if OpsLinearizable(WHOLE_MAP, ops) {
      var order :| Linearizes(WHOLE_MAP, WHOLE_MAP.init, ops, order);
      AcceptedIff(order);
      assert ReadsRight(order);
    }
    if Explained(ops) {
      var order :| multiset(order) == multiset(ops) && InRealTime(order) && ReadsRight(order);
      AcceptedIff(order);
      assert Linearizes(WHOLE_MAP, WHOLE_MAP.init, ops, order);
    }
  }
}
