/** The key/value model, its partitioning by key, and why that is sound. */
module KvModel {
  import opened LinearSearch
  import opened Operations
  import opened Sorting

  // The model of src/models/kv.go.  A history of operations is linearizable against the whole map
  // exactly when the part of each key is linearizable against one string.

  datatype KvInput = KvInput(op: nat, key: string, value: string)

  datatype KvOutput = KvOutput(value: string)

  type KvOperation = Operation<KvInput, KvOutput>

  /** One key's value: 0 reads, 1 writes, 2 appends, anything else appends and returns the value before. */
  function Step(s: string, inp: KvInput, out: KvOutput): (bool, string) {
    if inp.op == 0 then (out.value == s, s)
    else if inp.op == 1 then (true, inp.value)
    else if inp.op == 2 then (true, s + inp.value)
    else (out.value == s, s + inp.value)
  }

  const ONE_KEY: Model<string, KvInput, KvOutput> := Model("", Step, (a: string, b: string) => a == b)

  // ---------- The map that clients believe they talk to ----------

  type Store = map<string, string>

  function Value(store: Store, key: string): string {
    if key in store then store[key] else ""
  }

  function StepStore(store: Store, inp: KvInput, out: KvOutput): (bool, Store) {
    var (ok, value) := Step(Value(store, inp.key), inp, out);
    (ok, store[inp.key := value])
  }

  const WHOLE_MAP: Model<Store, KvInput, KvOutput> := Model(map[], StepStore, (a: Store, b: Store) => a == b)

  // ---------- The operations on one key ----------

  function Sub(ops: seq<KvOperation>, key: string): (sub: seq<KvOperation>)
    ensures forall a | 0 <= a < |sub| :: sub[a] in ops && sub[a].input.key == key
  {
    if |ops| == 0 then [] else (if ops[0].input.key == key then [ops[0]] else []) + Sub(ops[1..], key)
  }

  lemma {:induction false} SubConcat(a: seq<KvOperation>, b: seq<KvOperation>, key: string)
    ensures Sub(a + b, key) == Sub(a, key) + Sub(b, key)
  {
    if |a| == 0 {
      assert a + b == b;
    } else {
      SubConcat(a[1..], b, key);
      assert (a + b)[1..] == a[1..] + b;
      Associates(if a[0].input.key == key then [a[0]] else [], Sub(a[1..], key), Sub(b, key));
    }
  }

  lemma {:induction false} SubCount(ops: seq<KvOperation>, key: string, x: KvOperation)
    ensures multiset(Sub(ops, key))[x] == if x.input.key == key then multiset(ops)[x] else 0
  {
    if |ops| > 0 {
      SubCount(ops[1..], key, x);
      assert ops == [ops[0]] + ops[1..];
    }
  }

  lemma SubPermutes(a: seq<KvOperation>, b: seq<KvOperation>, key: string)
    requires multiset(a) == multiset(b)
    ensures multiset(Sub(a, key)) == multiset(Sub(b, key))
  {
    forall x ensures multiset(Sub(a, key))[x] == multiset(Sub(b, key))[x] {
      SubCount(a, key, x);
      SubCount(b, key, x);
    }
  }

  lemma {:induction false} SubInRealTime(order: seq<KvOperation>, key: string)
    requires InRealTime(order)
    ensures InRealTime(Sub(order, key))
  {
    if |order| > 0 {
      var rest := order[1..];
      SubInRealTime(rest, key);
      var sub := Sub(rest, key);
      forall b | 0 <= b < |sub| ensures order[0].call <= sub[b].ret {
        assert sub[b] in rest;
        var c :| 0 <= c < |rest| && rest[c] == sub[b];
        assert order[c + 1] == rest[c];
      }
      if order[0].input.key == key {
        PrependInRealTime(order[0], sub);
      } else {
        assert Sub(order, key) == sub;
      }
    }
  }

  // ---------- A run of the map is a run of each key ----------

  lemma HeadAccepted(store: Store, order: seq<KvOperation>, key: string)
    requires |order| > 0 && Step(Value(store, order[0].input.key), order[0].input, order[0].output).0
    requires var next := StepStore(store, order[0].input, order[0].output).1;
      Accepted(ONE_KEY, Value(next, key), Sub(order[1..], key))
    ensures Accepted(ONE_KEY, Value(store, key), Sub(order, key))
  {
    if key == order[0].input.key {
      assert Sub(order, key)[0] == order[0] && Sub(order, key)[1..] == Sub(order[1..], key);
    } else {
      assert Sub(order, key) == Sub(order[1..], key);
    }
  }

  lemma {:induction false} MapAcceptsEachKey(store: Store, order: seq<KvOperation>)
    requires Accepted(WHOLE_MAP, store, order)
    ensures forall key :: Accepted(ONE_KEY, Value(store, key), Sub(order, key))
    decreases |order|
  {
    if |order| > 0 {
      var next := StepStore(store, order[0].input, order[0].output).1;
      MapAcceptsEachKey(next, order[1..]);
      forall key ensures Accepted(ONE_KEY, Value(store, key), Sub(order, key)) {
        assert Accepted(ONE_KEY, Value(next, key), Sub(order[1..], key));
        HeadAccepted(store, order, key);
      }
    }
  }

  lemma {:induction false} KeysAcceptMap(store: Store, order: seq<KvOperation>)
    requires forall key :: Accepted(ONE_KEY, Value(store, key), Sub(order, key))
    ensures Accepted(WHOLE_MAP, store, order)
    decreases |order|
  {
    if |order| > 0 {
      var first := order[0].input.key;
      var next := StepStore(store, order[0].input, order[0].output).1;
      assert Accepted(ONE_KEY, Value(store, first), Sub(order, first));
      assert Sub(order, first)[0] == order[0] && Sub(order, first)[1..] == Sub(order[1..], first);
      forall key ensures Accepted(ONE_KEY, Value(next, key), Sub(order[1..], key)) {
        assert Accepted(ONE_KEY, Value(store, key), Sub(order, key));
        assert key != first ==> Sub(order, key) == Sub(order[1..], key);
      }
      KeysAcceptMap(next, order[1..]);
    }
  }

  // ---------- Merging one order per key into one order ----------

  type Orders = map<string, seq<KvOperation>>

  function OrderOf(orders: Orders, key: string): seq<KvOperation> {
    if key in orders then orders[key] else []
  }

  /** Each key's order rearranges what is left of that key, in real time. */
  ghost predicate KeyMergeable(rem: seq<KvOperation>, orders: Orders, key: string) {
    multiset(OrderOf(orders, key)) == multiset(Sub(rem, key)) && InRealTime(OrderOf(orders, key))
  }

  ghost predicate Mergeable(rem: seq<KvOperation>, orders: Orders) {
    forall key {:trigger KeyMergeable(rem, orders, key)} :: KeyMergeable(rem, orders, key)
  }

  lemma {:induction false} Earliest(rem: seq<KvOperation>) returns (k: nat)
    requires |rem| > 0
    ensures k < |rem| && forall j | 0 <= j < |rem| :: rem[k].ret <= rem[j].ret
  {
    if |rem| == 1 {
      k := 0;
    } else {
      var rest := rem[1..];
      var r := Earliest(rest);
      assert forall j | 1 <= j < |rem| :: rem[j] == rest[j - 1];
      k := if rem[0].ret <= rest[r].ret then 0 else r + 1;
    }
  }

  /** The operation to place next: the first of the key whose pending operation returns earliest.
      It was called before anything left returned. */
  lemma NextToPlace(rem: seq<KvOperation>, orders: Orders) returns (j: nat)
    requires |rem| > 0 && Timed(rem) && Mergeable(rem, orders)
    ensures j < |rem|
    ensures var order := OrderOf(orders, rem[j].input.key); |order| > 0 && order[0] == rem[j]
    ensures forall i | 0 <= i < |rem| :: rem[j].call <= rem[i].ret
  {
    var k := Earliest(rem);
    var key := rem[k].input.key;
    var order := OrderOf(orders, key);
    assert KeyMergeable(rem, orders, key);
    SubCount(rem, key, rem[k]);
    assert rem[k] in multiset(rem) && rem[k] in multiset(order);
    var p :| 0 <= p < |order| && order[p] == rem[k];
    assert order[0] in multiset(Sub(rem, key));
    var q :| 0 <= q < |Sub(rem, key)| && Sub(rem, key)[q] == order[0];
    assert order[0] in rem;
    j :| 0 <= j < |rem| && rem[j] == order[0];
    assert p > 0 ==> order[0].call <= order[p].ret;
    assert rem[k].call <= rem[k].ret;
  }

  lemma RestMergeable(rem: seq<KvOperation>, orders: Orders, j: nat)
    requires Mergeable(rem, orders) && j < |rem|
    requires var order := OrderOf(orders, rem[j].input.key); |order| > 0 && order[0] == rem[j]
    ensures var key := rem[j].input.key;
      Mergeable(rem[..j] + rem[j + 1..], orders[key := OrderOf(orders, key)[1..]])
  {
    var rest, first := rem[..j] + rem[j + 1..], rem[j].input.key;
    var fewer := orders[first := OrderOf(orders, first)[1..]];
    forall key ensures KeyMergeable(rest, fewer, key) {
      SubWithout(rem, j, key);
      assert KeyMergeable(rem, orders, key);
      if key == first {
        TailMergeable(OrderOf(orders, key));
      }
    }
  }

  lemma TailMergeable(order: seq<KvOperation>)
    requires |order| > 0 && InRealTime(order)
    ensures InRealTime(order[1..]) && multiset(order[1..]) == multiset(order) - multiset{order[0]}
  {
    assert order == [order[0]] + order[1..];
  }

  lemma SubWithout(rem: seq<KvOperation>, j: nat, key: string)
    requires j < |rem|
    ensures multiset(Sub(rem[..j] + rem[j + 1..], key))
         == multiset(Sub(rem, key)) - (if rem[j].input.key == key then multiset{rem[j]} else multiset{})
  {
    var x, a, b := rem[j], rem[..j], rem[j + 1..];
    assert rem == a + ([x] + b);
    SubConcat(a, [x] + b, key);
    SubConcat([x], b, key);
    SubConcat(a, b, key);
    assert Sub([x], key) == if x.input.key == key then [x] else [];
  }

  lemma PrependInRealTime(x: KvOperation, rest: seq<KvOperation>)
    requires InRealTime(rest) && forall b | 0 <= b < |rest| :: x.call <= rest[b].ret
    ensures InRealTime([x] + rest)
  {
  }

  /** Orders for the single keys, each in real time, merge into one order in real time. */
  lemma {:induction false} Merge(rem: seq<KvOperation>, orders: Orders) returns (order: seq<KvOperation>)
    requires Timed(rem) && Mergeable(rem, orders)
    ensures multiset(order) == multiset(rem) && InRealTime(order)
    ensures forall key :: Sub(order, key) == OrderOf(orders, key)
    decreases |rem|
  {
    if |rem| == 0 {
      order := [];
      forall key ensures Sub(order, key) == OrderOf(orders, key) {
        assert KeyMergeable(rem, orders, key);
        assert |OrderOf(orders, key)| == |multiset(OrderOf(orders, key))|;
      }
    } else {
      var j := NextToPlace(rem, orders);
      RestMergeable(rem, orders, j);
      LeftTimed(rem, j);
      var first := rem[j].input.key;
      var rest := Merge(rem[..j] + rem[j + 1..], orders[first := OrderOf(orders, first)[1..]]);
      order := [rem[j]] + rest;
      Placed(rem, orders, j, rest);
    }
  }

  lemma Placed(rem: seq<KvOperation>, orders: Orders, j: nat, rest: seq<KvOperation>)
    requires j < |rem| && forall i | 0 <= i < |rem| :: rem[j].call <= rem[i].ret
    requires var order := OrderOf(orders, rem[j].input.key); |order| > 0 && order[0] == rem[j]
    requires multiset(rest) == multiset(rem[..j] + rem[j + 1..]) && InRealTime(rest)
    requires var first := rem[j].input.key;
      forall key :: Sub(rest, key) == OrderOf(orders[first := OrderOf(orders, first)[1..]], key)
    ensures multiset([rem[j]] + rest) == multiset(rem) && InRealTime([rem[j]] + rest)
    ensures forall key :: Sub([rem[j]] + rest, key) == OrderOf(orders, key)
  {
    var x := rem[j];
    PlacedInTime(rem, j, rest);
    forall key ensures Sub([x] + rest, key) == OrderOf(orders, key) {
      PlacedKey(orders, x, rest, key);
    }
  }

  lemma PlacedKey(orders: Orders, x: KvOperation, rest: seq<KvOperation>, key: string)
    requires var order := OrderOf(orders, x.input.key); |order| > 0 && order[0] == x
    requires Sub(rest, key) == OrderOf(orders[x.input.key := OrderOf(orders, x.input.key)[1..]], key)
    ensures Sub([x] + rest, key) == OrderOf(orders, key)
  {
    SubPrepend(x, rest, key);
  }

  lemma PlacedInTime(rem: seq<KvOperation>, j: nat, rest: seq<KvOperation>)
    requires j < |rem| && forall i | 0 <= i < |rem| :: rem[j].call <= rem[i].ret
    requires multiset(rest) == multiset(rem[..j] + rem[j + 1..]) && InRealTime(rest)
    ensures multiset([rem[j]] + rest) == multiset(rem) && InRealTime([rem[j]] + rest)
  {
    SplitAt(rem, j);
    LeftReturns(rem, j, rest);
    PrependInRealTime(rem[j], rest);
  }

  lemma SubPrepend(x: KvOperation, rest: seq<KvOperation>, key: string)
    ensures Sub([x] + rest, key) == if x.input.key == key then [x] + Sub(rest, key) else Sub(rest, key)
  {
    assert ([x] + rest)[1..] == rest;
  }

  lemma LeftReturns(rem: seq<KvOperation>, j: nat, rest: seq<KvOperation>)
    requires j < |rem| && forall i | 0 <= i < |rem| :: rem[j].call <= rem[i].ret
    requires multiset(rest) == multiset(rem[..j] + rem[j + 1..])
    ensures forall b | 0 <= b < |rest| :: rem[j].call <= rest[b].ret
  {
    forall b | 0 <= b < |rest| ensures rem[j].call <= rest[b].ret {
      assert rest[b] in multiset(rest);
      assert rest[b] in rem[..j] + rem[j + 1..];
    }
  }

  lemma LeftTimed(rem: seq<KvOperation>, j: nat)
    requires Timed(rem) && j < |rem|
    ensures Timed(rem[..j] + rem[j + 1..])
    ensures forall x | x in rem[..j] + rem[j + 1..] :: x in rem
  {
  }

  // ---------- Locality ----------

  ghost predicate EachKeyLinearizable(ops: seq<KvOperation>) {
    forall key :: OpsLinearizable(ONE_KEY, Sub(ops, key))
  }

  lemma WholeGivesEachKey(ops: seq<KvOperation>)
    requires OpsLinearizable(WHOLE_MAP, ops)
    ensures EachKeyLinearizable(ops)
  {
    var order :| Linearizes(WHOLE_MAP, WHOLE_MAP.init, ops, order);
    MapAcceptsEachKey(map[], order);
    forall key ensures OpsLinearizable(ONE_KEY, Sub(ops, key)) {
      SubPermutes(order, ops, key);
      SubInRealTime(order, key);
      assert Accepted(ONE_KEY, Value(map[], key), Sub(order, key));
      assert Linearizes(ONE_KEY, ONE_KEY.init, Sub(ops, key), Sub(order, key));
    }
  }

  ghost function AnOrder(ops: seq<KvOperation>, key: string): (order: seq<KvOperation>)
    requires OpsLinearizable(ONE_KEY, Sub(ops, key))
    ensures Linearizes(ONE_KEY, ONE_KEY.init, Sub(ops, key), order)
  {
    var order :| Linearizes(ONE_KEY, ONE_KEY.init, Sub(ops, key), order);
    order
  }

  function Keys(ops: seq<KvOperation>): set<string> {
    set a | 0 <= a < |ops| :: ops[a].input.key
  }

  lemma OtherKeysEmpty(ops: seq<KvOperation>, key: string)
    ensures key in Keys(ops) <==> |Sub(ops, key)| > 0
  {
    if key in Keys(ops) {
      var a :| 0 <= a < |ops| && ops[a].input.key == key;
      SubCount(ops, key, ops[a]);
      assert ops[a] in multiset(ops);
      assert ops[a] in Sub(ops, key);
    }
    if |Sub(ops, key)| > 0 {
      assert Sub(ops, key)[0] in ops;
    }
  }

  lemma EachKeyGivesWhole(ops: seq<KvOperation>)
    requires Timed(ops) && EachKeyLinearizable(ops)
    ensures OpsLinearizable(WHOLE_MAP, ops)
  {
    var orders: Orders := map key | key in Keys(ops) :: AnOrder(ops, key);
    forall key
      ensures KeyMergeable(ops, orders, key)
      ensures Accepted(ONE_KEY, ONE_KEY.init, OrderOf(orders, key))
    {
      OtherKeysEmpty(ops, key);
      assert OpsLinearizable(ONE_KEY, Sub(ops, key));
    }
    var order := Merge(ops, orders);
    forall key ensures Accepted(ONE_KEY, Value(map[], key), Sub(order, key)) {
      assert Sub(order, key) == OrderOf(orders, key);
    }
    KeysAcceptMap(map[], order);
    assert Linearizes(WHOLE_MAP, WHOLE_MAP.init, ops, order);
  }

  /** What the partitioning relies on. */
  lemma Locality(ops: seq<KvOperation>)
    requires Timed(ops)
    ensures OpsLinearizable(WHOLE_MAP, ops) <==> EachKeyLinearizable(ops)
  {
    if OpsLinearizable(WHOLE_MAP, ops) {
      WholeGivesEachKey(ops);
    }
    if EachKeyLinearizable(ops) {
      EachKeyGivesWhole(ops);
    }
  }

  // ---------- Partitioning ----------

  /** One part for each key of the history, in the order of the keys. */
  ghost predicate Partitions(ops: seq<KvOperation>, keys: seq<string>, parts: seq<seq<KvOperation>>) {
    && |parts| == |keys| && NoRepeats(keys) && Sorted(StrLess, keys)
    && (forall key :: key in keys <==> key in Keys(ops))
    && forall i | 0 <= i < |keys| :: parts[i] == Sub(ops, keys[i])
  }

  lemma GroupNext(ops: seq<KvOperation>, i: nat, key: string)
    requires i < |ops|
    ensures Sub(ops[..i + 1], key) == Sub(ops[..i], key) + if ops[i].input.key == key then [ops[i]] else []
    ensures Keys(ops[..i + 1]) == Keys(ops[..i]) + {ops[i].input.key}
  {
    assert ops[..i + 1] == ops[..i] + [ops[i]];
    SubConcat(ops[..i], [ops[i]], key);
    var more := ops[..i + 1];
    assert more[i].input.key in Keys(more);
    forall k | k in Keys(ops[..i]) ensures k in Keys(more) {
      var a :| 0 <= a < i && ops[..i][a].input.key == k;
      assert more[a].input.key == k;
    }
    forall k | k in Keys(more) ensures k in Keys(ops[..i]) + {ops[i].input.key} {
      var a :| 0 <= a < |more| && more[a].input.key == k;
      assert a < i ==> ops[..i][a].input.key == k;
    }
  }

  method Group(ops: seq<KvOperation>) returns (groups: map<string, seq<KvOperation>>)
    ensures groups.Keys == Keys(ops)
    ensures forall key | key in groups :: groups[key] == Sub(ops, key)
  {
    groups := map[];
    var i := 0;
    while i < |ops|
      invariant 0 <= i <= |ops| && groups.Keys == Keys(ops[..i])
      invariant forall key | key in groups :: groups[key] == Sub(ops[..i], key)
    {
      var key := ops[i].input.key;
      OtherKeysEmpty(ops[..i], key);
      forall k ensures Sub(ops[..i + 1], k) == Sub(ops[..i], k) + (if key == k then [ops[i]] else [])
               ensures Keys(ops[..i + 1]) == Keys(ops[..i]) + {key}
      {
        GroupNext(ops, i, k);
      }
      groups := groups[key := (if key in groups then groups[key] else []) + [ops[i]]];
      i := i + 1;
    }
    assert ops[..|ops|] == ops;
  }

  lemma AppendNoRepeats<T>(s: seq<T>, x: T)
    requires NoRepeats(s) && x !in s
    ensures NoRepeats(s + [x])
  {
  }

  method ListKeys(all: set<string>) returns (keys: seq<string>)
    ensures NoRepeats(keys) && forall key :: key in keys <==> key in all
  {
    keys := [];
    var rest := all;
    while rest != {}
      invariant NoRepeats(keys) && rest <= all
      invariant forall key :: key in keys <==> key in all - rest
    {
      var key :| key in rest;
      AppendNoRepeats(keys, key);
      keys := keys + [key];
      rest := rest - {key};
    }
  }

  method SortKeys(all: set<string>) returns (sorted: seq<string>)
    ensures NoRepeats(sorted) && Sorted(StrLess, sorted) && forall key :: key in sorted <==> key in all
  {
    var keys := ListKeys(all);
    StringsOrdered();
    sorted := Sort(StrLess, keys);
    SortedNoRepeats(keys, sorted);
    SameElements(keys, sorted);
  }

  lemma SameElements<T>(s: seq<T>, r: seq<T>)
    requires multiset(s) == multiset(r)
    ensures forall x :: x in s <==> x in r
  {
    forall x ensures x in s <==> x in r {
      assert x in s <==> x in multiset(s);
      assert x in r <==> x in multiset(r);
    }
  }

  method Partition(ops: seq<KvOperation>) returns (parts: seq<seq<KvOperation>>, ghost keys: seq<string>)
    ensures Partitions(ops, keys, parts)
    ensures |parts| == |Keys(ops)|
    ensures forall i | 0 <= i < |parts| :: |parts[i]| > 0 && parts[i] == Sub(ops, parts[i][0].input.key)
    ensures forall i, j | 0 <= i < j < |parts| :: StrLess(parts[i][0].input.key, parts[j][0].input.key)
  {
    var groups := Group(ops);
    var sorted := SortKeys(groups.Keys);
    keys := sorted;
    parts := [];
    var i := 0;
    while i < |sorted|
      invariant 0 <= i <= |sorted| && |parts| == i
      invariant forall j | 0 <= j < i :: parts[j] == Sub(ops, sorted[j])
    {
      parts := parts + [groups[sorted[i]]];
      i := i + 1;
    }
    PartsOfKeys(ops, keys, parts);
  }

  lemma PartsOfKeys(ops: seq<KvOperation>, keys: seq<string>, parts: seq<seq<KvOperation>>)
    requires Partitions(ops, keys, parts)
    ensures |parts| == |Keys(ops)|
    ensures forall i | 0 <= i < |parts| :: |parts[i]| > 0 && parts[i][0].input.key == keys[i]
    ensures forall i, j | 0 <= i < j < |parts| :: StrLess(keys[i], keys[j])
  {
    NoRepeatsCardinality(keys, Keys(ops));
    forall i | 0 <= i < |parts| ensures |parts[i]| > 0 && parts[i][0].input.key == keys[i] {
      assert keys[i] in keys;
      OtherKeysEmpty(ops, keys[i]);
    }
    forall i, j | 0 <= i < j < |parts| ensures StrLess(keys[i], keys[j]) {
      StrLessTotal(keys[i], keys[j]);
    }
  }

  /** The partitioning meets its contract in src/porcupine/model.go: the history is linearizable if
      and only if every part is. */
  lemma PartsDecide(ops: seq<KvOperation>, keys: seq<string>, parts: seq<seq<KvOperation>>)
    requires Timed(ops) && Partitions(ops, keys, parts)
    ensures OpsLinearizable(WHOLE_MAP, ops) <==> forall i | 0 <= i < |parts| :: OpsLinearizable(ONE_KEY, parts[i])
  {
    Locality(ops);
    if forall i | 0 <= i < |parts| :: OpsLinearizable(ONE_KEY, parts[i]) {
      forall key ensures OpsLinearizable(ONE_KEY, Sub(ops, key)) {
        OtherKeysEmpty(ops, key);
        if key in keys {
          var i :| 0 <= i < |keys| && keys[i] == key;
          assert OpsLinearizable(ONE_KEY, parts[i]);
        } else {
          assert Linearizes(ONE_KEY, "", [], []);
        }
      }
    }
    if EachKeyLinearizable(ops) {
      forall i | 0 <= i < |parts| ensures OpsLinearizable(ONE_KEY, parts[i]) {
        assert parts[i] == Sub(ops, keys[i]);
      }
    }
  }
}
