/** Timed operations: what linearizability means for them, and their conversion to a history of
    call and return events (src/porcupine/checker.go). */
module Operations {
  import opened LinearSearch
  import opened Sorting

  datatype Operation<I, O> = Operation(clientId: int, input: I, call: int, output: O, ret: int)

  predicate Timed<I, O>(ops: seq<Operation<I, O>>) {
    forall i | 0 <= i < |ops| :: ops[i].call <= ops[i].ret
  }

  // ---------- Linearizability of operations ----------

  /** No operation is placed before one that had returned before it was called. */
  predicate InRealTime<I, O>(order: seq<Operation<I, O>>) {
    forall a, b | 0 <= a < b < |order| :: order[a].call <= order[b].ret
  }

  predicate Accepted<S(!new), I(!new), O(!new)>(m: Model<S, I, O>, s: S, order: seq<Operation<I, O>>)
    decreases |order|
  {
    |order| == 0
    || (var (ok, next) := m.step(s, order[0].input, order[0].output); ok && Accepted(m, next, order[1..]))
  }

  /** The order is a rearrangement of the operations that respects time and the model. */
  ghost predicate Linearizes<S(!new), I(!new), O(!new)>(
    m: Model<S, I, O>, s: S, ops: seq<Operation<I, O>>, order: seq<Operation<I, O>>)
  {
    multiset(order) == multiset(ops) && InRealTime(order) && Accepted(m, s, order)
  }

  ghost predicate OpsLinearizable<S(!new), I(!new), O(!new)>(m: Model<S, I, O>, ops: seq<Operation<I, O>>) {
    exists order :: Linearizes(m, m.init, ops, order)
  }

  // ---------- Entries ----------

  datatype Entry<I, O> = Entry(event: Event<I, O>, time: int, clientId: int)

  /** byTime: by time, and at one time calls before returns. */
  predicate ByTime<I, O>(a: Entry<I, O>, b: Entry<I, O>) {
    if a.time != b.time then a.time < b.time else a.event.Call? && b.event.Return?
  }

  function CallEntry<I, O>(ops: seq<Operation<I, O>>, i: nat): Entry<I, O>
    requires i < |ops|
  {
    Entry(Call(i, ops[i].input), ops[i].call, ops[i].clientId)
  }

  function ReturnEntry<I, O>(ops: seq<Operation<I, O>>, i: nat): Entry<I, O>
    requires i < |ops|
  {
    Entry(Return(i, ops[i].output), ops[i].ret, ops[i].clientId)
  }

  function EntryAt<I, O>(ops: seq<Operation<I, O>>, a: nat): Entry<I, O>
    requires a < 2 * |ops|
  {
    if a % 2 == 0 then CallEntry(ops, a / 2) else ReturnEntry(ops, a / 2)
  }

  /** The entries before sorting: call and return of each operation in turn. */
  ghost predicate Listed<I, O>(ops: seq<Operation<I, O>>, entries: seq<Entry<I, O>>, n: nat)
    requires n <= |ops|
  {
    |entries| == 2 * n && forall a | 0 <= a < 2 * n :: entries[a] == EntryAt(ops, a)
  }

  lemma ListedNoRepeats<I, O>(ops: seq<Operation<I, O>>, entries: seq<Entry<I, O>>)
    requires Listed(ops, entries, |ops|)
    ensures NoRepeats(entries)
  {
    forall a, b | 0 <= a < b < |entries| ensures entries[a] != entries[b] {
      assert entries[a] == EntryAt(ops, a) && entries[b] == EntryAt(ops, b);
    }
  }

  /** The sorted entries are a history, and one operation is called before another returns exactly
      when their times say so. */
  ghost predicate Times<I, O>(ops: seq<Operation<I, O>>, h: History<I, O>) {
    && WellFormed(h) && |h.callAt| == |ops|
    && (forall i | 0 <= i < |ops| :: Input(h, i) == ops[i].input && Output(h, i) == ops[i].output)
    && (forall i, j | 0 <= i < |ops| && 0 <= j < |ops| ::
          h.callAt[i] < h.returnAt[j] <==> ops[i].call <= ops[j].ret)
  }

  ghost predicate Located<T>(sorted: seq<T>, x: T, p: nat) {
    1 <= p <= |sorted| && sorted[p - 1] == x
  }

  ghost function Locate<T>(sorted: seq<T>, x: T): (p: nat)
    requires x in sorted
    ensures Located(sorted, x, p)
  {
    var p :| 0 <= p < |sorted| && sorted[p] == x;
    assert Located(sorted, x, p + 1);
    p + 1
  }

  lemma ListedMembers<I, O>(ops: seq<Operation<I, O>>, entries: seq<Entry<I, O>>, sorted: seq<Entry<I, O>>)
    requires Listed(ops, entries, |ops|) && multiset(sorted) == multiset(entries)
    ensures |sorted| == 2 * |ops|
    ensures forall i | 0 <= i < |ops| :: CallEntry(ops, i) in sorted && ReturnEntry(ops, i) in sorted
    ensures Named(ops, sorted)
  {
    assert |sorted| == |multiset(sorted)| == |multiset(entries)| == |entries|;
    forall i | 0 <= i < |ops| ensures CallEntry(ops, i) in sorted && ReturnEntry(ops, i) in sorted {
      assert entries[2 * i] == CallEntry(ops, i) && entries[2 * i + 1] == ReturnEntry(ops, i);
      assert entries[2 * i] in multiset(entries) && entries[2 * i + 1] in multiset(entries);
    }
    forall e | e in sorted
      ensures e.event.id < |ops| && e ==
        if e.event.Call? then CallEntry(ops, e.event.id) else ReturnEntry(ops, e.event.id)
    {
      assert e in multiset(sorted);
      assert e in entries;
      var a :| 0 <= a < |entries| && entries[a] == e;
      assert e == EntryAt(ops, a);
    }
  }

  ghost function HistoryOf<I, O>(ops: seq<Operation<I, O>>, sorted: seq<Entry<I, O>>): (h: History<I, O>)
    requires forall i | 0 <= i < |ops| :: CallEntry(ops, i) in sorted && ReturnEntry(ops, i) in sorted
    ensures Locates(ops, sorted, h)
  {
    History(
      seq(|sorted|, p requires 0 <= p < |sorted| => sorted[p].event),
      seq(|ops|, i requires 0 <= i < |ops| => Locate(sorted, CallEntry(ops, i))),
      seq(|ops|, i requires 0 <= i < |ops| => Locate(sorted, ReturnEntry(ops, i))))
  }

  lemma EntriesOrdered<I, O>(sorted: seq<Entry<I, O>>, c: Entry<I, O>, p: nat, r: Entry<I, O>, q: nat)
    requires Sorted(ByTime, sorted) && c.event.Call? && r.event.Return?
    requires Located(sorted, c, p) && Located(sorted, r, q)
    ensures p < q <==> c.time <= r.time
  {
    assert p < q ==> !ByTime(sorted[q - 1], sorted[p - 1]);
    assert q < p ==> !ByTime(sorted[p - 1], sorted[q - 1]);
  }

  lemma SortedIsHistory<I, O>(ops: seq<Operation<I, O>>, entries: seq<Entry<I, O>>, sorted: seq<Entry<I, O>>)
    returns (h: History<I, O>)
    requires Timed(ops) && Listed(ops, entries, |ops|)
    requires multiset(sorted) == multiset(entries) && Sorted(ByTime, sorted)
    ensures Times(ops, h) && |h.events| == |sorted|
    ensures forall p | 0 <= p < |sorted| :: h.events[p] == sorted[p].event
  {
    ListedNoRepeats(ops, entries);
    SortedNoRepeats(entries, sorted);
    ListedMembers(ops, entries, sorted);
    h := HistoryOf(ops, sorted);
    LocatedInOrder(ops, sorted, h);
    LocatedWellFormed(ops, sorted, h);
    LocatedContents(ops, sorted, h);
  }

  /** Every entry is the call or the return of the operation it names. */
  ghost predicate Named<I, O>(ops: seq<Operation<I, O>>, sorted: seq<Entry<I, O>>) {
    forall e | e in sorted ::
      e.event.id < |ops| && e == if e.event.Call? then CallEntry(ops, e.event.id) else ReturnEntry(ops, e.event.id)
  }

  lemma LocatedWellFormed<I, O>(ops: seq<Operation<I, O>>, sorted: seq<Entry<I, O>>, h: History<I, O>)
    requires Locates(ops, sorted, h) && NoRepeats(sorted) && |sorted| == 2 * |ops| && Named(ops, sorted)
    requires forall i | 0 <= i < |ops| :: h.callAt[i] < h.returnAt[i]
    ensures WellFormed(h)
  {
    forall p | 1 <= p <= 2 * |ops|
      ensures EventAt(h, p).id < |ops|
      ensures p == if EventAt(h, p).Call? then h.callAt[EventAt(h, p).id] else h.returnAt[EventAt(h, p).id]
    {
      assert sorted[p - 1] in sorted;
      EventIsLocated(ops, sorted, h, p);
    }
  }

  lemma LocatedContents<I, O>(ops: seq<Operation<I, O>>, sorted: seq<Entry<I, O>>, h: History<I, O>)
    requires Locates(ops, sorted, h) && WellFormed(h)
    ensures forall i | 0 <= i < |ops| :: Input(h, i) == ops[i].input && Output(h, i) == ops[i].output
  {
    forall i | 0 <= i < |ops| ensures Input(h, i) == ops[i].input && Output(h, i) == ops[i].output {
      assert EventAt(h, h.callAt[i]) == CallEntry(ops, i).event;
      assert EventAt(h, h.returnAt[i]) == ReturnEntry(ops, i).event;
    }
  }

  lemma LocatedInOrder<I, O>(ops: seq<Operation<I, O>>, sorted: seq<Entry<I, O>>, h: History<I, O>)
    requires Sorted(ByTime, sorted) && Locates(ops, sorted, h)
    ensures forall i, j | 0 <= i < |ops| && 0 <= j < |ops| ::
      h.callAt[i] < h.returnAt[j] <==> ops[i].call <= ops[j].ret
  {
    forall i, j | 0 <= i < |ops| && 0 <= j < |ops|
      ensures h.callAt[i] < h.returnAt[j] <==> ops[i].call <= ops[j].ret
    {
      EntriesOrdered(sorted, CallEntry(ops, i), h.callAt[i], ReturnEntry(ops, j), h.returnAt[j]);
    }
  }

  ghost predicate Locates<I, O>(ops: seq<Operation<I, O>>, sorted: seq<Entry<I, O>>, h: History<I, O>) {
    && |h.callAt| == |h.returnAt| == |ops| && |h.events| == |sorted|
    && (forall p | 0 <= p < |sorted| :: h.events[p] == sorted[p].event)
    && (forall i | 0 <= i < |ops| ::
          Located(sorted, CallEntry(ops, i), h.callAt[i]) && Located(sorted, ReturnEntry(ops, i), h.returnAt[i]))
  }

  lemma EventIsLocated<I, O>(ops: seq<Operation<I, O>>, sorted: seq<Entry<I, O>>, h: History<I, O>, p: nat)
    requires Locates(ops, sorted, h) && NoRepeats(sorted) && 1 <= p <= |sorted|
    requires var e := sorted[p - 1];
      e.event.id < |ops| && e == if e.event.Call? then CallEntry(ops, e.event.id) else ReturnEntry(ops, e.event.id)
    ensures p == if EventAt(h, p).Call? then h.callAt[EventAt(h, p).id] else h.returnAt[EventAt(h, p).id]
  {
    var e := sorted[p - 1];
    var q := if e.event.Call? then h.callAt[e.event.id] else h.returnAt[e.event.id];
    assert Located(sorted, e, q);
    assert sorted[q - 1] == sorted[p - 1];
  }

  /** makeEntries: the events of the operations, in the order the search needs if no operation returns
      before it is called. */
  method MakeEntries<I(!new), O(!new)>(
    ops: seq<Operation<I, O>>)
    returns (events: seq<Event<I, O>>, ghost h: History<I, O>)
    ensures |events| == 2 * |ops| && h.events == events
    ensures forall i | 0 <= i < |ops| :: Call(i, ops[i].input) in events && Return(i, ops[i].output) in events
    ensures Timed(ops) ==> Times(ops, h)
  {
    var entries: seq<Entry<I, O>> := [];
    var id := 0;
    while id < |ops|
      invariant 0 <= id <= |ops| && Listed(ops, entries, id)
    {
      entries := entries + [CallEntry(ops, id)] + [ReturnEntry(ops, id)];
      id := id + 1;
    }
    var sorted := Sort(ByTime, entries);
    ListedMembers(ops, entries, sorted);
    events := seq(|sorted|, p requires 0 <= p < |sorted| => sorted[p].event);
    EventsPresent(ops, sorted, events);
    h := History(events, [], []);
    if Timed(ops) {
      h := SortedIsHistory(ops, entries, sorted);
    }
  }

  lemma EventsPresent<I, O>(ops: seq<Operation<I, O>>, sorted: seq<Entry<I, O>>, events: seq<Event<I, O>>)
    requires |events| == |sorted| && forall p | 0 <= p < |sorted| :: events[p] == sorted[p].event
    requires forall i | 0 <= i < |ops| :: CallEntry(ops, i) in sorted && ReturnEntry(ops, i) in sorted
    ensures forall i | 0 <= i < |ops| :: Call(i, ops[i].input) in events && Return(i, ops[i].output) in events
  {
    forall i | 0 <= i < |ops| ensures Call(i, ops[i].input) in events && Return(i, ops[i].output) in events {
      var p :| 0 <= p < |sorted| && sorted[p] == CallEntry(ops, i);
      var q :| 0 <= q < |sorted| && sorted[q] == ReturnEntry(ops, i);
      assert events[p] == Call(i, ops[i].input) && events[q] == Return(i, ops[i].output);
    }
  }

  // ---------- The history is linearizable exactly when the operations are ----------

  function Chosen<I, O>(ops: seq<Operation<I, O>>, ids: seq<nat>): (order: seq<Operation<I, O>>)
    requires Within(ids, |ops|)
    ensures |order| == |ids|
    ensures forall a | 0 <= a < |ids| :: order[a] == ops[ids[a]]
  {
    seq(|ids|, a requires 0 <= a < |ids| => ops[ids[a]])
  }

  lemma {:induction false} SameSteps<S(!new), I(!new), O(!new)>(
    m: Model<S, I, O>, s: S, ops: seq<Operation<I, O>>, h: History<I, O>, ids: seq<nat>)
    requires Times(ops, h) && Within(ids, |ops|)
    ensures Legal(m, h, s, ids) <==> Accepted(m, s, Chosen(ops, ids))
    decreases |ids|
  {
    if |ids| > 0 {
      SameSteps(m, StepOp(m, h, s, ids[0]).1, ops, h, ids[1..]);
      assert Chosen(ops, ids)[1..] == Chosen(ops, ids[1..]);
    }
  }

  lemma AllHolds(n: nat, i: nat)
    ensures i < n ==> i in All(n)
  {
    assert i < n ==> Below(i, n);
  }

  lemma Pigeonhole(ids: seq<nat>, n: nat)
    requires Within(ids, n) && Distinct(ids) && Elements(ids) == All(n) && n > 0
    ensures exists k :: 0 <= k < |ids| && ids[k] == n - 1
  {
    assert Below(n - 1, n);
    assert n - 1 in Elements(ids);
  }

  lemma ChosenWithout<I, O>(ops: seq<Operation<I, O>>, ids: seq<nat>, k: nat)
    requires Within(ids, |ops|) && k < |ids| && |ops| > 0 && Within(ids[..k] + ids[k + 1..], |ops| - 1)
    ensures Chosen(ops[..|ops| - 1], ids[..k] + ids[k + 1..]) == Chosen(ops, ids)[..k] + Chosen(ops, ids)[k + 1..]
  {
    var rest := ids[..k] + ids[k + 1..];
    assert forall a | 0 <= a < k :: rest[a] == ids[a];
    assert forall a | k <= a < |rest| :: rest[a] == ids[a + 1];
  }

  lemma ChosenWith<I, O>(ops: seq<Operation<I, O>>, order: seq<Operation<I, O>>, before: seq<nat>, k: nat)
    requires |ops| > 0 && Within(before, |ops| - 1) && k < |order| && order[k] == ops[|ops| - 1]
    requires Chosen(ops[..|ops| - 1], before) == order[..k] + order[k + 1..]
    ensures Within(before[..k] + [|ops| - 1] + before[k..], |ops|)
    ensures Chosen(ops, before[..k] + [|ops| - 1] + before[k..]) == order
  {
    var fewer, rest := ops[..|ops| - 1], order[..k] + order[k + 1..];
    var ids := before[..k] + [|ops| - 1] + before[k..];
    forall a | 0 <= a < |order| ensures ids[a] < |ops| && ops[ids[a]] == order[a] {
      assert a < k ==> ids[a] == before[a] && rest[a] == order[a];
      assert a > k ==> ids[a] == before[a - 1] && rest[a - 1] == order[a];
    }
    assert Within(ids, |ops|);
  }

  lemma NothingChosen<I, O>(ops: seq<Operation<I, O>>, ids: seq<nat>)
    requires |ids| == 0 && Elements(ids) == All(|ops|)
    ensures Within(ids, |ops|) && Chosen(ops, ids) == ops
  {
    assert Elements(ids) == {};
    AllHolds(|ops|, 0);
  }

  /** Picking every operation once rearranges them. */
  lemma {:induction false} ChosenPermutes<I, O>(ops: seq<Operation<I, O>>, ids: seq<nat>)
    requires Within(ids, |ops|) && Distinct(ids) && Elements(ids) == All(|ops|)
    ensures multiset(Chosen(ops, ids)) == multiset(ops)
    decreases |ops|
  {
    var n := |ops|;
    if |ids| == 0 {
      NothingChosen(ops, ids);
    } else {
      assert ids[0] < n;
      Pigeonhole(ids, n);
      var k :| 0 <= k < |ids| && ids[k] == n - 1;
      Without(ids, k, n);
      ChosenPermutes(ops[..n - 1], ids[..k] + ids[k + 1..]);
      LastPermutes(ops, ids, k);
    }
  }

  lemma LastPermutes<I, O>(ops: seq<Operation<I, O>>, ids: seq<nat>, k: nat)
    requires Within(ids, |ops|) && k < |ids| && |ops| > 0 && ids[k] == |ops| - 1
    requires Within(ids[..k] + ids[k + 1..], |ops| - 1)
    requires multiset(Chosen(ops[..|ops| - 1], ids[..k] + ids[k + 1..])) == multiset(ops[..|ops| - 1])
    ensures multiset(Chosen(ops, ids)) == multiset(ops)
  {
    ChosenWithout(ops, ids, k);
    RestPermutes(ops, Chosen(ops, ids), k);
  }

  lemma Without(ids: seq<nat>, k: nat, n: nat)
    requires Within(ids, n) && Distinct(ids) && Elements(ids) == All(n) && n > 0
    requires k < |ids| && ids[k] == n - 1
    ensures var rest := ids[..k] + ids[k + 1..]; Within(rest, n - 1) && Distinct(rest) && Elements(rest) == All(n - 1)
  {
    var rest := ids[..k] + ids[k + 1..];
    forall a | 0 <= a < |rest| ensures rest[a] < n - 1 {
      assert rest[a] == if a < k then ids[a] else ids[a + 1];
    }
    forall i: nat | i < n - 1 ensures i in rest {
      assert Below(i, n) && i in Elements(ids);
      var a :| 0 <= a < |ids| && ids[a] == i;
      assert if a < k then rest[a] == i else rest[a - 1] == i;
    }
    forall i | i in All(n - 1) ensures i in Elements(rest) {}
    forall i | i in Elements(rest) ensures i in All(n - 1) {
      assert Below(i, n - 1);
    }
  }

  /** A rearrangement picks every operation once. */
  lemma {:induction false} PermutationChooses<I, O>(
    ops: seq<Operation<I, O>>, order: seq<Operation<I, O>>)
    returns (ids: seq<nat>)
    requires multiset(order) == multiset(ops)
    ensures Within(ids, |ops|) && Distinct(ids) && Elements(ids) == All(|ops|) && Chosen(ops, ids) == order
    decreases |ops|
  {
    var n := |ops|;
    assert |order| == |multiset(order)| == n;
    if n == 0 {
      ids := [];
      assert Elements(ids) == All(n);
    } else {
      var x := ops[n - 1];
      assert x in multiset(order);
      var k :| 0 <= k < |order| && order[k] == x;
      RestPermutes(ops, order, k);
      var before := PermutationChooses(ops[..n - 1], order[..k] + order[k + 1..]);
      ids := before[..k] + [n - 1] + before[k..];
      ChosenWith(ops, order, before, k);
      With(before, k, n);
    }
  }

  lemma With(before: seq<nat>, k: nat, n: nat)
    requires n > 0 && k <= |before| && Within(before, n - 1) && Distinct(before) && Elements(before) == All(n - 1)
    ensures var ids := before[..k] + [n - 1] + before[k..]; Within(ids, n) && Distinct(ids) && Elements(ids) == All(n)
  {
    var ids := before[..k] + [n - 1] + before[k..];
    assert before == before[..k] + before[k..];
    forall i: nat | i < n ensures i in ids {
      assert i < n - 1 ==> Below(i, n - 1) && i in Elements(before);
      assert ids[k] == n - 1;
    }
    forall i | i in Elements(ids) ensures i in All(n) {
      assert Below(i, n);
    }
  }

  lemma ExplanationLinearizes<S(!new), I(!new), O(!new)>(
    m: Model<S, I, O>, ops: seq<Operation<I, O>>, h: History<I, O>, ids: seq<nat>)
    requires Times(ops, h) && Within(ids, |ops|) && Distinct(ids) && Elements(ids) == All(|ops|)
    ensures Explains(m, h, {}, m.init, ids) <==> Linearizes(m, m.init, ops, Chosen(ops, ids))
  {
    assert All(|ops|) - {} == All(|ops|);
    ChosenPermutes(ops, ids);
    SameSteps(m, m.init, ops, h, ids);
    var order := Chosen(ops, ids);
    forall a, b | 0 <= a < b < |ids|
      ensures h.callAt[ids[a]] < h.returnAt[ids[b]] <==> order[a].call <= order[b].ret
    {
      assert order[a] == ops[ids[a]] && order[b] == ops[ids[b]];
    }
  }

  /** Checking the history of events decides linearizability of the operations. */
  lemma HistoryDecides<S(!new), I(!new), O(!new)>(m: Model<S, I, O>, ops: seq<Operation<I, O>>, h: History<I, O>)
    requires Times(ops, h)
    ensures Linearizable(m, h) <==> OpsLinearizable(m, ops)
  {
    if Linearizable(m, h) {
      var ids :| Explains(m, h, {}, m.init, ids);
      assert All(|ops|) - {} == All(|ops|);
      ExplanationLinearizes(m, ops, h, ids);
    }
    if OpsLinearizable(m, ops) {
      var order :| Linearizes(m, m.init, ops, order);
      var ids := PermutationChooses(ops, order);
      ExplanationLinearizes(m, ops, h, ids);
    }
  }
}
