/** Linearizability of a history of call and return events, and the state of the backtracking
    search of src/porcupine/checker.go, as values. */
module LinearSearch {

  /** A sequential specification: src/porcupine/model.go without partitioning. */
  datatype Model<!S(!new), !I(!new), !O(!new)> = Model(
    init: S,
    step: (S, I, O) -> (bool, S),
    equal: (S, S) -> bool)

  datatype Event<I, O> = Call(id: nat, input: I) | Return(id: nat, output: O)

  /** Events in time order.  `callAt[i]` and `returnAt[i]` are the positions, counted from 1, of the
      two events of operation `i`. */
  datatype History<I, O> = History(events: seq<Event<I, O>>, callAt: seq<nat>, returnAt: seq<nat>)

  function EventAt<I, O>(h: History<I, O>, p: int): Event<I, O>
    requires 1 <= p <= |h.events|
  {
    h.events[p - 1]
  }

  predicate WellFormed<I, O>(h: History<I, O>) {
    var n := |h.callAt|;
    && |h.returnAt| == n && |h.events| == 2 * n
    && (forall i | 0 <= i < n ::
          && 1 <= h.callAt[i] < h.returnAt[i] <= 2 * n
          && EventAt(h, h.callAt[i]).Call? && EventAt(h, h.callAt[i]).id == i
          && EventAt(h, h.returnAt[i]).Return? && EventAt(h, h.returnAt[i]).id == i)
    && (forall p | 1 <= p <= 2 * n ::
          var e := EventAt(h, p);
          e.id < n && p == if e.Call? then h.callAt[e.id] else h.returnAt[e.id])
  }

  function Input<I, O>(h: History<I, O>, i: nat): I
    requires WellFormed(h) && i < |h.callAt|
  {
    EventAt(h, h.callAt[i]).input
  }

  function Output<I, O>(h: History<I, O>, i: nat): O
    requires WellFormed(h) && i < |h.callAt|
  {
    EventAt(h, h.returnAt[i]).output
  }

  /** The result of the model's step on operation `i`. */
  function StepOp<S(!new), I(!new), O(!new)>(m: Model<S, I, O>, h: History<I, O>, s: S, i: nat): (bool, S)
    requires WellFormed(h) && i < |h.callAt|
  {
    m.step(s, Input(h, i), Output(h, i))
  }

  predicate Below(i: nat, n: nat) {
    i < n
  }

  function All(n: nat): set<nat> {
    set i: nat | i < n && Below(i, n)
  }

  function Elements(order: seq<nat>): set<nat> {
    set i | i in order
  }

  predicate Within(order: seq<nat>, n: nat) {
    forall a | 0 <= a < |order| :: order[a] < n
  }

  // ---------- Linearizations ----------

  /** Every operation of the order passes the model, from state `s`. */
  predicate Legal<S(!new), I(!new), O(!new)>(m: Model<S, I, O>, h: History<I, O>, s: S, order: seq<nat>)
    requires WellFormed(h) && Within(order, |h.callAt|)
    decreases |order|
  {
    |order| == 0 || (StepOp(m, h, s, order[0]).0 && Legal(m, h, StepOp(m, h, s, order[0]).1, order[1..]))
  }

  predicate Distinct(order: seq<nat>) {
    forall a, b | 0 <= a < b < |order| :: order[a] != order[b]
  }

  /** No operation is placed after one that was called only after it had returned. */
  predicate RespectsTime<I, O>(h: History<I, O>, order: seq<nat>)
    requires WellFormed(h) && Within(order, |h.callAt|)
  {
    forall a, b | 0 <= a < b < |order| :: h.callAt[order[a]] < h.returnAt[order[b]]
  }

  /** An order of exactly the operations outside `done` that explains them from state `s`. */
  predicate Explains<S(!new), I(!new), O(!new)>(
    m: Model<S, I, O>, h: History<I, O>, done: set<nat>, s: S, order: seq<nat>)
    requires WellFormed(h)
  {
    && Within(order, |h.callAt|) && Distinct(order) && Elements(order) == All(|h.callAt|) - done
    && RespectsTime(h, order) && Legal(m, h, s, order)
  }

  ghost predicate Linearizable<S(!new), I(!new), O(!new)>(m: Model<S, I, O>, h: History<I, O>)
    requires WellFormed(h)
  {
    exists order :: Explains(m, h, {}, m.init, order)
  }

  // ---------- The search tree ----------

  /** Operation `i` may come next: it was called before every pending operation returned. */
  predicate Minimal<I, O>(h: History<I, O>, done: set<nat>, i: nat)
    requires WellFormed(h)
  {
    i < |h.callAt| && i !in done && forall j | 0 <= j < |h.callAt| && j !in done :: h.callAt[i] < h.returnAt[j]
  }

  /** The remaining operations can be completed from here. */
  ghost predicate Extendable<S(!new), I(!new), O(!new)>(m: Model<S, I, O>, h: History<I, O>, done: set<nat>, s: S)
    requires WellFormed(h)
    decreases |All(|h.callAt|) - done|
  {
    || done >= All(|h.callAt|)
    || exists i: nat | Minimal(h, done, i) ::
         StepOp(m, h, s, i).0 && (Shrinks(h, done, i); Extendable(m, h, done + {i}, StepOp(m, h, s, i).1))
  }

  lemma Shrinks<I, O>(h: History<I, O>, done: set<nat>, i: nat)
    requires WellFormed(h) && Minimal(h, done, i)
    ensures |All(|h.callAt|) - (done + {i})| < |All(|h.callAt|) - done|
  {
    assert Below(i, |h.callAt|);
    OneFewer(All(|h.callAt|), done, i);
  }

  lemma OneFewer(all: set<nat>, done: set<nat>, i: nat)
    requires i in all && i !in done
    ensures |all - (done + {i})| < |all - done|
  {
    assert all - (done + {i}) == (all - done) - {i};
  }

  /** The one step that turns an extension into a longer one. */
  ghost predicate ExtendsBy<S(!new), I(!new), O(!new)>(
    m: Model<S, I, O>, h: History<I, O>, done: set<nat>, s: S, i: nat)
    requires WellFormed(h)
  {
    Minimal(h, done, i) && StepOp(m, h, s, i).0 && Extendable(m, h, done + {i}, StepOp(m, h, s, i).1)
  }

  lemma ExtendableUnfolds<S(!new), I(!new), O(!new)>(m: Model<S, I, O>, h: History<I, O>, done: set<nat>, s: S)
    requires WellFormed(h)
    ensures Extendable(m, h, done, s) <==> done >= All(|h.callAt|) || exists i: nat :: ExtendsBy(m, h, done, s, i)
  {
    if i: nat :| ExtendsBy(m, h, done, s, i) {
      assert Minimal(h, done, i) && StepOp(m, h, s, i).0;
    }
    if Extendable(m, h, done, s) && !(done >= All(|h.callAt|)) {
      var i: nat :| Minimal(h, done, i) && StepOp(m, h, s, i).0 && Extendable(m, h, done + {i}, StepOp(m, h, s, i).1);
      assert ExtendsBy(m, h, done, s, i);
    }
  }

  lemma {:induction false} ExtendableIsExplained<S(!new), I(!new), O(!new)>(
    m: Model<S, I, O>, h: History<I, O>, done: set<nat>, s: S)
    returns (order: seq<nat>)
    requires WellFormed(h) && Extendable(m, h, done, s)
    ensures Explains(m, h, done, s, order)
    decreases |All(|h.callAt|) - done|
  {
    ExtendableUnfolds(m, h, done, s);
    if done >= All(|h.callAt|) {
      order := [];
    } else {
      var i: nat :| ExtendsBy(m, h, done, s, i);
      Shrinks(h, done, i);
      var rest := ExtendableIsExplained(m, h, done + {i}, StepOp(m, h, s, i).1);
      PrependExplains(m, h, done, s, i, rest);
      order := [i] + rest;
    }
  }

  lemma {:induction false} ExplainedIsExtendable<S(!new), I(!new), O(!new)>(
    m: Model<S, I, O>, h: History<I, O>, done: set<nat>, s: S, order: seq<nat>)
    requires WellFormed(h) && Explains(m, h, done, s, order)
    ensures Extendable(m, h, done, s)
    decreases |All(|h.callAt|) - done|
  {
    if !(done >= All(|h.callAt|)) {
      HeadExtends(m, h, done, s, order);
      Shrinks(h, done, order[0]);
      ExplainedIsExtendable(m, h, done + {order[0]}, StepOp(m, h, s, order[0]).1, order[1..]);
      assert ExtendsBy(m, h, done, s, order[0]);
      ExtendableUnfolds(m, h, done, s);
    }
  }

  /** A position in the tree can be completed exactly when some order explains the rest. */
  lemma ExtendableIffExplained<S(!new), I(!new), O(!new)>(m: Model<S, I, O>, h: History<I, O>, done: set<nat>, s: S)
    requires WellFormed(h)
    ensures Extendable(m, h, done, s) <==> exists order :: Explains(m, h, done, s, order)
  {
    if Extendable(m, h, done, s) {
      var order := ExtendableIsExplained(m, h, done, s);
    }
    if order :| Explains(m, h, done, s, order) {
      ExplainedIsExtendable(m, h, done, s, order);
    }
  }

  lemma PrependExplains<S(!new), I(!new), O(!new)>(
    m: Model<S, I, O>, h: History<I, O>, done: set<nat>, s: S, i: nat, rest: seq<nat>)
    requires WellFormed(h) && Minimal(h, done, i) && StepOp(m, h, s, i).0
    requires Explains(m, h, done + {i}, StepOp(m, h, s, i).1, rest)
    ensures Explains(m, h, done, s, [i] + rest)
  {
    var order := [i] + rest;
    assert order[1..] == rest;
    forall j ensures j in Elements(order) <==> j in All(|h.callAt|) - done {
      assert j in Elements(order) <==> j == i || j in Elements(rest);
    }
  }

  lemma HeadExtends<S(!new), I(!new), O(!new)>(
    m: Model<S, I, O>, h: History<I, O>, done: set<nat>, s: S, order: seq<nat>)
    requires WellFormed(h) && !(done >= All(|h.callAt|)) && Explains(m, h, done, s, order)
    ensures |order| > 0 && Minimal(h, done, order[0]) && StepOp(m, h, s, order[0]).0
    ensures Explains(m, h, done + {order[0]}, StepOp(m, h, s, order[0]).1, order[1..])
  {
    var x :| x in All(|h.callAt|) && x !in done;
    assert x in Elements(order);
    HeadMinimal(m, h, done, s, order);
    TailElements(order);
  }

  lemma HeadMinimal<S(!new), I(!new), O(!new)>(
    m: Model<S, I, O>, h: History<I, O>, done: set<nat>, s: S, order: seq<nat>)
    requires WellFormed(h) && |order| > 0 && Explains(m, h, done, s, order)
    ensures Minimal(h, done, order[0])
  {
    assert order[0] in Elements(order);
    forall j | 0 <= j < |h.callAt| && j !in done ensures h.callAt[order[0]] < h.returnAt[j] {
      assert Below(j, |h.callAt|);
      assert j in Elements(order);
      var b :| 0 <= b < |order| && order[b] == j;
    }
  }

  lemma TailElements(order: seq<nat>)
    requires |order| > 0 && Distinct(order)
    ensures Elements(order[1..]) == Elements(order) - {order[0]}
  {
    var rest := order[1..];
    forall j ensures j in Elements(rest) <==> j in Elements(order) && j != order[0] {
      assert order == [order[0]] + rest;
      if j in rest {
        var b :| 0 <= b < |rest| && rest[b] == j;
        assert order[b + 1] == j;
      }
    }
  }

  // ---------- States the model calls equal ----------

  /** `equal` respects `step`: what one state allows the other allows, with equal results. */
  ghost predicate EqualRespectsStep<S(!new), I(!new), O(!new)>(m: Model<S, I, O>) {
    forall s, t, i, o {:trigger m.equal(s, t), m.step(s, i, o)} | m.equal(s, t) && m.step(s, i, o).0 ::
      m.step(t, i, o).0 && m.equal(m.step(s, i, o).1, m.step(t, i, o).1)
  }

  lemma {:induction false} EqualExtends<S(!new), I(!new), O(!new)>(
    m: Model<S, I, O>, h: History<I, O>, done: set<nat>, s: S, t: S)
    requires WellFormed(h) && EqualRespectsStep(m) && m.equal(s, t) && Extendable(m, h, done, s)
    ensures Extendable(m, h, done, t)
    decreases |All(|h.callAt|) - done|
  {
    ExtendableUnfolds(m, h, done, s);
    ExtendableUnfolds(m, h, done, t);
    if !(done >= All(|h.callAt|)) {
      var i: nat :| ExtendsBy(m, h, done, s, i);
      Shrinks(h, done, i);
      EqualExtends(m, h, done + {i}, StepOp(m, h, s, i).1, StepOp(m, h, t, i).1);
      assert ExtendsBy(m, h, done, t, i);
    }
  }
}
