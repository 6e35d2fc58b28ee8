/** The state of the backtracking search as values: the stack of chosen operations, the cursor and
    the memo table, with the invariant that makes the search sound, complete and terminating. */
module SearchState {
  import opened LinearSearch

  // ---------- The stack ----------

  /** Each operation on the stack was a legal next choice; `states` are the states in between. */
  ghost predicate PathOk<S(!new), I(!new), O(!new)>(m: Model<S, I, O>, h: History<I, O>, path: seq<nat>, states: seq<S>)
    requires WellFormed(h)
  {
    && |states| == |path| + 1 && states[0] == m.init
    && forall d | 0 <= d < |path| :: ChosenAt(m, h, path, states, d)
  }

  ghost predicate ChosenAt<S(!new), I(!new), O(!new)>(
    m: Model<S, I, O>, h: History<I, O>, path: seq<nat>, states: seq<S>, d: int)
    requires WellFormed(h) && |states| == |path| + 1 && 0 <= d < |path|
  {
    && Minimal(h, Elements(path[..d]), path[d])
    && StepOp(m, h, states[d], path[d]).0 && states[d + 1] == StepOp(m, h, states[d], path[d]).1
  }

  lemma PathDistinct<S(!new), I(!new), O(!new)>(m: Model<S, I, O>, h: History<I, O>, path: seq<nat>, states: seq<S>)
    requires WellFormed(h) && PathOk(m, h, path, states)
    ensures Distinct(path) && Within(path, |h.callAt|)
  {
    forall a, b | 0 <= a < b < |path| ensures path[a] != path[b] {
      assert ChosenAt(m, h, path, states, b);
      assert path[..b][a] == path[a];
    }
    forall a | 0 <= a < |path| ensures path[a] < |h.callAt| {
      assert ChosenAt(m, h, path, states, a);
    }
  }

  lemma {:induction false} DistinctSize(path: seq<nat>)
    requires Distinct(path)
    ensures |Elements(path)| == |path|
  {
    if |path| > 0 {
      var n := |path| - 1;
      DistinctSize(path[..n]);
      SnocElements(path[..n], path[n]);
      assert path == path[..n] + [path[n]];
    } else {
      assert Elements(path) == {};
    }
  }

  lemma SnocElements(path: seq<nat>, i: nat)
    ensures Elements(path + [i]) == Elements(path) + {i}
  {
  }

  lemma {:induction false} PathFits(path: seq<nat>, n: nat)
    requires Distinct(path) && Within(path, n)
    ensures |path| <= n
    decreases n
  {
    DistinctSize(path);
    AllSize(n);
    SubsetSize(Elements(path), All(n));
  }

  lemma {:induction false} AllSize(n: nat)
    ensures |All(n)| == n
  {
    if n > 0 {
      AllSize(n - 1);
      assert All(n) == All(n - 1) + {n - 1};
    } else {
      assert All(0) == {};
    }
  }

  lemma {:induction false} SubsetSize(a: set<nat>, b: set<nat>)
    requires a <= b
    ensures |a| <= |b|
  {
    if a != {} {
      var x :| x in a;
      SubsetSize(a - {x}, b - {x});
    }
  }

  lemma PushPath<S(!new), I(!new), O(!new)>(m: Model<S, I, O>, h: History<I, O>, path: seq<nat>, states: seq<S>, i: nat)
    requires WellFormed(h) && PathOk(m, h, path, states) && Minimal(h, Elements(path), i)
    requires StepOp(m, h, states[|path|], i).0
    ensures PathOk(m, h, path + [i], states + [StepOp(m, h, states[|path|], i).1])
  {
    var path', states' := path + [i], states + [StepOp(m, h, states[|path|], i).1];
    forall d | 0 <= d < |path'| ensures ChosenAt(m, h, path', states', d) {
      if d < |path| {
        assert ChosenAt(m, h, path, states, d);
        assert path'[..d] == path[..d];
      } else {
        assert path'[..d] == path;
      }
    }
  }

  lemma PopPath<S(!new), I(!new), O(!new)>(m: Model<S, I, O>, h: History<I, O>, path: seq<nat>, states: seq<S>)
    requires WellFormed(h) && PathOk(m, h, path, states) && |path| > 0
    ensures PathOk(m, h, path[..|path| - 1], states[..|path|])
  {
    var k := |path| - 1;
    forall d | 0 <= d < k ensures ChosenAt(m, h, path[..k], states[..|path|], d) {
      assert ChosenAt(m, h, path, states, d);
      assert path[..k][..d] == path[..d];
    }
  }

  lemma {:induction false} PathLegal<S(!new), I(!new), O(!new)>(
    m: Model<S, I, O>, h: History<I, O>, path: seq<nat>, states: seq<S>, d: nat)
    requires WellFormed(h) && PathOk(m, h, path, states) && d <= |path| && Within(path, |h.callAt|)
    ensures Legal(m, h, states[d], path[d..])
    decreases |path| - d
  {
    if d < |path| {
      assert ChosenAt(m, h, path, states, d);
      PathLegal(m, h, path, states, d + 1);
      assert path[d..][1..] == path[d + 1..];
    }
  }

  /** Soundness: a stack with every operation on it is a linearization. */
  lemma FullPathExplains<S(!new), I(!new), O(!new)>(m: Model<S, I, O>, h: History<I, O>, path: seq<nat>, states: seq<S>)
    requires WellFormed(h) && PathOk(m, h, path, states) && Elements(path) >= All(|h.callAt|)
    ensures Explains(m, h, {}, m.init, path)
  {
    PathDistinct(m, h, path, states);
    PathLegal(m, h, path, states, 0);
    assert path[0..] == path;
    forall a, b | 0 <= a < b < |path| ensures h.callAt[path[a]] < h.returnAt[path[b]] {
      assert ChosenAt(m, h, path, states, a);
      assert path[b] !in path[..a];
    }
    assert Elements(path) == All(|h.callAt|) - {};
  }

  // ---------- The cursor ----------

  /** No pending operation returned before position `pos`. */
  predicate NoReturnBefore<I, O>(h: History<I, O>, done: set<nat>, pos: int)
    requires WellFormed(h)
  {
    forall j | 0 <= j < |h.callAt| && j !in done :: pos <= h.returnAt[j]
  }

  /** No event of a pending operation lies strictly between the two positions. */
  predicate Adjacent<I, O>(h: History<I, O>, done: set<nat>, pos: int, next: int)
    requires WellFormed(h)
  {
    pos < next && forall j | 0 <= j < |h.callAt| && j !in done ::
      !(pos < h.callAt[j] < next) && !(pos < h.returnAt[j] < next)
  }

  /** The pending call under the cursor is a possible next choice. */
  lemma CallIsMinimal<I, O>(h: History<I, O>, done: set<nat>, i: nat)
    requires WellFormed(h) && i < |h.callAt| && i !in done && NoReturnBefore(h, done, h.callAt[i])
    ensures Minimal(h, done, i)
  {
    forall j | 0 <= j < |h.callAt| && j !in done ensures h.callAt[i] < h.returnAt[j] {
      assert EventAt(h, h.callAt[i]).Call? && EventAt(h, h.returnAt[j]).Return?;
    }
  }

  lemma CursorMoves<I, O>(h: History<I, O>, done: set<nat>, i: nat, next: int)
    requires WellFormed(h) && Minimal(h, done, i) && Adjacent(h, done, h.callAt[i], next)
    ensures NoReturnBefore(h, done, next)
  {
  }

  // ---------- What has been tried ----------

  ghost predicate Dead<S(!new), I(!new), O(!new)>(m: Model<S, I, O>, h: History<I, O>, done: set<nat>, s: S, i: nat)
    requires WellFormed(h) && i < |h.callAt|
  {
    StepOp(m, h, s, i).0 ==> !Extendable(m, h, done + {i}, StepOp(m, h, s, i).1)
  }

  /** Every choice whose call lies before `bound` leads nowhere. */
  ghost predicate TriedBefore<S(!new), I(!new), O(!new)>(
    m: Model<S, I, O>, h: History<I, O>, done: set<nat>, s: S, bound: int)
    requires WellFormed(h)
  {
    forall i: nat {:trigger Dead(m, h, done, s, i)} | Minimal(h, done, i) && h.callAt[i] < bound ::
      Dead(m, h, done, s, i)
  }

  /** A visited position is on the stack or a dead end. */
  ghost predicate OnPath<S(!new)>(path: seq<nat>, states: seq<S>, c: (set<nat>, S))
    requires |states| == |path| + 1
  {
    exists d | 1 <= d <= |path| :: c == (Elements(path[..d]), states[d])
  }

  ghost predicate MemoOk<S(!new), I(!new), O(!new)>(
    m: Model<S, I, O>, h: History<I, O>, path: seq<nat>, states: seq<S>, memo: iset<(set<nat>, S)>)
    requires WellFormed(h) && |states| == |path| + 1
  {
    forall c {:trigger OnPath(path, states, c)} | c in memo :: OnPath(path, states, c) || !Extendable(m, h, c.0, c.1)
  }

  /** Completeness so far: below the cursor, and below each choice on the stack, everything is dead. */
  ghost predicate Exhausted<S(!new), I(!new), O(!new)>(
    m: Model<S, I, O>, h: History<I, O>, path: seq<nat>, states: seq<S>, pos: int)
    requires WellFormed(h) && |states| == |path| + 1 && Within(path, |h.callAt|)
  {
    && TriedBefore(m, h, Elements(path), states[|path|], pos)
    && forall d | 0 <= d < |path| :: TriedBefore(m, h, Elements(path[..d]), states[d], h.callAt[path[d]])
  }

  lemma TriedMore<S(!new), I(!new), O(!new)>(
    m: Model<S, I, O>, h: History<I, O>, done: set<nat>, s: S, i: nat, next: int)
    requires WellFormed(h) && i < |h.callAt| && TriedBefore(m, h, done, s, h.callAt[i]) && Dead(m, h, done, s, i)
    requires Adjacent(h, done, h.callAt[i], next)
    ensures TriedBefore(m, h, done, s, next)
  {
    forall k: nat | Minimal(h, done, k) && h.callAt[k] < next ensures Dead(m, h, done, s, k) {
      assert h.callAt[k] == h.callAt[i] ==> EventAt(h, h.callAt[k]).id == EventAt(h, h.callAt[i]).id;
    }
  }

  /** A pending return under the cursor: no choice is left, this position is a dead end. */
  lemma ReturnMeansDead<S(!new), I(!new), O(!new)>(m: Model<S, I, O>, h: History<I, O>, done: set<nat>, s: S, j: nat)
    requires WellFormed(h) && j < |h.callAt| && j !in done && TriedBefore(m, h, done, s, h.returnAt[j])
    ensures !Extendable(m, h, done, s)
  {
    ExtendableUnfolds(m, h, done, s);
    assert j in All(|h.callAt|);
    forall i: nat ensures !ExtendsBy(m, h, done, s, i) {
      assert Minimal(h, done, i) ==> Dead(m, h, done, s, i);
    }
  }

  /** A position with one more operation than the stack is not on the stack. */
  lemma LongerThanPath<S(!new)>(path: seq<nat>, states: seq<S>, i: nat, s: S)
    requires |states| == |path| + 1 && Distinct(path) && i !in Elements(path)
    ensures !OnPath(path, states, (Elements(path) + {i}, s))
  {
    DistinctSize(path);
    forall d | 1 <= d <= |path| ensures Elements(path[..d]) != Elements(path) + {i} {
      DistinctSize(path[..d]);
    }
  }

  /** Memo pruning never discards a live position. */
  lemma MemoHitMeansDead<S(!new), I(!new), O(!new)>(
    m: Model<S, I, O>, h: History<I, O>, path: seq<nat>, states: seq<S>, memo: iset<(set<nat>, S)>, i: nat, was: S)
    requires WellFormed(h) && EqualRespectsStep(m) && PathOk(m, h, path, states) && MemoOk(m, h, path, states, memo)
    requires Minimal(h, Elements(path), i)
    requires (Elements(path) + {i}, was) in memo && m.equal(StepOp(m, h, states[|path|], i).1, was)
    ensures Dead(m, h, Elements(path), states[|path|], i)
  {
    var done := Elements(path) + {i};
    PathDistinct(m, h, path, states);
    LongerThanPath(path, states, i, was);
    if StepOp(m, h, states[|path|], i).0 && Extendable(m, h, done, StepOp(m, h, states[|path|], i).1) {
      EqualExtends(m, h, done, StepOp(m, h, states[|path|], i).1, was);
    }
  }

  lemma PushMemo<S(!new), I(!new), O(!new)>(
    m: Model<S, I, O>, h: History<I, O>, path: seq<nat>, states: seq<S>, memo: iset<(set<nat>, S)>, i: nat, s: S)
    requires WellFormed(h) && |states| == |path| + 1 && MemoOk(m, h, path, states, memo)
    ensures MemoOk(m, h, path + [i], states + [s], memo + iset{(Elements(path) + {i}, s)})
  {
    var path', states' := path + [i], states + [s];
    forall c | c in memo + iset{(Elements(path) + {i}, s)}
      ensures OnPath(path', states', c) || !Extendable(m, h, c.0, c.1)
    {
      if c in memo {
        if OnPath(path, states, c) {
          var d :| 1 <= d <= |path| && c == (Elements(path[..d]), states[d]);
          assert path'[..d] == path[..d] && states'[d] == states[d];
        }
      } else {
        SnocElements(path, i);
        assert path'[..|path'|] == path' && states'[|path'|] == s;
      }
    }
  }

  lemma PopMemo<S(!new), I(!new), O(!new)>(
    m: Model<S, I, O>, h: History<I, O>, path: seq<nat>, states: seq<S>, memo: iset<(set<nat>, S)>)
    requires WellFormed(h) && |states| == |path| + 1 && |path| > 0 && MemoOk(m, h, path, states, memo)
    requires !Extendable(m, h, Elements(path), states[|path|])
    ensures MemoOk(m, h, path[..|path| - 1], states[..|path|], memo)
  {
    var k := |path| - 1;
    var path', states' := path[..k], states[..|path|];
    forall c | c in memo ensures OnPath(path', states', c) || !Extendable(m, h, c.0, c.1) {
      if OnPath(path, states, c) {
        var d :| 1 <= d <= |path| && c == (Elements(path[..d]), states[d]);
        if d <= k {
          assert path'[..d] == path[..d] && states'[d] == states[d];
        } else {
          assert path[..d] == path;
        }
      }
    }
  }

  lemma PushExhausted<S(!new), I(!new), O(!new)>(
    m: Model<S, I, O>, h: History<I, O>, path: seq<nat>, states: seq<S>, i: nat, s: S, pos: int)
    requires WellFormed(h) && |states| == |path| + 1 && Within(path, |h.callAt|) && i < |h.callAt|
    requires Exhausted(m, h, path, states, h.callAt[i])
    requires forall j | 0 <= j < |h.callAt| && j !in Elements(path + [i]) :: pos <= h.callAt[j]
    ensures Within(path + [i], |h.callAt|) && Exhausted(m, h, path + [i], states + [s], pos)
  {
    var path', states' := path + [i], states + [s];
    forall d | 0 <= d < |path'| ensures TriedBefore(m, h, Elements(path'[..d]), states'[d], h.callAt[path'[d]]) {
      assert path'[..d] == if d < |path| then path[..d] else path;
    }
  }

  /** Backtracking: the choice just popped is dead, and the cursor goes on behind its call. */
  lemma PopExhausted<S(!new), I(!new), O(!new)>(
    m: Model<S, I, O>, h: History<I, O>, path: seq<nat>, states: seq<S>, pos: int, next: int)
    requires WellFormed(h) && PathOk(m, h, path, states) && |path| > 0 && Within(path, |h.callAt|)
    requires Exhausted(m, h, path, states, pos) && !Extendable(m, h, Elements(path), states[|path|])
    requires Adjacent(h, Elements(path[..|path| - 1]), h.callAt[path[|path| - 1]], next)
    ensures Within(path[..|path| - 1], |h.callAt|) && Exhausted(m, h, path[..|path| - 1], states[..|path|], next)
  {
    PoppedIsDead(m, h, path, states);
    var k := |path| - 1;
    TriedMore(m, h, Elements(path[..k]), states[k], path[k], next);
    BelowStays(m, h, path, states, pos);
  }

  lemma PoppedIsDead<S(!new), I(!new), O(!new)>(m: Model<S, I, O>, h: History<I, O>, path: seq<nat>, states: seq<S>)
    requires WellFormed(h) && PathOk(m, h, path, states) && |path| > 0 && Within(path, |h.callAt|)
    requires !Extendable(m, h, Elements(path), states[|path|])
    ensures Dead(m, h, Elements(path[..|path| - 1]), states[|path| - 1], path[|path| - 1])
  {
    var k := |path| - 1;
    assert ChosenAt(m, h, path, states, k);
    SnocElements(path[..k], path[k]);
    assert path == path[..k] + [path[k]];
  }

  lemma BelowStays<S(!new), I(!new), O(!new)>(
    m: Model<S, I, O>, h: History<I, O>, path: seq<nat>, states: seq<S>, pos: int)
    requires WellFormed(h) && |states| == |path| + 1 && |path| > 0 && Within(path, |h.callAt|)
    requires Exhausted(m, h, path, states, pos)
    ensures var path', states' := path[..|path| - 1], states[..|path|];
      forall d | 0 <= d < |path'| :: TriedBefore(m, h, Elements(path'[..d]), states'[d], h.callAt[path'[d]])
  {
    var path', states' := path[..|path| - 1], states[..|path|];
    forall d | 0 <= d < |path'| ensures TriedBefore(m, h, Elements(path'[..d]), states'[d], h.callAt[path'[d]]) {
      assert path'[..d] == path[..d];
    }
  }

  // ---------- Termination ----------

  function Times(a: nat, w: nat): nat {
    if a == 0 then 0 else w + Times(a - 1, w)
  }

  lemma {:induction false} TimesLess(a: nat, b: nat, w: nat)
    requires a < b
    ensures Times(a, w) + w <= Times(b, w)
  {
    if a + 1 < b {
      TimesLess(a, b - 1, w);
    }
  }

  /** One choice weighs more than everything that can be tried below it. */
  function Weight(n: nat, e: nat): nat {
    if e == 0 then 1 else Times(2 * n + 2, Weight(n, e - 1))
  }

  lemma {:induction false} WeightPositive(n: nat, e: nat)
    ensures Weight(n, e) > 0
  {
    if e > 0 {
      WeightPositive(n, e - 1);
    }
  }

  /** Positions not yet tried at the levels of the stack. */
  function Untried<I, O>(h: History<I, O>, path: seq<nat>): nat
    requires WellFormed(h) && Within(path, |h.callAt|) && |path| <= |h.callAt|
  {
    if |path| == 0 then 0
    else
      var n, k := |h.callAt|, |path| - 1;
      Untried(h, path[..k]) + Times(2 * n - h.callAt[path[k]], Weight(n, n - k))
  }

  /** What the search can still do: every iteration lowers it. */
  function Budget<I, O>(h: History<I, O>, path: seq<nat>, pos: nat): nat
    requires WellFormed(h) && Within(path, |h.callAt|) && |path| <= |h.callAt| && pos <= 2 * |h.callAt| + 1
  {
    var n := |h.callAt|;
    Untried(h, path) + Times(2 * n + 1 - pos, Weight(n, n - |path|))
  }

  lemma AdvanceCosts<I, O>(h: History<I, O>, path: seq<nat>, pos: nat, next: nat)
    requires WellFormed(h) && Within(path, |h.callAt|) && |path| <= |h.callAt| && pos < next <= 2 * |h.callAt| + 1
    ensures Budget(h, path, next) < Budget(h, path, pos)
  {
    var n := |h.callAt|;
    WeightPositive(n, n - |path|);
    TimesLess(2 * n + 1 - next, 2 * n + 1 - pos, Weight(n, n - |path|));
  }

  lemma PushCosts<I, O>(h: History<I, O>, path: seq<nat>, i: nat, next: nat)
    requires WellFormed(h) && Within(path + [i], |h.callAt|) && |path| < |h.callAt| && Within(path, |h.callAt|)
    requires i < |h.callAt| && 1 <= next <= 2 * |h.callAt| + 1
    ensures Budget(h, path + [i], next) < Budget(h, path, h.callAt[i])
  {
    var n, e := |h.callAt|, |h.callAt| - |path| - 1;
    assert (path + [i])[..|path|] == path;
    WeightPositive(n, e);
    TimesLess(2 * n + 1 - next, 2 * n + 2, Weight(n, e));
  }

  lemma PopCosts<I, O>(h: History<I, O>, path: seq<nat>, pos: nat, next: nat)
    requires WellFormed(h) && Within(path, |h.callAt|) && 0 < |path| <= |h.callAt| && pos <= 2 * |h.callAt|
    requires h.callAt[path[|path| - 1]] < next <= 2 * |h.callAt| + 1
    ensures Within(path[..|path| - 1], |h.callAt|) && Budget(h, path[..|path| - 1], next) < Budget(h, path, pos)
  {
    var n, k := |h.callAt|, |path| - 1;
    WeightPositive(n, n - |path|);
    TimesLess(0, 2 * n + 1 - pos, Weight(n, n - |path|));
    var a, b := 2 * n + 1 - next, 2 * n - h.callAt[path[k]];
    if a < b {
      TimesLess(a, b, Weight(n, n - k));
    }
  }
}
