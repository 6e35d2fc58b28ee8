/** The linearizability checker of src/porcupine/checker.go for one partition: building the linked
    list of events and the backtracking search with its memo table. */
module Checker {
  import opened Bitset
  import opened LinearSearch
  import opened LinkedEvents
  import opened MemoTable
  import opened SearchState

  // ---------- Building the list ----------

  ghost predicate Chain<I, O>(nodes: seq<Node<I, O>>)
    reads nodes
  {
    Separate(nodes) && forall k {:trigger LinkAt(nodes, k)} | 0 <= k < |nodes| :: LinkAt(nodes, k)
  }

  ghost predicate LinkAt<I, O>(nodes: seq<Node<I, O>>, k: int)
    requires 0 <= k < |nodes|
    reads nodes
  {
    && nodes[k].next == (if k + 1 < |nodes| then nodes[k + 1] else null)
    && nodes[k].prev == (if k > 0 then nodes[k - 1] else null)
  }

  method InsertBefore<I, O>(n: Node<I, O>, mark: Node?<I, O>)
    requires mark != null ==> n != mark && n != mark.prev
    modifies n, (if mark == null then {} else {mark}), (if mark == null || mark.prev == null then {} else {mark.prev})
    ensures mark == null ==> n.next == old(n.next) && n.prev == old(n.prev)
    ensures mark != null ==>
      mark.prev == n && n.next == mark && (old(mark.prev) != mark ==> mark.next == old(mark.next))
    ensures mark != null && old(mark.prev) == null ==> n.prev == old(n.prev)
    ensures mark != null && old(mark.prev) != null ==> n.prev == old(mark.prev) && old(mark.prev).next == n
  {
    if mark != null {
      var beforeMark := mark.prev;
      mark.prev := n;
      n.next := mark;
      if beforeMark != null {
        n.prev := beforeMark;
        beforeMark.next := n;
      }
    }
  }

  /** Put a fresh node in front of a chain. */
  method Prepend<I, O>(n: Node<I, O>, root: Node?<I, O>, ghost nodes: seq<Node<I, O>>)
    requires Chain(nodes) && n !in nodes && n.next == null && n.prev == null
    requires root == if |nodes| == 0 then null else nodes[0]
    modifies n, nodes
    ensures Chain([n] + nodes)
  {
    assert |nodes| > 0 ==> LinkAt(nodes, 0);
    InsertBefore(n, root);
    ghost var all := [n] + nodes;
    forall k | 0 <= k < |all| ensures LinkAt(all, k) {
      if k > 0 {
        assert old(LinkAt(nodes, k - 1));
        assert all[k] == nodes[k - 1];
      }
    }
  }

  function PayloadOf<I, O>(e: Event<I, O>): Payload<I, O> {
    match e
    case Call(_, input) => In(input)
    case Return(_, output) => Out(output)
  }

  /** `nodes` are the events from position `from + 1` on; calls point to their returns. */
  ghost predicate Represents<I, O>(nodes: seq<Node<I, O>>, h: History<I, O>, from: nat)
    requires WellFormed(h)
  {
    && from + |nodes| == |h.events|
    && forall k | 0 <= k < |nodes| ::
         var e := EventAt(h, from + k + 1);
         && nodes[k].id == e.id && nodes[k].value == PayloadOf(e)
         && nodes[k].match_ == if e.Call? then nodes[h.returnAt[e.id] - 1 - from] else null
  }

  method MakeLinkedEntries<I, O>(
    events: seq<Event<I, O>>, ghost h: History<I, O>)
    returns (root: Node?<I, O>, ghost nodes: seq<Node<I, O>>)
    requires WellFormed(h) && h.events == events
    ensures Chain(nodes) && Represents(nodes, h, 0) && (forall k | 0 <= k < |nodes| :: fresh(nodes[k]))
    ensures root == if |nodes| == 0 then null else nodes[0]
  {
    root, nodes := null, [];
    var matches: map<nat, Node<I, O>> := map[];
    var i := |events|;
    while i > 0
      invariant 0 <= i <= |events|
      invariant Chain(nodes) && Represents(nodes, h, i) && (forall k | 0 <= k < |nodes| :: fresh(nodes[k]))
      invariant root == if |nodes| == 0 then null else nodes[0]
      invariant Matched(matches, nodes, h, i)
    {
      i := i - 1;
      ghost var before, known := nodes, matches;
      var entry;
      entry, matches := NewEntry(events[i], matches, before, h, i);
      Prepend(entry, root, nodes);
      root, nodes := entry, [entry] + nodes;
      RepresentsMore(before, nodes, h, i);
      MatchedMore(known, before, matches, nodes, h, i);
    }
  }

  /** The node of the event at position `from + 1`; a return enters the table, a call looks up its return. */
  method NewEntry<I, O>(
    elem: Event<I, O>, matches: map<nat, Node<I, O>>, ghost before: seq<Node<I, O>>, ghost h: History<I, O>,
    ghost from: nat)
    returns (entry: Node<I, O>, matches': map<nat, Node<I, O>>)
    requires WellFormed(h) && from + 1 + |before| == |h.events| && elem == EventAt(h, from + 1)
    requires Matched(matches, before, h, from + 1)
    ensures fresh(entry) && entry.next == null && entry.prev == null
    ensures Represented(entry, before, h, from)
    ensures matches' == if elem.Return? then matches[elem.id := entry] else matches
  {
    if elem.Return? {
      entry := new Node(elem.id, Out(elem.output), null);
      matches' := matches[elem.id := entry];
    } else {
      entry := new Node(elem.id, In(elem.input), matches[elem.id]);
      matches' := matches;
    }
  }

  /** The table finds the node of every return event seen so far. */
  ghost predicate Matched<I, O>(matches: map<nat, Node<I, O>>, nodes: seq<Node<I, O>>, h: History<I, O>, from: nat)
    requires WellFormed(h) && from + |nodes| == |h.events|
  {
    forall j: nat | j < |h.callAt| && h.returnAt[j] > from ::
      j in matches && matches[j] == nodes[h.returnAt[j] - 1 - from]
  }

  lemma MatchedMore<I, O>(known: map<nat, Node<I, O>>, before: seq<Node<I, O>>,
                          matches: map<nat, Node<I, O>>, nodes: seq<Node<I, O>>, h: History<I, O>, from: nat)
    requires WellFormed(h) && from + 1 + |before| == |h.events| && Matched(known, before, h, from + 1)
    requires |nodes| == |before| + 1 && nodes[1..] == before
    requires matches == if EventAt(h, from + 1).Return? then known[EventAt(h, from + 1).id := nodes[0]] else known
    ensures Matched(matches, nodes, h, from)
  {
    var e := EventAt(h, from + 1);
    forall j: nat | j < |h.callAt| && h.returnAt[j] > from
      ensures j in matches && matches[j] == nodes[h.returnAt[j] - 1 - from]
    {
      if h.returnAt[j] == from + 1 {
        assert EventAt(h, h.returnAt[j]) == e;
      } else {
        assert e.Return? ==> e.id != j;
        assert nodes[h.returnAt[j] - 1 - from] == before[h.returnAt[j] - 2 - from];
      }
    }
  }

  /** The node in front of `before`. */
  ghost predicate Represented<I, O>(n: Node<I, O>, before: seq<Node<I, O>>, h: History<I, O>, from: nat)
    requires WellFormed(h) && from + 1 + |before| == |h.events|
  {
    var e := EventAt(h, from + 1);
    && n.id == e.id && n.value == PayloadOf(e)
    && n.match_ == if e.Call? then before[h.returnAt[e.id] - 2 - from] else null
  }

  lemma RepresentsMore<I, O>(before: seq<Node<I, O>>, nodes: seq<Node<I, O>>, h: History<I, O>, from: nat)
    requires WellFormed(h) && from < |h.events| && Represents(before, h, from + 1)
    requires |nodes| == |before| + 1 && nodes[1..] == before && Represented(nodes[0], before, h, from)
    ensures Represents(nodes, h, from)
  {
    forall k | 0 <= k < |nodes|
      ensures var e := EventAt(h, from + k + 1);
        && nodes[k].id == e.id && nodes[k].value == PayloadOf(e)
        && nodes[k].match_ == if e.Call? then nodes[h.returnAt[e.id] - 1 - from] else null
    {
      if k > 0 {
        assert nodes[k] == before[k - 1];
      }
    }
  }

  method Length<I, O>(root: Node?<I, O>, ghost nodes: seq<Node<I, O>>) returns (l: nat)
    requires Chain(nodes) && root == if |nodes| == 0 then null else nodes[0]
    ensures l == |nodes|
  {
    l := 0;
    var n := root;
    while n != null
      invariant l <= |nodes| && n == if l < |nodes| then nodes[l] else null
      decreases |nodes| - l
    {
      assert LinkAt(nodes, l);
      n := n.next;
      l := l + 1;
    }
  }

  // ---------- The positions that are left ----------

  predicate Pending<I, O>(h: History<I, O>, done: set<nat>, p: nat) {
    p == 0 || (p <= |h.events| && EventAt(h, p).id !in done)
  }

  /** The head and the events of the operations not yet chosen. */
  function Left<I, O>(h: History<I, O>, done: set<nat>): set<nat> {
    set p: nat | p <= |h.events| && Pending(h, done, p)
  }

  lemma LeftInside<I, O>(h: History<I, O>, done: set<nat>)
    ensures Inside(Left(h, done), |h.events| + 1) && 0 in Left(h, done)
  {
  }

  lemma LeftAfter<I, O>(h: History<I, O>, done: set<nat>, i: nat)
    requires WellFormed(h) && i < |h.callAt|
    ensures Left(h, done + {i}) == Left(h, done) - {h.callAt[i]} - {h.returnAt[i]}
  {
    forall p: nat ensures p in Left(h, done + {i}) <==> p in Left(h, done) && p != h.callAt[i] && p != h.returnAt[i] {
      if 1 <= p <= |h.events| {
        assert EventAt(h, p).id == i ==> p == h.callAt[i] || p == h.returnAt[i];
        assert EventAt(h, h.callAt[i]).id == i && EventAt(h, h.returnAt[i]).id == i;
      }
    }
  }

  lemma PendingEvents<I, O>(h: History<I, O>, done: set<nat>, i: nat)
    requires WellFormed(h) && i < |h.callAt| && i !in done
    ensures h.callAt[i] in Left(h, done) && h.returnAt[i] in Left(h, done)
  {
    assert EventAt(h, h.callAt[i]).id == i && EventAt(h, h.returnAt[i]).id == i;
  }

  lemma NeighboursAdjacent<I, O>(h: History<I, O>, done: set<nat>, p: nat, q: nat)
    requires WellFormed(h) && Adj(Left(h, done), p, q)
    ensures Adjacent(h, done, p, q)
  {
    forall j | 0 <= j < |h.callAt| && j !in done ensures !(p < h.callAt[j] < q) && !(p < h.returnAt[j] < q) {
      PendingEvents(h, done, j);
    }
  }

  /** Nothing is left exactly when every operation is chosen. */
  lemma NothingLeft<I, O>(h: History<I, O>, done: set<nat>)
    requires WellFormed(h) && Last(Left(h, done), 0)
    ensures done >= All(|h.callAt|)
  {
    forall i | i in All(|h.callAt|) ensures i in done {
      if i !in done {
        PendingEvents(h, done, i);
      }
    }
  }

  /** The first position left, behind the head. */
  lemma FirstLeft<I, O>(h: History<I, O>, done: set<nat>, q: nat)
    requires WellFormed(h) && Adj(Left(h, done), 0, q)
    ensures NoReturnBefore(h, done, q) && forall j | 0 <= j < |h.callAt| && j !in done :: q <= h.callAt[j]
  {
    forall j | 0 <= j < |h.callAt| && j !in done ensures q <= h.callAt[j] && q <= h.returnAt[j] {
      PendingEvents(h, done, j);
    }
  }

  // ---------- The search ----------

  datatype CallsEntry<S, I, O> = CallsEntry(entry: Node<I, O>, state: S)

  /** Node `p` is event `p` of the history; node 0 is the head. */
  ghost predicate Placed<I, O>(nodes: seq<Node<I, O>>, h: History<I, O>)
    requires WellFormed(h)
  {
    && |nodes| == |h.events| + 1 && Separate(nodes) && nodes[0].match_ == null
    && forall p | 1 <= p <= |h.events| ::
         var e := EventAt(h, p);
         && nodes[p].id == e.id && nodes[p].value == PayloadOf(e)
         && nodes[p].match_ == if e.Call? then nodes[h.returnAt[e.id]] else null
  }

  lemma AllLeft<I, O>(nodes: seq<Node<I, O>>, h: History<I, O>)
    requires WellFormed(h) && |nodes| == |h.events| + 1 && Chain(nodes)
    ensures Inside(Left(h, {}), |nodes|) && Linked(nodes, Left(h, {}))
  {
    var r := Left(h, {});
    LeftInside(h, {});
    forall p: nat | p <= |h.events| ensures p in r {
    }
    forall p: nat, q: nat | Adj(r, p, q) ensures nodes[p].next == nodes[q] && nodes[q].prev == nodes[p] {
      assert p + 1 in r;
      assert LinkAt(nodes, p) && LinkAt(nodes, q);
    }
    forall p: nat | Last(r, p) ensures nodes[p].next == null {
      assert |h.events| in r;
      assert LinkAt(nodes, p);
    }
  }

  /** The chosen operation `d` remembers its place in the list it was lifted from. */
  ghost predicate LiftedAt<I, O>(nodes: seq<Node<I, O>>, h: History<I, O>, path: seq<nat>, d: int)
    requires WellFormed(h) && Within(path, |h.callAt|) && 0 <= d < |path| && |nodes| == |h.events| + 1
    reads nodes
  {
    var r, i := Left(h, Elements(path[..d])), path[d];
    LeftInside(h, Elements(path[..d]));
    Dangling(nodes, r, h.callAt[i]) && Dangling(nodes, r - {h.callAt[i]}, h.returnAt[i])
  }

  /** The list is the history without the chosen operations. */
  ghost predicate ListOk<I, O>(nodes: seq<Node<I, O>>, h: History<I, O>, path: seq<nat>)
    requires WellFormed(h) && Within(path, |h.callAt|)
    reads nodes
  {
    && Placed(nodes, h)
    && (LeftInside(h, Elements(path)); Linked(nodes, Left(h, Elements(path))))
    && forall d {:trigger LiftedAt(nodes, h, path, d)} | 0 <= d < |path| :: LiftedAt(nodes, h, path, d)
  }

  /** The stack of the code holds the nodes and states of the path. */
  ghost predicate StackOk<S(!new), I(!new), O(!new)>(
    h: History<I, O>, nodes: seq<Node<I, O>>, path: seq<nat>, states: seq<S>, calls: seq<CallsEntry<S, I, O>>)
    requires WellFormed(h) && |nodes| == |h.events| + 1 && Within(path, |h.callAt|) && |states| == |path| + 1
  {
    |calls| == |path| && forall d | 0 <= d < |path| :: calls[d] == CallsEntry(nodes[h.callAt[path[d]]], states[d])
  }

  ghost predicate CursorOk<I, O>(
    h: History<I, O>, nodes: seq<Node<I, O>>, done: set<nat>, first: Node?<I, O>, entry: Node?<I, O>, pos: nat)
    requires WellFormed(h) && |nodes| == |h.events| + 1
  {
    if first == null then pos == |h.events| + 1
    else 1 <= pos <= |h.events| && pos in Left(h, done) && entry == nodes[pos] && NoReturnBefore(h, done, pos)
  }

  ghost predicate CacheOk<S(!new)>(cache: Cache<S>, len: nat, memo: iset<(set<nat>, S)>) {
    && Bucketed(cache, len)
    && forall b, k | Stored(cache, b, k) :: (Bits(cache[b][k].linearized), cache[b][k].state) in memo
  }

  /** Everything already ruled out, provided `equal` respects `step`. */
  ghost predicate RuledOut<S(!new), I(!new), O(!new)>(
    m: Model<S, I, O>, h: History<I, O>, path: seq<nat>, states: seq<S>, pos: nat, memo: iset<(set<nat>, S)>)
    requires WellFormed(h) && |states| == |path| + 1 && Within(path, |h.callAt|)
  {
    EqualRespectsStep(m) ==> Exhausted(m, h, path, states, pos) && MemoOk(m, h, path, states, memo)
  }

  lemma ChosenNotLeft<I, O>(h: History<I, O>, done: set<nat>, i: nat)
    requires WellFormed(h) && i < |h.callAt| && i in done
    ensures h.callAt[i] !in Left(h, done) && h.returnAt[i] !in Left(h, done)
  {
    assert EventAt(h, h.callAt[i]).id == i && EventAt(h, h.returnAt[i]).id == i;
  }

  /** Lifting the next choice: the list loses its two events, earlier choices keep their places. */
  method LiftChoice<I, O>(
    entry: Node<I, O>, ghost nodes: seq<Node<I, O>>, ghost h: History<I, O>, ghost path: seq<nat>, ghost i: nat)
    requires WellFormed(h) && Within(path, |h.callAt|) && ListOk(nodes, h, path)
    requires i < |h.callAt| && i !in Elements(path) && entry == nodes[h.callAt[i]]
    modifies nodes
    ensures Within(path + [i], |h.callAt|) && ListOk(nodes, h, path + [i])
  {
    ghost var done, path' := Elements(path), path + [i];
    ghost var r, c, e := Left(h, done), h.callAt[i], h.returnAt[i];
    LeftInside(h, done);
    PendingEvents(h, done, i);
    assert EventAt(h, c).Call? && EventAt(h, c).id == i;
    Lift(entry, nodes, r, c, e);
    LeftAfter(h, done, i);
    SnocElements(path, i);
    forall d | 0 <= d < |path'| ensures LiftedAt(nodes, h, path', d) {
      if d < |path| {
        assert old(LiftedAt(nodes, h, path, d));
        assert path'[..d] == path[..d];
        ChosenNotLeft(h, done, path[d]);
      } else {
        assert path'[..d] == path;
      }
    }
  }

  /** Unlifting the last choice restores the list it was lifted from. */
  method UnliftChoice<I, O>(
    entry: Node<I, O>, ghost nodes: seq<Node<I, O>>, ghost h: History<I, O>, ghost path: seq<nat>)
    requires WellFormed(h) && Within(path, |h.callAt|) && |path| > 0 && Distinct(path) && ListOk(nodes, h, path)
    requires entry == nodes[h.callAt[path[|path| - 1]]]
    modifies nodes
    ensures ListOk(nodes, h, path[..|path| - 1])
  {
    ghost var k := |path| - 1;
    ghost var path', i := path[..k], path[k];
    ghost var done := Elements(path');
    ghost var r, c, e := Left(h, done), h.callAt[i], h.returnAt[i];
    assert path == path' + [i];
    SnocElements(path', i);
    LeftInside(h, done);
    LeftAfter(h, done, i);
    PendingEvents(h, done, i);
    assert EventAt(h, c).Call? && EventAt(h, c).id == i;
    assert LiftedAt(nodes, h, path, k);
    Unlift(entry, nodes, r, c, e);
    forall d | 0 <= d < k ensures LiftedAt(nodes, h, path', d) {
      assert old(LiftedAt(nodes, h, path, d));
      assert path'[..d] == path[..d];
      ChosenNotLeft(h, done, path[d]);
    }
  }

  /** The cursor passes a dead choice. */
  lemma PassChoice<S(!new), I(!new), O(!new)>(
    m: Model<S, I, O>, h: History<I, O>, nodes: seq<Node<I, O>>, path: seq<nat>, states: seq<S>, pos: nat,
    memo: iset<(set<nat>, S)>)
    returns (q: nat)
    requires WellFormed(h) && Within(path, |h.callAt|) && |path| <= |h.callAt| && |states| == |path| + 1
    requires ListOk(nodes, h, path) && RuledOut(m, h, path, states, pos, memo)
    requires 1 <= pos <= |h.events| && pos in Left(h, Elements(path)) && NoReturnBefore(h, Elements(path), pos)
    requires EventAt(h, pos).Call?
    requires EqualRespectsStep(m) ==> Dead(m, h, Elements(path), states[|path|], EventAt(h, pos).id)
    ensures pos < q <= |h.events| && nodes[pos].next == nodes[q]
    ensures q in Left(h, Elements(path)) && NoReturnBefore(h, Elements(path), q)
    ensures RuledOut(m, h, path, states, q, memo) && Budget(h, path, q) < Budget(h, path, pos)
  {
    var done, i := Elements(path), EventAt(h, pos).id;
    LeftInside(h, done);
    PendingEvents(h, done, i);
    q := NextPosition(Left(h, done), pos);
    NeighboursAdjacent(h, done, pos, q);
    CallIsMinimal(h, done, i);
    CursorMoves(h, done, i, q);
    if EqualRespectsStep(m) {
      TriedMore(m, h, done, states[|path|], i, q);
    }
    AdvanceCosts(h, path, pos, q);
  }

  /** The choice under the cursor is taken; the cursor returns to the front of the list. */
  lemma TakeChoice<S(!new), I(!new), O(!new)>(m: Model<S, I, O>, h: History<I, O>, path: seq<nat>, states: seq<S>,
                                              pos: nat, memo: iset<(set<nat>, S)>, q: nat)
    requires WellFormed(h) && PathOk(m, h, path, states) && Within(path, |h.callAt|) && |path| <= |h.callAt|
    requires RuledOut(m, h, path, states, pos, memo)
    requires 1 <= pos <= |h.events| && pos in Left(h, Elements(path)) && NoReturnBefore(h, Elements(path), pos)
    requires EventAt(h, pos).Call? && StepOp(m, h, states[|path|], EventAt(h, pos).id).0
    requires var r := Left(h, Elements(path + [EventAt(h, pos).id]));
      Adj(r, 0, q) || (Last(r, 0) && q == |h.events| + 1)
    ensures var i := EventAt(h, pos).id;
      var path', states' := path + [i], states + [StepOp(m, h, states[|path|], i).1];
      && PathOk(m, h, path', states') && Within(path', |h.callAt|) && |path'| <= |h.callAt|
      && 1 <= q <= |h.events| + 1 && Elements(path') == Elements(path) + {i} && NoReturnBefore(h, Elements(path'), q)
      && RuledOut(m, h, path', states', q, memo + iset{(Elements(path) + {i}, states'[|path'|])})
      && Budget(h, path', q) < Budget(h, path, pos)
  {
    var done, i := Elements(path), EventAt(h, pos).id;
    var s := StepOp(m, h, states[|path|], i).1;
    var path', states' := path + [i], states + [s];
    CallIsMinimal(h, done, i);
    PushPath(m, h, path, states, i);
    PathDistinct(m, h, path', states');
    PathFits(path', |h.callAt|);
    SnocElements(path, i);
    FirstBehindHead(h, Elements(path'), q);
    if EqualRespectsStep(m) {
      PushMemo(m, h, path, states, memo, i, s);
      PushExhausted(m, h, path, states, i, s, q);
    }
    PushCosts(h, path, i, q);
  }

  lemma FirstBehindHead<I, O>(h: History<I, O>, done: set<nat>, q: nat)
    requires WellFormed(h)
    requires var r := Left(h, done); Adj(r, 0, q) || (Last(r, 0) && q == |h.events| + 1)
    ensures NoReturnBefore(h, done, q) && 1 <= q <= |h.events| + 1
    ensures forall j | 0 <= j < |h.callAt| && j !in done :: q <= h.callAt[j]
  {
    if Last(Left(h, done), 0) {
      NothingLeft(h, done);
      assert forall j: nat | j < |h.callAt| :: j in All(|h.callAt|);
    } else {
      FirstLeft(h, done, q);
    }
  }

  /** The node behind the head is the first event left. */
  lemma FrontCursor<I, O>(nodes: seq<Node<I, O>>, h: History<I, O>, path: seq<nat>) returns (q: nat)
    requires WellFormed(h) && Within(path, |h.callAt|) && ListOk(nodes, h, path)
    ensures var r := Left(h, Elements(path)); Adj(r, 0, q) || (Last(r, 0) && q == |h.events| + 1)
    ensures CursorOk(h, nodes, Elements(path), nodes[0].next, nodes[0].next, q)
  {
    var r := Left(h, Elements(path));
    LeftInside(h, Elements(path));
    q := NextPosition(r, 0);
    if Last(r, 0) {
      q := |h.events| + 1;
    } else {
      FirstLeft(h, Elements(path), q);
    }
  }

  /** The node behind a pending call is the next event left. */
  lemma NextCursor<I, O>(nodes: seq<Node<I, O>>, h: History<I, O>, path: seq<nat>, i: nat) returns (q: nat)
    requires WellFormed(h) && Within(path, |h.callAt|) && ListOk(nodes, h, path)
    requires i < |h.callAt| && Minimal(h, Elements(path), i)
    ensures Adj(Left(h, Elements(path)), h.callAt[i], q)
    ensures nodes[0].next != null && CursorOk(h, nodes, Elements(path), nodes[0].next, nodes[h.callAt[i]].next, q)
  {
    var done, r := Elements(path), Left(h, Elements(path));
    LeftInside(h, done);
    PendingEvents(h, done, i);
    q := NextPosition(r, h.callAt[i]);
    NeighboursAdjacent(h, done, h.callAt[i], q);
    CursorMoves(h, done, i, q);
    var first := NextPosition(r, 0);
  }

  /** A return under the cursor: the position is a dead end. */
  lemma StuckMeansDead<S(!new), I(!new), O(!new)>(m: Model<S, I, O>, h: History<I, O>, path: seq<nat>, states: seq<S>,
                                                  pos: nat, memo: iset<(set<nat>, S)>)
    requires WellFormed(h) && |states| == |path| + 1 && Within(path, |h.callAt|)
    requires EqualRespectsStep(m) && RuledOut(m, h, path, states, pos, memo)
    requires 1 <= pos <= |h.events| && pos in Left(h, Elements(path)) && EventAt(h, pos).Return?
    ensures !Extendable(m, h, Elements(path), states[|path|])
  {
    ReturnMeansDead(m, h, Elements(path), states[|path|], EventAt(h, pos).id);
  }

  /** The last choice is undone; the cursor goes on behind its call. */
  lemma DropChoice<S(!new), I(!new), O(!new)>(m: Model<S, I, O>, h: History<I, O>, path: seq<nat>, states: seq<S>,
                                              pos: nat, memo: iset<(set<nat>, S)>, q: nat)
    requires WellFormed(h) && PathOk(m, h, path, states) && Within(path, |h.callAt|) && 0 < |path| <= |h.callAt|
    requires RuledOut(m, h, path, states, pos, memo)
    requires 1 <= pos <= |h.events| && pos in Left(h, Elements(path)) && EventAt(h, pos).Return?
    requires Adj(Left(h, Elements(path[..|path| - 1])), h.callAt[path[|path| - 1]], q)
    ensures var path', states' := path[..|path| - 1], states[..|path|];
      && PathOk(m, h, path', states') && Within(path', |h.callAt|)
      && 1 <= q <= |h.events| && NoReturnBefore(h, Elements(path'), q)
      && RuledOut(m, h, path', states', q, memo) && Budget(h, path', q) < Budget(h, path, pos)
  {
    var k := |path| - 1;
    var done, i := Elements(path[..k]), path[k];
    PopPath(m, h, path, states);
    LeftInside(h, done);
    NeighboursAdjacent(h, done, h.callAt[i], q);
    assert ChosenAt(m, h, path, states, k);
    CursorMoves(h, done, i, q);
    if EqualRespectsStep(m) {
      StuckMeansDead(m, h, path, states, pos, memo);
      PopMemo(m, h, path, states, memo);
      PopExhausted(m, h, path, states, pos, q);
    }
    PopCosts(h, path, pos, q);
  }

  /** The variables of the search loop ... */
  datatype Loop<S, I, O> = Loop(entry: Node?<I, O>, state: S, cache: Cache<S>, calls: seq<CallsEntry<S, I, O>>)

  /** ... and what they stand for: the choices and states so far, the cursor, the visited positions. */
  datatype Trace<!S> = Trace(
    ghost path: seq<nat>, ghost states: seq<S>, ghost pos: nat, ghost memo: iset<(set<nat>, S)>)

  ghost predicate TraceOk<S(!new), I(!new), O(!new)>(m: Model<S, I, O>, h: History<I, O>, t: Trace<S>)
    requires WellFormed(h)
  {
    && PathOk(m, h, t.path, t.states) && Within(t.path, |h.callAt|) && |t.path| <= |h.callAt|
    && t.pos <= |h.events| + 1 && RuledOut(m, h, t.path, t.states, t.pos, t.memo)
  }

  ghost predicate LoopOk<S(!new), I(!new), O(!new)>(
    m: Model<S, I, O>, h: History<I, O>, nodes: seq<Node<I, O>>, linearized: array<Word>, v: Loop<S, I, O>,
    t: Trace<S>)
    reads nodes, linearized
  {
    && WellFormed(h) && TraceOk(m, h, t) && ListOk(nodes, h, t.path)
    && StackOk(h, nodes, t.path, t.states, v.calls) && v.state == t.states[|t.path|]
    && Bits(linearized[..]) == Elements(t.path) && |h.callAt| <= WORDSIZE * linearized.Length
    && CursorOk(h, nodes, Elements(t.path), nodes[0].next, v.entry, t.pos)
    && CacheOk(v.cache, linearized.Length, t.memo)
  }

  /** What is left to do. */
  ghost function Work<S(!new), I(!new), O(!new)>(m: Model<S, I, O>, h: History<I, O>, t: Trace<S>): nat
    requires WellFormed(h) && TraceOk(m, h, t)
  {
    Budget(h, t.path, t.pos)
  }

  /** The operation under the cursor leads nowhere: go on to the next event. */
  method Advance<S(!new), I(!new), O(!new)>(
    ghost m: Model<S, I, O>, ghost h: History<I, O>, ghost nodes: seq<Node<I, O>>, linearized: array<Word>,
    v: Loop<S, I, O>, ghost t: Trace<S>)
    returns (v': Loop<S, I, O>, ghost t': Trace<S>)
    requires LoopOk(m, h, nodes, linearized, v, t) && nodes[0].next != null && EventAt(h, t.pos).Call?
    requires EqualRespectsStep(m) ==> Dead(m, h, Elements(t.path), t.states[|t.path|], EventAt(h, t.pos).id)
    ensures LoopOk(m, h, nodes, linearized, v', t') && Work(m, h, t') < Work(m, h, t)
  {
    ghost var q := PassChoice(m, h, nodes, t.path, t.states, t.pos, t.memo);
    v' := v.(entry := v.entry.next);
    t' := t.(pos := q);
  }

  /** The operation under the cursor becomes the next choice. */
  method Push<S(!new), I(!new), O(!new)>(
    ghost m: Model<S, I, O>, ghost h: History<I, O>, head: Node<I, O>, ghost nodes: seq<Node<I, O>>,
    linearized: array<Word>, v: Loop<S, I, O>, ghost t: Trace<S>, e: CacheEntry<S>)
    returns (v': Loop<S, I, O>, ghost t': Trace<S>)
    requires LoopOk(m, h, nodes, linearized, v, t) && nodes[0] == head && head.next != null && EventAt(h, t.pos).Call?
    requires StepOp(m, h, v.state, EventAt(h, t.pos).id) == (true, e.state)
    requires |e.linearized| == linearized.Length && Bits(e.linearized) == Elements(t.path) + {EventAt(h, t.pos).id}
    modifies nodes, linearized
    ensures LoopOk(m, h, nodes, linearized, v', t') && Work(m, h, t') < Work(m, h, t)
  {
    ghost var i := EventAt(h, t.pos).id;
    var cache := Add(v.cache, e);
    CachePush(v.cache, cache, e, t.memo);
    StackPush(h, nodes, t.path, t.states, v.calls, i, e.state);
    Set(linearized, v.entry.id);
    LiftChoice(v.entry, nodes, h, t.path, i);
    ghost var q := FrontCursor(nodes, h, t.path + [i]);
    TakeChoice(m, h, t.path, t.states, t.pos, t.memo, q);
    v' := Loop(head.next, e.state, cache, v.calls + [CallsEntry(v.entry, v.state)]);
    t' := Trace(t.path + [i], t.states + [e.state], q, t.memo + iset{(Elements(t.path) + {i}, e.state)});
  }

  /** Put the last choice back into the list and take it out of the bit set. */
  method Restore<S(!new), I(!new), O(!new)>(
    ghost m: Model<S, I, O>, ghost h: History<I, O>, ghost nodes: seq<Node<I, O>>, linearized: array<Word>,
    entry: Node<I, O>, ghost path: seq<nat>)
    requires WellFormed(h) && Within(path, |h.callAt|) && |path| > 0 && Distinct(path) && ListOk(nodes, h, path)
    requires Bits(linearized[..]) == Elements(path) && |h.callAt| <= WORDSIZE * linearized.Length
    requires entry == nodes[h.callAt[path[|path| - 1]]] && entry.id == path[|path| - 1]
    requires Elements(path[..|path| - 1]) == Elements(path) - {path[|path| - 1]}
    modifies nodes, linearized
    ensures ListOk(nodes, h, path[..|path| - 1]) && Bits(linearized[..]) == Elements(path[..|path| - 1])
  {
    Clear(linearized, entry.id);
    UnliftChoice(entry, nodes, h, path);
  }

  /** No choice is left here: undo the last one. */
  method Backtrack<S(!new), I(!new), O(!new)>(
    ghost m: Model<S, I, O>, ghost h: History<I, O>, ghost nodes: seq<Node<I, O>>, linearized: array<Word>,
    v: Loop<S, I, O>, ghost t: Trace<S>)
    returns (v': Loop<S, I, O>, ghost t': Trace<S>)
    requires LoopOk(m, h, nodes, linearized, v, t) && nodes[0].next != null && EventAt(h, t.pos).Return?
      && |v.calls| > 0
    modifies nodes, linearized
    ensures LoopOk(m, h, nodes, linearized, v', t') && Work(m, h, t') < Work(m, h, t)
  {
    ghost var k := |t.path| - 1;
    ghost var path, states := t.path[..k], t.states[..|t.path|];
    var top := v.calls[|v.calls| - 1];
    TopOfStack(m, h, nodes, t.path, t.states, v.calls);
    Restore(m, h, nodes, linearized, top.entry, t.path);
    ghost var q := NextCursor(nodes, h, path, t.path[k]);
    DropChoice(m, h, t.path, t.states, t.pos, t.memo, q);
    t' := Trace(path, states, q, t.memo);
    assert TraceOk(m, h, t');
    v' := Loop(top.entry.next, top.state, v.cache, v.calls[..|v.calls| - 1]);
  }

  lemma StackPush<S(!new), I(!new), O(!new)>(h: History<I, O>, nodes: seq<Node<I, O>>, path: seq<nat>, states: seq<S>,
                                             calls: seq<CallsEntry<S, I, O>>, i: nat, s: S)
    requires WellFormed(h) && |nodes| == |h.events| + 1 && Within(path, |h.callAt|) && |states| == |path| + 1
      && i < |h.callAt|
    requires StackOk(h, nodes, path, states, calls)
    ensures Within(path + [i], |h.callAt|)
    ensures StackOk(h, nodes, path + [i], states + [s], calls + [CallsEntry(nodes[h.callAt[i]], states[|path|])])
  {
  }

  lemma CachePush<S(!new)>(cache: Cache<S>, cache': Cache<S>, e: CacheEntry<S>, memo: iset<(set<nat>, S)>)
    requires CacheOk(cache, |e.linearized|, memo) && Bucketed(cache', |e.linearized|)
    requires forall b, k :: Stored(cache', b, k) ==>
      cache'[b][k] == e || (Stored(cache, b, k) && cache[b][k] == cache'[b][k])
    ensures CacheOk(cache', |e.linearized|, memo + iset{(Bits(e.linearized), e.state)})
  {
  }

  /** The top of the stack is the last choice, with the state it was made in. */
  lemma TopOfStack<S(!new), I(!new), O(!new)>(
    m: Model<S, I, O>, h: History<I, O>, nodes: seq<Node<I, O>>, path: seq<nat>, states: seq<S>,
    calls: seq<CallsEntry<S, I, O>>)
    requires WellFormed(h) && PathOk(m, h, path, states) && Within(path, |h.callAt|) && |path| > 0 && Placed(nodes, h)
    requires StackOk(h, nodes, path, states, calls)
    ensures var k := |path| - 1;
      && Distinct(path) && Within(path[..k], |h.callAt|) && Minimal(h, Elements(path[..k]), path[k])
      && Elements(path[..k]) == Elements(path) - {path[k]}
      && calls[k] == CallsEntry(nodes[h.callAt[path[k]]], states[k]) && calls[k].entry.id == path[k]
      && StackOk(h, nodes, path[..k], states[..|path|], calls[..k])
  {
    var k := |path| - 1;
    PathDistinct(m, h, path, states);
    assert ChosenAt(m, h, path, states, k);
    SnocElements(path[..k], path[k]);
    assert path == path[..k] + [path[k]];
    assert EventAt(h, h.callAt[path[k]]).id == path[k];
  }

  /** A call under the cursor: take it if the model allows it and the position is new. */
  method TryCall<S(!new), I(!new), O(!new)>(
    m: Model<S, I, O>, ghost h: History<I, O>, head: Node<I, O>, ghost nodes: seq<Node<I, O>>,
    linearized: array<Word>, v: Loop<S, I, O>, ghost t: Trace<S>)
    returns (v': Loop<S, I, O>, ghost t': Trace<S>)
    requires LoopOk(m, h, nodes, linearized, v, t) && nodes[0] == head && head.next != null && EventAt(h, t.pos).Call?
    modifies nodes, linearized
    ensures LoopOk(m, h, nodes, linearized, v', t') && Work(m, h, t') < Work(m, h, t)
  {
    ghost var i := EventAt(h, t.pos).id;
    assert EventAt(h, h.returnAt[i]).Return?;
    var matching := v.entry.match_;
    var (ok, newState) := m.step(v.state, v.entry.value.input, matching.value.output);
    if ok {
      var newLinearized := Clone(linearized);
      Set(newLinearized, v.entry.id);
      var e := CacheEntry(newLinearized[..], newState);
      var known := Contains(m, v.cache, e);
      if !known {
        v', t' := Push(m, h, head, nodes, linearized, v, t, e);
      } else {
        KnownMeansDead(m, h, t, v.cache, linearized.Length, e, i);
        v', t' := Advance(m, h, nodes, linearized, v, t);
      }
    } else {
      v', t' := Advance(m, h, nodes, linearized, v, t);
    }
  }

  /** A memo hit rules the choice out. */
  lemma KnownMeansDead<S(!new), I(!new), O(!new)>(
    m: Model<S, I, O>, h: History<I, O>, t: Trace<S>, cache: Cache<S>, len: nat, e: CacheEntry<S>, i: nat)
    requires WellFormed(h) && TraceOk(m, h, t) && CacheOk(cache, len, t.memo) && Known(m, cache, e)
    requires i < |h.callAt| && i !in Elements(t.path) && h.callAt[i] == t.pos
      && NoReturnBefore(h, Elements(t.path), t.pos)
    requires Bits(e.linearized) == Elements(t.path) + {i} && e.state == StepOp(m, h, t.states[|t.path|], i).1
    ensures EqualRespectsStep(m) ==> Dead(m, h, Elements(t.path), t.states[|t.path|], i)
  {
    if EqualRespectsStep(m) {
      var b, k :| Stored(cache, b, k) && Bits(cache[b][k].linearized) == Bits(e.linearized)
        && m.equal(e.state, cache[b][k].state);
      CallIsMinimal(h, Elements(t.path), i);
      MemoHitMeansDead(m, h, t.path, t.states, t.memo, i, cache[b][k].state);
    }
  }

  lemma HeadPlaced<I, O>(nodes: seq<Node<I, O>>, head: Node<I, O>, h: History<I, O>)
    requires WellFormed(h) && Represents(nodes, h, 0) && Separate([head] + nodes) && head.match_ == null
    ensures Placed([head] + nodes, h)
  {
    var all := [head] + nodes;
    forall p | 1 <= p <= |h.events|
      ensures var e := EventAt(h, p);
        && all[p].id == e.id && all[p].value == PayloadOf(e)
        && all[p].match_ == if e.Call? then all[h.returnAt[e.id]] else null
    {
      assert all[p] == nodes[p - 1];
    }
  }

  lemma StartOk<S(!new), I(!new), O(!new)>(
    m: Model<S, I, O>, h: History<I, O>, nodes: seq<Node<I, O>>, linearized: array<Word>)
    requires WellFormed(h) && Placed(nodes, h) && Chain(nodes)
    requires Bits(linearized[..]) == {} && |h.callAt| <= WORDSIZE * linearized.Length
    ensures LoopOk(m, h, nodes, linearized, Loop(nodes[0].next, m.init, map[], []), Trace([], [m.init], 1, iset{}))
  {
    AllLeft(nodes, h);
    assert Elements([]) == {};
    assert LinkAt(nodes, 0);
    if nodes[0].next != null {
      assert Pending(h, {}, 1);
    }
  }

  /** The stack is empty and a return is under the cursor: there is no linearization. */
  lemma RefutesHistory<S(!new), I(!new), O(!new)>(m: Model<S, I, O>, h: History<I, O>, t: Trace<S>)
    requires WellFormed(h) && TraceOk(m, h, t) && t.path == [] && EqualRespectsStep(m)
    requires 1 <= t.pos <= |h.events| && t.pos in Left(h, Elements(t.path)) && EventAt(h, t.pos).Return?
    ensures !Linearizable(m, h)
  {
    StuckMeansDead(m, h, t.path, t.states, t.pos, t.memo);
    assert Elements([]) == {};
    ExtendableIffExplained(m, h, {}, m.init);
  }

  /** The list with its head, and the number of operations. */
  method MakeList<I, O>(
    events: seq<Event<I, O>>, ghost h: History<I, O>)
    returns (head: Node<I, O>, n: nat, ghost nodes: seq<Node<I, O>>)
    requires WellFormed(h) && h.events == events
    ensures Chain(nodes) && Placed(nodes, h) && nodes[0] == head && n == |h.callAt|
    ensures forall k | 0 <= k < |nodes| :: fresh(nodes[k])
  {
    ghost var chain;
    var root;
    root, chain := MakeLinkedEntries(events, h);
    var length := Length(root, chain);
    n := length / 2;
    head := new Node(-1, Nothing, null);
    Prepend(head, root, chain);
    nodes := [head] + chain;
    HeadPlaced(chain, head, h);
  }

  /** The variables before the first iteration. */
  method Setup<S(!new), I(!new), O(!new)>(m: Model<S, I, O>, events: seq<Event<I, O>>, ghost h: History<I, O>)
      returns (head: Node<I, O>, linearized: array<Word>, v: Loop<S, I, O>, ghost nodes: seq<Node<I, O>>,
        ghost t: Trace<S>)
    requires WellFormed(h) && h.events == events
    ensures LoopOk(m, h, nodes, linearized, v, t) && nodes[0] == head
    ensures fresh(linearized) && forall k | 0 <= k < |nodes| :: fresh(nodes[k])
  {
    var n;
    head, n, nodes := MakeList(events, h);
    linearized := Bitset.New(n);
    StartOk(m, h, nodes, linearized);
    v := Loop(head.next, m.init, map[], []);
    t := Trace([], [m.init], 1, iset{});
  }

  /** The identifiers on a full stack are a linearization. */
  method Chosen<S(!new), I(!new), O(!new)>(
    ghost m: Model<S, I, O>, ghost h: History<I, O>, ghost nodes: seq<Node<I, O>>, ghost t: Trace<S>,
    calls: seq<CallsEntry<S, I, O>>)
    returns (order: seq<nat>)
    requires WellFormed(h) && TraceOk(m, h, t) && ListOk(nodes, h, t.path) && StackOk(h, nodes, t.path, t.states, calls)
    requires nodes[0].next == null
    ensures Explains(m, h, {}, m.init, order)
  {
    order := [];
    var d := 0;
    while d < |calls|
      invariant 0 <= d <= |calls| && order == t.path[..d]
    {
      assert EventAt(h, h.callAt[t.path[d]]).id == t.path[d];
      order := order + [calls[d].entry.id];
      d := d + 1;
    }
    ghost var q := FrontCursor(nodes, h, t.path);
    NothingLeft(h, Elements(t.path));
    FullPathExplains(m, h, t.path, t.states);
    assert order == t.path;
  }

  /** checkSingle: sound always, complete when `equal` respects `step`, and terminating on every
      well-formed history.  On success the stack is a linearization. */
  method CheckSingle<S(!new), I(!new), O(!new)>(
    m: Model<S, I, O>, events: seq<Event<I, O>>, ghost h: History<I, O>)
    returns (ok: bool, order: seq<nat>)
    requires WellFormed(h) && h.events == events
    ensures ok ==> Explains(m, h, {}, m.init, order) && Linearizable(m, h)
    ensures !ok && EqualRespectsStep(m) ==> !Linearizable(m, h)
  {
    ghost var nodes, t;
    var head, linearized, v;
    head, linearized, v, nodes, t := Setup(m, events, h);
    while head.next != null
      invariant LoopOk(m, h, nodes, linearized, v, t)
      decreases Work(m, h, t)
    {
      if v.entry.match_ != null {
        v, t := TryCall(m, h, head, nodes, linearized, v, t);
      } else {
        if |v.calls| == 0 {
          if EqualRespectsStep(m) {
            RefutesHistory(m, h, t);
          }
          return false, [];
        }
        v, t := Backtrack(m, h, nodes, linearized, v, t);
      }
    }
    ok := true;
    order := Chosen(m, h, nodes, t, v.calls);
  }
}
