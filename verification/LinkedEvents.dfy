/** The doubly linked list of events, with lifting and unlifting. */
module LinkedEvents {
  import opened LinearSearch

  // Nodes are lifted out of the list and put back in last-in, first-out order.  Positions are indices
  // into the original sequence of nodes; the list is always the original order restricted to a set of
  // positions.

  datatype Payload<I, O> = Nothing | In(input: I) | Out(output: O)

  class Node<I, O> {
    const id: int
    const value: Payload<I, O>
    /** The return of a call; null for a return. */
    const match_: Node?<I, O>
    var next: Node?<I, O>
    var prev: Node?<I, O>

    constructor (id: int, value: Payload<I, O>, match_: Node?<I, O>)
      ensures this.id == id && this.value == value && this.match_ == match_ && next == null && prev == null
    {
      this.id, this.value, this.match_ := id, value, match_;
      next, prev := null, null;
    }
  }

  // ---------- The list that is left ----------

  /** `p` and `q` are neighbours among the positions of `r`. */
  ghost predicate Adj(r: set<nat>, p: nat, q: nat) {
    p in r && q in r && p < q && forall x: nat | x in r :: !(p < x < q)
  }

  ghost predicate Last(r: set<nat>, p: nat) {
    p in r && forall x: nat | x in r :: x <= p
  }

  ghost predicate Separate<I, O>(nodes: seq<Node<I, O>>) {
    forall a, b | 0 <= a < b < |nodes| :: nodes[a] != nodes[b]
  }

  ghost predicate Inside(r: set<nat>, n: nat) {
    forall p: nat | p in r :: p < n
  }

  /** The nodes at the positions of `r`, in order, are exactly the list. */
  ghost predicate Linked<I, O>(nodes: seq<Node<I, O>>, r: set<nat>)
    requires Inside(r, |nodes|)
    reads nodes
  {
    && (forall p: nat, q: nat {:trigger Adj(r, p, q)} | Adj(r, p, q) ::
      nodes[p].next == nodes[q] && nodes[q].prev == nodes[p])
    && (forall p: nat {:trigger Last(r, p)} | Last(r, p) :: nodes[p].next == null)
  }

  /** The node at `c` still points to its neighbours of the time when the list was `r`. */
  ghost predicate Dangling<I, O>(nodes: seq<Node<I, O>>, r: set<nat>, c: nat)
    requires Inside(r, |nodes|) && c < |nodes|
    reads nodes
  {
    && (forall p: nat {:trigger Adj(r, p, c)} | Adj(r, p, c) :: nodes[c].prev == nodes[p])
    && (forall q: nat {:trigger Adj(r, c, q)} | Adj(r, c, q) :: nodes[c].next == nodes[q])
    && (Last(r, c) ==> nodes[c].next == null)
  }

  lemma {:induction false} Predecessor(r: set<nat>, c: nat, from: nat) returns (p: nat)
    requires c in r && from in r && from < c
    ensures Adj(r, p, c) && from <= p
    decreases c - from
  {
    if x: nat :| x in r && from < x < c {
      p := Predecessor(r, c, x);
    } else {
      p := from;
    }
  }

  lemma {:induction false} Successor(r: set<nat>, c: nat, upTo: nat) returns (q: nat)
    requires c in r && upTo in r && c < upTo
    ensures Adj(r, c, q) && q <= upTo
    decreases upTo - c
  {
    if x: nat :| x in r && c < x < upTo {
      q := Successor(r, c, x);
    } else {
      q := upTo;
    }
  }

  /** A position is the last one or has a neighbour behind it. */
  lemma NextPosition(r: set<nat>, c: nat) returns (q: nat)
    requires c in r
    ensures Last(r, c) || Adj(r, c, q)
  {
    q := 0;
    if x: nat :| x in r && c < x {
      q := Successor(r, c, x);
    }
  }

  // ---------- Taking a node out and putting it back ----------

  lemma RemovedNeighbours(r: set<nat>, p: nat, c: nat, x: nat, y: nat)
    requires Adj(r, p, c) && Adj(r - {c}, x, y)
    ensures Adj(r, x, y) || (x == p && Adj(r, c, y))
  {
    assert x in r && y in r && p in r - {c};
    if !(x < c < y) {
      forall z: nat | z in r ensures !(x < z < y) {
        assert z != c ==> z in r - {c};
      }
    } else {
      forall z: nat | z in r ensures !(c < z < y) {
        assert z != c ==> z in r - {c};
      }
    }
  }

  lemma RemovedLast(r: set<nat>, p: nat, c: nat, x: nat)
    requires Adj(r, p, c) && Last(r - {c}, x)
    ensures Last(r, x) || (Last(r, c) && x == p)
  {
    assert p in r - {c} && x in r;
    forall z: nat | z in r ensures z <= x || z <= c {
      assert z != c ==> z in r - {c};
    }
  }

  lemma KeptNeighbours(r: set<nat>, c: nat, x: nat, y: nat)
    requires Adj(r, x, y) && x != c && y != c
    ensures Adj(r - {c}, x, y)
  {
  }

  method Unlink<I, O>(x: Node<I, O>, ghost nodes: seq<Node<I, O>>, ghost r: set<nat>, ghost c: nat)
    requires Separate(nodes) && Inside(r, |nodes|) && Linked(nodes, r)
    requires 0 in r && c in r && c > 0 && x == nodes[c]
    modifies nodes
    ensures Linked(nodes, r - {c}) && Dangling(nodes, r, c)
    ensures forall p: nat | p < |nodes| && p !in r ::
      nodes[p].next == old(nodes[p].next) && nodes[p].prev == old(nodes[p].prev)
  {
    ghost var p := Predecessor(r, c, 0);
    ghost var q := NextPosition(r, c);
    x.prev.next := x.next;
    if x.next != null {
      x.next.prev := x.prev;
    }
    forall a: nat, b: nat | Adj(r - {c}, a, b) ensures nodes[a].next == nodes[b] && nodes[b].prev == nodes[a] {
      RemovedNeighbours(r, p, c, a, b);
    }
    forall a: nat | Last(r - {c}, a) ensures nodes[a].next == null {
      RemovedLast(r, p, c, a);
    }
  }

  method Relink<I, O>(x: Node<I, O>, ghost nodes: seq<Node<I, O>>, ghost r: set<nat>, ghost c: nat)
    requires Separate(nodes) && Inside(r, |nodes|) && 0 in r && c in r && c > 0 && x == nodes[c]
    requires Linked(nodes, r - {c}) && Dangling(nodes, r, c)
    modifies nodes
    ensures Linked(nodes, r)
    ensures forall p: nat | p < |nodes| && p !in r ::
      nodes[p].next == old(nodes[p].next) && nodes[p].prev == old(nodes[p].prev)
  {
    ghost var p := Predecessor(r, c, 0);
    ghost var q := NextPosition(r, c);
    x.prev.next := x;
    if x.next != null {
      x.next.prev := x;
    }
    forall a: nat, b: nat | Adj(r, a, b) ensures nodes[a].next == nodes[b] && nodes[b].prev == nodes[a] {
      if a != c && b != c {
        KeptNeighbours(r, c, a, b);
      }
    }
    forall a: nat | Last(r, a) ensures nodes[a].next == null {
      assert a != c ==> Last(r - {c}, a);
    }
  }

  /** Take a call and its return out of the list. */
  method Lift<I, O>(entry: Node<I, O>, ghost nodes: seq<Node<I, O>>, ghost r: set<nat>, ghost c: nat, ghost e: nat)
    requires Separate(nodes) && Inside(r, |nodes|) && Linked(nodes, r)
    requires 0 in r && c in r && e in r && 0 < c < e && entry == nodes[c] && entry.match_ == nodes[e]
    modifies nodes
    ensures Linked(nodes, r - {c} - {e}) && Dangling(nodes, r, c) && Dangling(nodes, r - {c}, e)
    ensures forall p: nat | p < |nodes| && p !in r ::
      nodes[p].next == old(nodes[p].next) && nodes[p].prev == old(nodes[p].prev)
  {
    Unlink(entry, nodes, r, c);
    Unlink(entry.match_, nodes, r - {c}, e);
  }

  /** Put back the call and the return that were lifted last. */
  method Unlift<I, O>(entry: Node<I, O>, ghost nodes: seq<Node<I, O>>, ghost r: set<nat>, ghost c: nat, ghost e: nat)
    requires Separate(nodes) && Inside(r, |nodes|) && Linked(nodes, r - {c} - {e})
    requires 0 in r && c in r && e in r && 0 < c < e && entry == nodes[c] && entry.match_ == nodes[e]
    requires Dangling(nodes, r, c) && Dangling(nodes, r - {c}, e)
    modifies nodes
    ensures Linked(nodes, r)
    ensures forall p: nat | p < |nodes| && p !in r ::
      nodes[p].next == old(nodes[p].next) && nodes[p].prev == old(nodes[p].prev)
  {
    Relink(entry.match_, nodes, r - {c}, e);
    Relink(entry, nodes, r, c);
  }
}
