/** The worker's two tasks (src/mr/worker.go) and the sequential program (src/main/mrsequential.go). */
module MrWorker {
  import opened MapReduce
  import opened Sorting

  /** The shared directory: intermediate files mr-X-Y by map task and reduce task, output files
      mr-out-Y by reduce task. */
  class Directory {
    var inter: map<(nat, nat), seq<KeyValue>>
    var outs: map<nat, seq<Line>>

    constructor ()
      ensures inter == map[] && outs == map[]
    {
      inter, outs := map[], map[];
    }
  }

  // ---------- Map ----------

  lemma PartNext(c: Config, pairs: seq<KeyValue>, k: nat, r: nat)
    requires c.nReduce > 0 && k < |pairs|
    ensures Part(c, pairs[..k + 1], r)
         == Part(c, pairs[..k], r) + if TaskOf(c, pairs[k].key) == r then [pairs[k]] else []
  {
    assert pairs[..k + 1] == pairs[..k] + [pairs[k]];
    PartConcat(c, pairs[..k], [pairs[k]], r);
    assert Part(c, [pairs[k]], r) == if TaskOf(c, pairs[k].key) == r then [pairs[k]] else [];
  }

  /** Groups the pairs by reduce task; a task without pairs gets no group. */
  method Split(c: Config, pairs: seq<KeyValue>) returns (groups: map<nat, seq<KeyValue>>)
    requires c.nReduce > 0
    ensures forall r: nat :: r in groups <==> |Part(c, pairs, r)| > 0
    ensures forall r | r in groups :: groups[r] == Part(c, pairs, r)
  {
    groups := map[];
    var k := 0;
    while k < |pairs|
      invariant 0 <= k <= |pairs|
      invariant forall r: nat :: r in groups <==> |Part(c, pairs[..k], r)| > 0
      invariant forall r | r in groups :: groups[r] == Part(c, pairs[..k], r)
    {
      var index := TaskOf(c, pairs[k].key);
      forall r: nat
        ensures Part(c, pairs[..k + 1], r) == Part(c, pairs[..k], r) + if r == index then [pairs[k]] else []
      {
        PartNext(c, pairs, k, r);
      }
      groups := groups[index := (if index in groups then groups[index] else []) + [pairs[k]]];
      k := k + 1;
    }
    assert pairs[..|pairs|] == pairs;
  }

  /** The map task writes one intermediate file for each reduce task that gets pairs, and no other. */
  method MapTask(c: Config, id: nat, dir: Directory)
    requires id < |c.files| && c.nReduce > 0
    modifies dir
    ensures dir.outs == old(dir.outs)
    ensures forall i: nat, r: nat ::
      (i, r) in dir.inter <==> (i, r) in old(dir.inter) || (i == id && |Part(c, Emitted(c, id), r)| > 0)
    ensures forall i: nat, r: nat | (i, r) in dir.inter ::
      dir.inter[(i, r)] == if i == id && |Part(c, Emitted(c, id), r)| > 0 then Part(c, Emitted(c, id), r)
        else old(dir.inter)[(i, r)]
  {
    var groups := Split(c, c.mapf(c.files[id].name, c.files[id].content));
    var rest := groups.Keys;
    while rest != {}
      invariant rest <= groups.Keys && dir.outs == old(dir.outs)
      invariant forall i: nat, r: nat ::
        (i, r) in dir.inter <==> (i, r) in old(dir.inter) || (i == id && r in groups.Keys - rest)
      invariant forall i: nat, r: nat | (i, r) in dir.inter ::
        dir.inter[(i, r)] == if i == id && r in groups.Keys - rest then groups[r] else old(dir.inter)[(i, r)]
    {
      var r :| r in rest;
      dir.inter := dir.inter[(id, r) := groups[r]];
      rest := rest - {r};
    }
  }

  // ---------- Grouping ----------

  predicate ByKey(a: KeyValue, b: KeyValue) {
    StrLess(a.key, b.key)
  }

  lemma KeysOrdered()
    ensures StrictOrder(ByKey)
  {
    StringsOrdered();
    forall a, b, c | ByKey(a, b) && ByKey(b, c) ensures ByKey(a, c) {
      StrLessTransitive(a.key, b.key, c.key);
    }
  }

  /** All keys of the first `i` pairs are smaller than all later ones. */
  predicate Boundary(pairs: seq<KeyValue>, i: nat)
    requires i <= |pairs|
  {
    forall a, b | 0 <= a < i <= b < |pairs| :: StrLess(pairs[a].key, pairs[b].key)
  }

  lemma {:induction false} NoValues(pairs: seq<KeyValue>, key: string)
    requires forall a | 0 <= a < |pairs| :: pairs[a].key != key
    ensures Values(pairs, key) == []
  {
    if |pairs| > 0 {
      NoValues(pairs[1..], key);
    }
  }

  lemma {:induction false} GroupValues(pairs: seq<KeyValue>, key: string)
    requires forall a | 0 <= a < |pairs| :: pairs[a].key == key
    ensures Values(pairs, key) == seq(|pairs|, a requires 0 <= a < |pairs| => pairs[a].value)
  {
    if |pairs| > 0 {
      GroupValues(pairs[1..], key);
    }
  }

  /** The run of one key, `i` up to `j`, holds all values of that key among the first `j` pairs. */
  lemma RunValues(pairs: seq<KeyValue>, i: nat, j: nat, key: string)
    requires i < j <= |pairs| && Boundary(pairs, i)
    requires forall a | i <= a < j :: pairs[a].key == pairs[i].key
    ensures Values(pairs[..j], key)
         == if key == pairs[i].key then seq(j - i, a requires 0 <= a < j - i => pairs[i + a].value)
           else Values(pairs[..i], key)
  {
    var run := pairs[i..j];
    assert pairs[..j] == pairs[..i] + run;
    ValuesConcat(pairs[..i], run, key);
    if key == pairs[i].key {
      forall a | 0 <= a < i ensures pairs[a].key != key {
        StrLessIrreflexive(key);
      }
      NoValues(pairs[..i], key);
      GroupValues(run, key);
    } else {
      NoValues(run, key);
    }
  }

  lemma NextBoundary(pairs: seq<KeyValue>, i: nat, j: nat)
    requires Sorted(ByKey, pairs) && i < j <= |pairs| && Boundary(pairs, i)
    requires forall a | i <= a < j :: pairs[a].key == pairs[i].key
    requires j < |pairs| ==> pairs[j].key != pairs[i].key
    ensures Boundary(pairs, j)
  {
    forall a, b | 0 <= a < j <= b < |pairs| ensures StrLess(pairs[a].key, pairs[b].key) {
      if a >= i {
        assert !ByKey(pairs[j], pairs[i]);
        StrLessTotal(pairs[i].key, pairs[j].key);
        if b > j {
          assert !ByKey(pairs[b], pairs[j]);
          StrLessTotal(pairs[j].key, pairs[b].key);
          if StrLess(pairs[j].key, pairs[b].key) {
            StrLessTransitive(pairs[i].key, pairs[j].key, pairs[b].key);
          }
        }
      }
    }
  }

  lemma LineAppended(f: Reducef, pairs: seq<KeyValue>, i: nat, j: nat, lines: seq<Line>, line: Line)
    requires i < j <= |pairs| && Boundary(pairs, i) && Reduced(f, pairs[..i], lines)
    requires forall a | i <= a < j :: pairs[a].key == pairs[i].key
    requires line == Line(pairs[i].key, f(pairs[i].key, seq(j - i, a requires 0 <= a < j - i => pairs[i + a].value)))
    ensures Reduced(f, pairs[..j], lines + [line])
  {
    forall x: Line ensures x in lines + [line] <==> Belongs(f, pairs[..j], x) {
      RunValues(pairs, i, j, x.key);
      EarlierKey(f, pairs, i, lines, x);
    }
    forall a | 0 <= a < |lines| ensures StrLess(lines[a].key, line.key) {
      EarlierKey(f, pairs, i, lines, lines[a]);
    }
  }

  lemma EarlierKey(f: Reducef, pairs: seq<KeyValue>, i: nat, lines: seq<Line>, x: Line)
    requires i < |pairs| && Boundary(pairs, i) && Reduced(f, pairs[..i], lines)
    ensures x in lines ==> StrLess(x.key, pairs[i].key) && x.key != pairs[i].key
  {
    if x in lines {
      assert Belongs(f, pairs[..i], x);
      if forall a | 0 <= a < i :: pairs[a].key != x.key {
        NoValues(pairs[..i], x.key);
      }
      StrLessIrreflexive(x.key);
    }
  }

  /** The loop over runs of equal keys computes the reduced pairs. */
  method GroupReduce(f: Reducef, pairs: seq<KeyValue>) returns (lines: seq<Line>)
    requires Sorted(ByKey, pairs)
    ensures Reduced(f, pairs, lines)
  {
    lines := [];
    var i := 0;
    while i < |pairs|
      invariant 0 <= i <= |pairs| && Boundary(pairs, i)
      invariant Reduced(f, pairs[..i], lines)
    {
      var j := i + 1;
      while j < |pairs| && pairs[j].key == pairs[i].key
        invariant i < j <= |pairs| && forall a | i <= a < j :: pairs[a].key == pairs[i].key
      {
        j := j + 1;
      }
      var values := [];
      var k := i;
      while k < j
        invariant i <= k <= j && |values| == k - i
        invariant forall a | 0 <= a < k - i :: values[a] == pairs[i + a].value
      {
        values := values + [pairs[k].value];
        k := k + 1;
      }
      assert values == seq(j - i, a requires 0 <= a < j - i => pairs[i + a].value);
      var line := Line(pairs[i].key, f(pairs[i].key, values));
      LineAppended(f, pairs, i, j, lines, line);
      NextBoundary(pairs, i, j);
      lines := lines + [line];
      i := j;
    }
    assert pairs[..|pairs|] == pairs;
  }

  // ---------- Reduce ----------

  /** The pairs in the intermediate files of reduce task `r`, listed by map task. */
  function Gathered(inter: map<(nat, nat), seq<KeyValue>>, names: seq<nat>, r: nat): seq<KeyValue>
    requires forall k | 0 <= k < |names| :: (names[k], r) in inter
  {
    if |names| == 0 then [] else Gathered(inter, names[..|names| - 1], r) + inter[(names[|names| - 1], r)]
  }

  /** What a file listing of "mr-*-R" returns: the intermediate files of task R in some order, and the
      output file of R when it is there. */
  ghost predicate Listing(inter: map<(nat, nat), seq<KeyValue>>, names: seq<nat>, r: nat) {
    NoRepeats(names) && forall i: nat :: i in names <==> (i, r) in inter
  }

  /** Decoding the listed files one after another, the output file included. */
  function Contents(
    c: Config, inter: map<(nat, nat), seq<KeyValue>>, outs: map<nat, seq<Line>>,
    names: seq<nat>, r: nat): seq<KeyValue>
    requires forall k | 0 <= k < |names| :: (names[k], r) in inter
  {
    Gathered(inter, names, r) + if r in outs then c.reread(outs[r]) else []
  }

  /** The reduce task replaces its output file by the reduced contents of the files it finds; when it
      finds none it writes nothing. */
  method ReduceTask(c: Config, id: nat, dir: Directory, names: seq<nat>) returns (ghost pairs: seq<KeyValue>)
    requires Listing(dir.inter, names, id)
    modifies dir
    ensures dir.inter == old(dir.inter)
    ensures forall r | r != id :: r in dir.outs <==> r in old(dir.outs)
    ensures forall r | r != id && r in dir.outs :: dir.outs[r] == old(dir.outs)[r]
    ensures |names| == 0 && id !in old(dir.outs) ==> id !in dir.outs
    ensures |names| > 0 || id in old(dir.outs) ==>
      && id in dir.outs && Sorted(ByKey, pairs) && Reduced(c.reducef, pairs, dir.outs[id])
      && multiset(pairs) == multiset(Contents(c, dir.inter, old(dir.outs), names, id))
    ensures (|names| > 0 || id in old(dir.outs)) && OrderInsensitive(c.reducef) ==>
      Reduced(c.reducef, Contents(c, dir.inter, old(dir.outs), names, id), dir.outs[id])
  {
    pairs := [];
    if |names| == 0 && id !in dir.outs {
      return;
    }
    var tempPairs := [];
    var k := 0;
    while k < |names|
      invariant 0 <= k <= |names| && forall a | 0 <= a < k :: (names[a], id) in dir.inter
      invariant tempPairs == Gathered(dir.inter, names[..k], id)
    {
      assert names[k] in names;
      assert names[..k + 1][..k] == names[..k];
      tempPairs := tempPairs + dir.inter[(names[k], id)];
      k := k + 1;
    }
    assert names[..|names|] == names;
    tempPairs := tempPairs + if id in dir.outs then c.reread(dir.outs[id]) else [];
    KeysOrdered();
    var sorted := Sort(ByKey, tempPairs);
    var lines := GroupReduce(c.reducef, sorted);
    if OrderInsensitive(c.reducef) {
      ReducedPermutes(c.reducef, sorted, tempPairs, lines);
    }
    pairs := sorted;
    dir.outs := dir.outs[id := lines];
  }

  // ---------- The sequential program ----------

  method Sequential(c: Config) returns (lines: seq<Line>, ghost pairs: seq<KeyValue>)
    ensures Sorted(ByKey, pairs) && multiset(pairs) == multiset(EmittedBy(c, |c.files|))
    ensures Reduced(c.reducef, pairs, lines)
    ensures OrderInsensitive(c.reducef) ==> Reduced(c.reducef, EmittedBy(c, |c.files|), lines)
  {
    var intermediate := [];
    var i := 0;
    while i < |c.files|
      invariant 0 <= i <= |c.files| && intermediate == EmittedBy(c, i)
    {
      intermediate := intermediate + c.mapf(c.files[i].name, c.files[i].content);
      i := i + 1;
    }
    KeysOrdered();
    var sorted := Sort(ByKey, intermediate);
    lines := GroupReduce(c.reducef, sorted);
    if OrderInsensitive(c.reducef) {
      ReducedPermutes(c.reducef, sorted, intermediate, lines);
    }
    pairs := sorted;
  }
}
