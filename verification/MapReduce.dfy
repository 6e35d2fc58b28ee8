/** What a MapReduce job computes: src/mr/worker.go and src/main/mrsequential.go as functions of the
    pairs that the map function emits. */
module MapReduce {
  import opened Sorting

  datatype KeyValue = KeyValue(key: string, value: string)

  /** One line of an output file. */
  datatype Line = Line(key: string, value: string)

  datatype InputFile = InputFile(name: string, content: string)

  type Reducef = (string, seq<string>) -> string

  /** A job: its input files, the number of reduce tasks, the application's two functions, the hash
      that spreads keys over reduce tasks, and what decoding an output file as pairs would yield. */
  datatype Config = Config(
    files: seq<InputFile>,
    nReduce: nat,
    mapf: (string, string) -> seq<KeyValue>,
    reducef: Reducef,
    ihash: string -> nat,
    reread: seq<Line> -> seq<KeyValue>)

  // ---------- Reducing ----------

  /** The values of one key, in order. */
  function Values(pairs: seq<KeyValue>, key: string): seq<string> {
    if |pairs| == 0 then [] else (if pairs[0].key == key then [pairs[0].value] else []) + Values(pairs[1..], key)
  }

  /** A line belongs in the output: its key occurs, and it reduces all values of that key. */
  predicate Belongs(f: Reducef, pairs: seq<KeyValue>, x: Line) {
    |Values(pairs, x.key)| > 0 && x.value == f(x.key, Values(pairs, x.key))
  }

  predicate Ascending(lines: seq<Line>) {
    forall i, j | 0 <= i < j < |lines| :: StrLess(lines[i].key, lines[j].key)
  }

  /** The lines are the reduced pairs: every key once, in order of keys. */
  ghost predicate Reduced(f: Reducef, pairs: seq<KeyValue>, lines: seq<Line>) {
    Ascending(lines) && forall x: Line :: x in lines <==> Belongs(f, pairs, x)
  }

  ghost predicate OrderInsensitive(f: Reducef) {
    forall k, a, b | multiset(a) == multiset(b) :: f(k, a) == f(k, b)
  }

  lemma {:induction false} ValuesConcat(a: seq<KeyValue>, b: seq<KeyValue>, key: string)
    ensures Values(a + b, key) == Values(a, key) + Values(b, key)
  {
    if |a| == 0 {
      assert a + b == b;
    } else {
      ValuesConcat(a[1..], b, key);
      assert (a + b)[1..] == a[1..] + b;
      Associates(if a[0].key == key then [a[0].value] else [], Values(a[1..], key), Values(b, key));
    }
  }

  /** The values of a key depend, up to order, on the multiset of pairs only. */
  lemma {:induction false} ValuesPermute(a: seq<KeyValue>, b: seq<KeyValue>, key: string)
    requires multiset(a) == multiset(b)
    ensures multiset(Values(a, key)) == multiset(Values(b, key))
    decreases |a|
  {
    assert |a| == |multiset(a)| == |multiset(b)| == |b|;
    if |a| > 0 {
      var n, x := |a| - 1, a[|a| - 1];
      assert x in multiset(b);
      var k :| 0 <= k < |b| && b[k] == x;
      RestPermutes(a, b, k);
      ValuesPermute(a[..n], b[..k] + b[k + 1..], key);
      ValuesWithout(a, n, key);
      ValuesWithout(b, k, key);
      assert a[..n] + a[n + 1..] == a[..n];
    }
  }

  lemma ValuesWithout(pairs: seq<KeyValue>, k: nat, key: string)
    requires k < |pairs|
    ensures multiset(Values(pairs, key))
         == multiset(Values(pairs[..k] + pairs[k + 1..], key))
           + (if pairs[k].key == key then multiset{pairs[k].value} else multiset{})
  {
    var a, x, b := pairs[..k], pairs[k], pairs[k + 1..];
    assert pairs == a + ([x] + b);
    ValuesConcat(a, [x] + b, key);
    ValuesConcat([x], b, key);
    ValuesConcat(a, b, key);
    assert Values([x], key) == if x.key == key then [x.value] else [];
  }

  lemma BelongsPermutes(f: Reducef, a: seq<KeyValue>, b: seq<KeyValue>, x: Line)
    requires OrderInsensitive(f) && multiset(a) == multiset(b)
    ensures Belongs(f, a, x) <==> Belongs(f, b, x)
  {
    ValuesPermute(a, b, x.key);
    assert |Values(a, x.key)| == |multiset(Values(a, x.key))| == |Values(b, x.key)|;
  }

  /** The output does not depend on the order in which the pairs are gathered or sorted. */
  lemma ReducedPermutes(f: Reducef, a: seq<KeyValue>, b: seq<KeyValue>, lines: seq<Line>)
    requires OrderInsensitive(f) && multiset(a) == multiset(b) && Reduced(f, a, lines)
    ensures Reduced(f, b, lines)
  {
    forall x: Line ensures x in lines <==> Belongs(f, b, x) {
      BelongsPermutes(f, a, b, x);
    }
  }

  lemma AscendingNoRepeats(lines: seq<Line>)
    requires Ascending(lines)
    ensures NoRepeats(lines)
  {
    forall i, j | 0 <= i < j < |lines| ensures lines[i] != lines[j] {
      StrLessIrreflexive(lines[i].key);
    }
  }

  lemma HeadIsLeast(lines: seq<Line>, x: Line)
    requires Ascending(lines) && x in lines && x != lines[0]
    ensures StrLess(lines[0].key, x.key)
  {
  }

  lemma SameHead(a: seq<Line>, b: seq<Line>)
    requires Ascending(a) && Ascending(b) && |a| > 0 && |b| > 0 && a[0] in b && b[0] in a
    ensures a[0] == b[0]
  {
    if a[0] != b[0] {
      HeadIsLeast(a, b[0]);
      HeadIsLeast(b, a[0]);
      StrLessTransitive(a[0].key, b[0].key, a[0].key);
      StrLessIrreflexive(a[0].key);
    }
  }

  lemma TailMembers(lines: seq<Line>, x: Line)
    requires Ascending(lines) && |lines| > 0
    ensures x in lines[1..] <==> x in lines && x != lines[0]
  {
    AscendingNoRepeats(lines);
    assert lines == [lines[0]] + lines[1..];
  }

  lemma {:induction false} AscendingUnique(a: seq<Line>, b: seq<Line>)
    requires Ascending(a) && Ascending(b) && forall x: Line :: x in a <==> x in b
    ensures a == b
    decreases |a|
  {
    NonEmptyHas(a);
    NonEmptyHas(b);
    if |a| > 0 {
      assert a[0] in b && b[0] in a;
      SameHead(a, b);
      forall x: Line ensures x in a[1..] <==> x in b[1..] {
        TailMembers(a, x);
        TailMembers(b, x);
      }
      AscendingUnique(a[1..], b[1..]);
      assert a == [a[0]] + a[1..] && b == [b[0]] + b[1..];
    }
  }

  /** There is only one output. */
  lemma ReducedUnique(f: Reducef, pairs: seq<KeyValue>, a: seq<Line>, b: seq<Line>)
    requires Reduced(f, pairs, a) && Reduced(f, pairs, b)
    ensures a == b
  {
    AscendingUnique(a, b);
  }

  // ---------- The pairs of a job ----------

  function Emitted(c: Config, i: nat): seq<KeyValue>
    requires i < |c.files|
  {
    c.mapf(c.files[i].name, c.files[i].content)
  }

  /** The reduce task of a key. */
  function TaskOf(c: Config, key: string): (r: nat)
    requires c.nReduce > 0
    ensures r < c.nReduce
  {
    c.ihash(key) % c.nReduce
  }

  /** The pairs of one reduce task. */
  function Part(c: Config, pairs: seq<KeyValue>, r: nat): seq<KeyValue>
    requires c.nReduce > 0
  {
    if |pairs| == 0 then []
    else (if TaskOf(c, pairs[0].key) == r then [pairs[0]] else []) + Part(c, pairs[1..], r)
  }

  /** What the first `n` map tasks emit. */
  function EmittedBy(c: Config, n: nat): seq<KeyValue>
    requires n <= |c.files|
  {
    if n == 0 then [] else EmittedBy(c, n - 1) + Emitted(c, n - 1)
  }

  /** What the first `n` map tasks emit for reduce task `r`. */
  function BucketOf(c: Config, n: nat, r: nat): seq<KeyValue>
    requires n <= |c.files| && c.nReduce > 0
  {
    if n == 0 then [] else BucketOf(c, n - 1, r) + Part(c, Emitted(c, n - 1), r)
  }

  function Bucket(c: Config, r: nat): seq<KeyValue>
    requires c.nReduce > 0
  {
    BucketOf(c, |c.files|, r)
  }

  lemma {:induction false} PartConcat(c: Config, a: seq<KeyValue>, b: seq<KeyValue>, r: nat)
    requires c.nReduce > 0
    ensures Part(c, a + b, r) == Part(c, a, r) + Part(c, b, r)
  {
    if |a| == 0 {
      assert a + b == b;
    } else {
      PartConcat(c, a[1..], b, r);
      assert (a + b)[1..] == a[1..] + b;
      Associates(if TaskOf(c, a[0].key) == r then [a[0]] else [], Part(c, a[1..], r), Part(c, b, r));
    }
  }

  lemma {:induction false} PartValues(c: Config, pairs: seq<KeyValue>, r: nat, key: string)
    requires c.nReduce > 0
    ensures Values(Part(c, pairs, r), key) == if TaskOf(c, key) == r then Values(pairs, key) else []
  {
    if |pairs| > 0 {
      PartValues(c, pairs[1..], r, key);
      ValuesConcat(if TaskOf(c, pairs[0].key) == r then [pairs[0]] else [], Part(c, pairs[1..], r), key);
      assert Values([pairs[0]], key) == if pairs[0].key == key then [pairs[0].value] else [];
    }
  }

  /** A key's reduce task receives all of its values, in the order the sequential program sees them,
      and no other task receives any. */
  lemma {:induction false} BucketValues(c: Config, n: nat, r: nat, key: string)
    requires n <= |c.files| && c.nReduce > 0
    ensures Values(BucketOf(c, n, r), key) == if TaskOf(c, key) == r then Values(EmittedBy(c, n), key) else []
  {
    if n > 0 {
      BucketValues(c, n - 1, r, key);
      PartValues(c, Emitted(c, n - 1), r, key);
      ValuesConcat(BucketOf(c, n - 1, r), Part(c, Emitted(c, n - 1), r), key);
      ValuesConcat(EmittedBy(c, n - 1), Emitted(c, n - 1), key);
      if TaskOf(c, key) != r {
        assert Values(BucketOf(c, n, r), key) == [] + [];
      }
    }
  }

  // ---------- The union of the reduce outputs ----------

  function OutOf(outs: map<nat, seq<Line>>, r: nat): seq<Line> {
    if r in outs then outs[r] else []
  }

  /** All output files one after another. */
  function Union(outs: map<nat, seq<Line>>, n: nat): seq<Line> {
    if n == 0 then [] else Union(outs, n - 1) + OutOf(outs, n - 1)
  }

  ghost predicate OutRight(c: Config, outs: map<nat, seq<Line>>, r: nat)
    requires c.nReduce > 0
  {
    Reduced(c.reducef, Bucket(c, r), OutOf(outs, r))
  }

  /** Every output file holds the reduced pairs of its task. */
  ghost predicate OutsRight(c: Config, outs: map<nat, seq<Line>>)
    requires c.nReduce > 0
  {
    forall r {:trigger OutRight(c, outs, r)} | 0 <= r < c.nReduce :: OutRight(c, outs, r)
  }

  lemma AscendingCount(lines: seq<Line>, x: Line)
    requires Ascending(lines)
    ensures multiset(lines)[x] == if x in lines then 1 else 0
  {
    AscendingNoRepeats(lines);
    NoRepeatsCount(lines, x);
    assert x in lines <==> x in multiset(lines);
  }

  lemma OutCount(c: Config, outs: map<nat, seq<Line>>, r: nat, x: Line)
    requires c.nReduce > 0 && OutsRight(c, outs) && r < c.nReduce
    ensures multiset(OutOf(outs, r))[x]
         == if TaskOf(c, x.key) == r && Belongs(c.reducef, EmittedBy(c, |c.files|), x) then 1 else 0
  {
    assert OutRight(c, outs, r);
    AscendingCount(OutOf(outs, r), x);
    BucketValues(c, |c.files|, r, x.key);
  }

  /** A line that only one file may hold occurs in the union as often as in that file. */
  lemma {:induction false} UnionCount(outs: map<nat, seq<Line>>, n: nat, x: Line, task: nat, count: nat)
    requires forall r | 0 <= r < n :: multiset(OutOf(outs, r))[x] == if r == task then count else 0
    ensures multiset(Union(outs, n))[x] == if task < n then count else 0
    decreases n
  {
    if n > 0 {
      UnionCount(outs, n - 1, x, task, count);
      assert multiset(Union(outs, n)) == multiset(Union(outs, n - 1)) + multiset(OutOf(outs, n - 1));
    }
  }

  /** Right output files together hold exactly the lines of the sequential program. */
  lemma UnionIsSequential(c: Config, outs: map<nat, seq<Line>>, sequential: seq<Line>)
    requires c.nReduce > 0 && OutsRight(c, outs)
    requires Reduced(c.reducef, EmittedBy(c, |c.files|), sequential)
    ensures multiset(Union(outs, c.nReduce)) == multiset(sequential)
  {
    forall x: Line ensures multiset(Union(outs, c.nReduce))[x] == multiset(sequential)[x] {
      var task, count := TaskOf(c, x.key), multiset(sequential)[x];
      AscendingCount(sequential, x);
      forall r | 0 <= r < c.nReduce ensures multiset(OutOf(outs, r))[x] == if r == task then count else 0 {
        OutCount(c, outs, r, x);
      }
      UnionCount(outs, c.nReduce, x, task, count);
    }
  }
}
