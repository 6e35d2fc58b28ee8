/** What happens when a reduce task reads its own output file back. */
module MrReread {
  import opened MapReduce
  import opened MrCoordinator
  import opened MrSystem
  import opened MrWorker
  import opened Sorting

  // The pattern that lists the files of a reduce task matches its output file too, so a second
  // attempt reads back what the first one wrote.  Here is the schedule in which that goes wrong, and
  // with it the exact condition under which every schedule gives the sequential output.

  // ---------- Every set of pairs has an output ----------

  lemma {:induction false} LeastKey(keys: set<string>) returns (least: string)
    requires keys != {}
    ensures least in keys && forall k | k in keys && k != least :: StrLess(least, k)
    decreases |keys|
  {
    var x :| x in keys;
    var rest := keys - {x};
    if rest == {} {
      least := x;
      assert keys == {x};
    } else {
      var y := LeastKey(rest);
      StrLessTotal(x, y);
      least := if StrLess(x, y) then x else y;
      forall k | k in keys && k != least ensures StrLess(least, k) {
        if least == x && k != y {
          StrLessTransitive(x, y, k);
        }
      }
    }
  }

  lemma {:induction false} LinesOf(f: Reducef, pairs: seq<KeyValue>, keys: set<string>) returns (lines: seq<Line>)
    ensures Ascending(lines)
    ensures forall x: Line :: x in lines <==> x.key in keys && x.value == f(x.key, Values(pairs, x.key))
    decreases |keys|
  {
    if keys == {} {
      lines := [];
    } else {
      var k := LeastKey(keys);
      var rest := LinesOf(f, pairs, keys - {k});
      var line := Line(k, f(k, Values(pairs, k)));
      lines := [line] + rest;
      forall j | 0 <= j < |rest| ensures StrLess(k, rest[j].key) {
        assert rest[j] in rest;
      }
    }
  }

  lemma {:induction false} KeyPresent(pairs: seq<KeyValue>, key: string)
    ensures |Values(pairs, key)| > 0 <==> key in set a | 0 <= a < |pairs| :: pairs[a].key
  {
    if forall a | 0 <= a < |pairs| :: pairs[a].key != key {
      NoValues(pairs, key);
    } else {
      var a :| 0 <= a < |pairs| && pairs[a].key == key;
      ValuesWithout(pairs, a, key);
      assert |Values(pairs, key)| == |multiset(Values(pairs, key))|;
    }
  }

  lemma OutputExists(f: Reducef, pairs: seq<KeyValue>) returns (lines: seq<Line>)
    ensures Reduced(f, pairs, lines)
  {
    lines := LinesOf(f, pairs, set a | 0 <= a < |pairs| :: pairs[a].key);
    forall x: Line ensures x in lines <==> Belongs(f, pairs, x) {
      KeyPresent(pairs, x.key);
    }
  }

  // ---------- Reachable systems ----------

  ghost predicate Reach(c: Config, s: System)
    requires c.nReduce > 0
  {
    exists run :: IsRun(c, run) && run[|run| - 1] == s
  }

  lemma ReachInit(c: Config)
    requires c.nReduce > 0
    ensures Reach(c, Init(c))
  {
    var run := [Init(c)];
    assert IsRun(c, run) && run[|run| - 1] == Init(c);
  }

  lemma Step(c: Config, s: System, a: Action) returns (s': System)
    requires c.nReduce > 0 && Reach(c, s) && Enabled(c, s, a)
    ensures s' == Perform(c, s, a) && Reach(c, s')
  {
    s' := Perform(c, s, a);
    var run :| IsRun(c, run) && run[|run| - 1] == s;
    var longer := run + [s'];
    forall k {:trigger longer[k + 1]} | 0 <= k < |longer| - 1 ensures Next(c, longer[k], longer[k + 1]) {
      if k < |run| - 1 {
        assert Next(c, run[k], run[k + 1]);
      }
    }
    assert IsRun(c, longer) && longer[|longer| - 1] == s';
  }

  // ---------- The table between jobs ----------

  /** The first `n` jobs are finished and the rest untouched. */
  function Stage(total: nat, n: nat): seq<JobState> {
    seq(total, i => if i < n then Finished else UnFinish)
  }

  function MapBoard(c: Config, n: nat): Board {
    Board(Stage(|c.files|, n), Stage(c.nReduce, 0), 0 < n == |c.files|, false)
  }

  function ReduceBoard(c: Config, n: nat): Board {
    Board(Stage(|c.files|, |c.files|), Stage(c.nReduce, n), true, n == c.nReduce)
  }

  lemma StageFirst(total: nat, n: nat)
    requires n <= total
    ensures FirstUnFinish(Stage(total, n)) == n
  {
    FirstIs(Stage(total, n), n);
  }

  lemma StageNext(total: nat, n: nat)
    requires n < total
    ensures Stage(total, n)[n := Doing][n := Finished] == Stage(total, n + 1)
    ensures Stage(total, n)[n := Doing][n := UnFinish] == Stage(total, n)
    ensures AllFinished(Stage(total, n + 1)) <==> n + 1 == total
  {
    assert n + 1 < total ==> Stage(total, n + 1)[n + 1] == UnFinish;
  }

  lemma MapTurn(c: Config, n: nat)
    requires n < |c.files|
    ensures var b := MapBoard(c, n); var busy := SetState(b, MapJob, n, Doing);
      Assign(b) == (busy, MapJob, n) && Report(busy, MapJob, n, true) == MapBoard(c, n + 1)
  {
    StageFirst(|c.files|, n);
    StageNext(|c.files|, n);
  }

  lemma ReduceTurn(c: Config, n: nat)
    requires n < c.nReduce
    ensures var b := ReduceBoard(c, n); var busy := SetState(b, ReduceJob, n, Doing);
      && Assign(b) == (busy, ReduceJob, n)
      && Report(busy, ReduceJob, n, true) == ReduceBoard(c, n + 1)
      && Expire(busy, ReduceJob, n) == b
  {
    StageFirst(c.nReduce, n);
    StageNext(c.nReduce, n);
  }

  // ---------- The map phase ----------

  ghost predicate MapsDone(c: Config, s: System, n: nat)
    requires c.nReduce > 0 && n <= |c.files|
  {
    InterOk(c, s.inter) && forall i | 0 <= i < n :: Mapped(c, s.inter, i)
  }

  /** Worker 0 has written the files of map task `i` for the reduce tasks below `r`. */
  ghost predicate Wrote(c: Config, s: System, i: nat, r: nat)
    requires c.nReduce > 0 && i < |c.files|
  {
    && MapsDone(c, s, i)
    && s.tasks.Keys == {0} && s.tasks[0].Mapping? && s.tasks[0].id == i
    && forall q | 0 <= q < r && |PartOf(c, i, q)| > 0 :: q in s.tasks[0].written && (i, q) in s.inter
  }

  lemma MoreFiles(c: Config, s: System, s': System, i: nat, r: nat)
    requires c.nReduce > 0 && i < |c.files| && r < c.nReduce && Wrote(c, s, i, r) && |PartOf(c, i, r)| > 0
    requires s'.inter == s.inter[(i, r) := PartOf(c, i, r)]
      && s'.tasks == s.tasks[0 := Mapping(i, s.tasks[0].written + {r})]
    ensures Wrote(c, s', i, r + 1)
  {
    forall k | 0 <= k < i ensures Mapped(c, s'.inter, k) {
      assert Mapped(c, s.inter, k);
    }
  }

  lemma {:induction false} WriteFiles(c: Config, s: System, i: nat, r: nat) returns (s': System)
    requires c.nReduce > 0 && Reach(c, s) && i < |c.files| && r <= c.nReduce && Wrote(c, s, i, r)
    ensures Reach(c, s') && Wrote(c, s', i, c.nReduce) && s'.board == s.board && s'.outs == s.outs
    decreases c.nReduce - r
  {
    if r == c.nReduce {
      s' := s;
    } else if |PartOf(c, i, r)| == 0 {
      s' := WriteFiles(c, s, i, r + 1);
    } else {
      var next := Step(c, s, WriteFile(0, r));
      MoreFiles(c, s, next, i, r);
      s' := WriteFiles(c, next, i, r + 1);
    }
  }

  /** Worker 0 does map task `i`. */
  lemma MapOne(c: Config, s: System, i: nat) returns (s': System)
    requires c.nReduce > 0 && Reach(c, s) && i < |c.files| && MapsDone(c, s, i)
    requires s.board == MapBoard(c, i) && s.tasks == map[]
    ensures Reach(c, s') && MapsDone(c, s', i) && Mapped(c, s'.inter, i)
    ensures s'.board == MapBoard(c, i + 1) && s'.outs == s.outs && s'.tasks == map[]
  {
    MapTurn(c, i);
    var asked := Step(c, s, Ask(0));
    assert asked.tasks == map[0 := Mapping(i, {})];
    var written := WriteFiles(c, asked, i, 0);
    var ended := Step(c, written, EndMap(0));
    s' := Step(c, ended, Tell(0));
    assert s'.tasks == map[];
  }

  lemma {:induction false} MapPhase(c: Config, n: nat) returns (s: System)
    requires c.nReduce > 0 && n <= |c.files|
    ensures Reach(c, s) && MapsDone(c, s, n)
    ensures s.board == MapBoard(c, n) && s.outs == map[] && s.tasks == map[]
  {
    if n == 0 {
      ReachInit(c);
      s := Init(c);
    } else {
      var before := MapPhase(c, n - 1);
      s := MapOne(c, before, n - 1);
    }
  }

  // ---------- The reduce phase ----------

  /** The first `n` reduce tasks are done, and a second worker sits on task `late` if it is among them. */
  ghost predicate ReducesDone(c: Config, s: System, n: nat, late: nat)
    requires c.nReduce > 0 && n <= c.nReduce
  {
    && s.board == ReduceBoard(c, n) && MapsDone(c, s, |c.files|) && OutsOk(c, s.outs)
    && (forall r | r in s.outs :: r < n)
    && (forall r {:trigger OutRight(c, s.outs, r)} | 0 <= r < n :: OutRight(c, s.outs, r))
    && s.tasks == if late < n then map[1 := Reducing(late)] else map[]
  }

  lemma ListingExists(c: Config, inter: Inter, r: nat, n: nat) returns (names: seq<nat>)
    requires c.nReduce > 0 && n <= |c.files| && r < c.nReduce && InterOk(c, inter)
    requires forall i | 0 <= i < |c.files| :: Mapped(c, inter, i)
    ensures Names(c, names, n, r) && forall k | 0 <= k < |names| :: names[k] < n && (names[k], r) in inter
  {
    if n == 0 {
      names := [];
    } else {
      var rest := ListingExists(c, inter, r, n - 1);
      assert Mapped(c, inter, n - 1);
      names := if |PartOf(c, n - 1, r)| > 0 then rest + [n - 1] else rest;
    }
  }

  /** What a worker that lists the files of task `r` now may read and write. */
  lemma CanRead(c: Config, s: System, w: nat, r: nat) returns (a: Action)
    requires Valid(c) && MapsDone(c, s, |c.files|) && r < c.nReduce && w in s.tasks && s.tasks[w] == Reducing(r)
    ensures Enabled(c, s, a) && a.Read? && a.w == w && Names(c, a.names, |c.files|, r)
    ensures !Nothing(s, a.names, r) ==>
      Reduced(c.reducef, Bucket(c, r) + (if r in s.outs then c.reread(s.outs[r]) else []), a.lines)
    ensures Nothing(s, a.names, r) ==> Bucket(c, r) == []
    ensures |a.names| > 0 ==> |Bucket(c, r)| > 0
  {
    var names := ListingExists(c, s.inter, r, |c.files|);
    assert Listing(s.inter, names, r);
    GatheredIsBucket(c, s.inter, names, |c.files|, r);
    var pairs := Contents(c, s.inter, s.outs, names, r);
    var lines := OutputExists(c.reducef, pairs);
    ReducedPermutes(c.reducef, pairs, Bucket(c, r) + (if r in s.outs then c.reread(s.outs[r]) else []), lines);
    a := Read(w, names, pairs, lines);
    if |names| > 0 {
      FirstNamed(c, names, r);
    } else {
      assert |Bucket(c, r)| == |multiset(Bucket(c, r))|;
    }
  }

  /** Outside task `r` the output files are the same. */
  ghost predicate SameElsewhere(outs: Outs, outs': Outs, r: nat) {
    forall q: nat | q != r :: (q in outs' <==> q in outs) && OutOf(outs', q) == OutOf(outs, q)
  }

  lemma ReduceBody(c: Config, s: System, r: nat) returns (s': System)
    requires Valid(c) && Reach(c, s) && r < c.nReduce && 0 in s.tasks && s.tasks[0] == Reducing(r)
    requires MapsDone(c, s, |c.files|) && r !in s.outs
    ensures Reach(c, s') && s'.board == s.board && s'.inter == s.inter
    ensures s'.tasks == s.tasks[0 := Ended(ReduceJob, r, true)]
    ensures OutRight(c, s'.outs, r) && SameElsewhere(s.outs, s'.outs, r) && (r in s'.outs ==> |Bucket(c, r)| > 0)
  {
    var a := CanRead(c, s, 0, r);
    if Nothing(s, a.names, r) {
      s' := Step(c, s, a);
      EmptyRight(c, s.outs, r);
    } else {
      s' := ReadAndWrite(c, s, a, 0);
      WrittenRight(c, s.outs, r, a.lines);
    }
  }

  lemma EmptyRight(c: Config, outs: Outs, r: nat)
    requires c.nReduce > 0 && Bucket(c, r) == [] && r !in outs
    ensures OutRight(c, outs, r)
  {
  }

  lemma WrittenRight(c: Config, outs: Outs, r: nat, lines: seq<Line>)
    requires c.nReduce > 0 && Reduced(c.reducef, Bucket(c, r) + [], lines)
    ensures OutRight(c, outs[r := lines], r) && SameElsewhere(outs, outs[r := lines], r)
  {
    assert Bucket(c, r) + [] == Bucket(c, r);
  }

  /** A worker reads its files and then replaces its output file. */
  lemma ReadAndWrite(c: Config, s: System, a: Action, w: nat) returns (s': System)
    requires c.nReduce > 0 && Reach(c, s) && Enabled(c, s, a) && a.Read? && a.w == w
      && !Nothing(s, a.names, s.tasks[w].id)
    ensures Reach(c, s') && s'.board == s.board && s'.inter == s.inter
    ensures var r := s.tasks[w].id;
      s'.outs == s.outs[r := a.lines] && s'.tasks == s.tasks[w := Ended(ReduceJob, r, true)]
  {
    var read := Step(c, s, a);
    s' := Step(c, read, WriteOut(w));
    var r := s.tasks[w].id;
    assert s.tasks[w := Writing(r, a.lines)][w := Ended(ReduceJob, r, true)] == s.tasks[w := Ended(ReduceJob, r, true)];
  }

  /** Worker 0 does reduce task `r`, the first one open. */
  lemma ReduceOne(c: Config, s: System, r: nat) returns (s': System)
    requires Valid(c) && Reach(c, s) && r < c.nReduce && s.board == ReduceBoard(c, r) && 0 !in s.tasks
    requires MapsDone(c, s, |c.files|) && r !in s.outs
    ensures Reach(c, s') && s'.board == ReduceBoard(c, r + 1) && s'.inter == s.inter && s'.tasks == s.tasks
    ensures OutRight(c, s'.outs, r) && SameElsewhere(s.outs, s'.outs, r) && (r in s'.outs ==> |Bucket(c, r)| > 0)
  {
    ReduceTurn(c, r);
    var asked := Step(c, s, Ask(0));
    var ended := ReduceBody(c, asked, r);
    s' := Step(c, ended, Tell(0));
    assert s'.tasks == s.tasks;
  }

  lemma OutsStayOk(c: Config, outs: Outs, outs': Outs, r: nat)
    requires c.nReduce > 0 && r < c.nReduce && OutsOk(c, outs) && SameElsewhere(outs, outs', r)
    requires OutRight(c, outs', r) && (r in outs' ==> |Bucket(c, r)| > 0)
    ensures OutsOk(c, outs') && forall q | 0 <= q < c.nReduce && OutRight(c, outs, q) :: OutRight(c, outs', q)
  {
    forall q | 0 <= q < c.nReduce && OutRight(c, outs, q) ensures OutRight(c, outs', q) {
      assert q != r ==> OutOf(outs', q) == OutOf(outs, q);
    }
    forall q | q in outs' ensures q < c.nReduce && |Bucket(c, q)| > 0 && OutRight(c, outs', q) {
      assert q != r ==> q in outs && OutRight(c, outs, q);
    }
  }

  lemma {:induction false} ReducePhase(c: Config, n: nat, late: nat) returns (s: System)
    requires Valid(c) && n <= c.nReduce && |c.files| > 0
    ensures Reach(c, s) && ReducesDone(c, s, n, late)
  {
    if n == 0 {
      s := MapPhase(c, |c.files|);
    } else {
      var r := n - 1;
      var before := ReducePhase(c, r, late);
      var held := before;
      if r == late {
        ReduceTurn(c, r);
        var asked := Step(c, before, Ask(1));
        held := Step(c, asked, Fire(ReduceJob, r));
      }
      s := ReduceOne(c, held, r);
      OutsStayOk(c, before.outs, s.outs, r);
      forall q | 0 <= q < n ensures OutRight(c, s.outs, q) {
        assert q == r || OutRight(c, before.outs, q);
      }
    }
  }

  // ---------- The second attempt ----------

  /** How often a line occurs in the first `n` output files. */
  ghost function Occurs(outs: Outs, n: nat, x: Line): nat {
    if n == 0 then 0 else Occurs(outs, n - 1, x) + multiset(OutOf(outs, n - 1))[x]
  }

  lemma {:induction false} OccursCounts(outs: Outs, n: nat, x: Line)
    ensures multiset(Union(outs, n))[x] == Occurs(outs, n, x)
  {
    if n > 0 {
      OccursCounts(outs, n - 1, x);
      assert multiset(Union(outs, n)) == multiset(Union(outs, n - 1)) + multiset(OutOf(outs, n - 1));
    }
  }

  lemma {:induction false} OccursUpdate(outs: Outs, n: nat, r: nat, lines: seq<Line>, x: Line)
    ensures Occurs(outs[r := lines], n, x) + (if r < n then multiset(OutOf(outs, r))[x] else 0)
         == Occurs(outs, n, x) + (if r < n then multiset(lines)[x] else 0)
    decreases n
  {
    if n > 0 {
      OccursUpdate(outs, n - 1, r, lines, x);
      assert OutOf(outs[r := lines], n - 1) == if r == n - 1 then lines else OutOf(outs, n - 1);
    }
  }

  lemma SameLines(a: seq<Line>, b: seq<Line>)
    requires Ascending(a) && Ascending(b) && multiset(a) == multiset(b)
    ensures a == b
  {
    forall x: Line ensures x in a <==> x in b {
      assert x in a <==> x in multiset(a);
      assert x in b <==> x in multiset(b);
    }
    AscendingUnique(a, b);
  }

  /** If feeding the output of task `r` back changes it, some schedule ends with the wrong output. */
  lemma SecondAttempt(c: Config, r: nat, lines: seq<Line>, sequential: seq<Line>) returns (s: System)
    requires Valid(c) && r < c.nReduce && |Bucket(c, r)| > 0
    requires Reduced(c.reducef, Bucket(c, r), lines) && !Reduced(c.reducef, Bucket(c, r) + c.reread(lines), lines)
    requires Reduced(c.reducef, EmittedBy(c, |c.files|), sequential)
    ensures Reach(c, s) && s.board.reduceFinish && multiset(Union(s.outs, c.nReduce)) != multiset(sequential)
  {
    var done := ReducePhase(c, c.nReduce, r);
    assert OutRight(c, done.outs, r);
    ReducedUnique(c.reducef, Bucket(c, r), lines, OutOf(done.outs, r));
    BucketHasLine(c, r, lines);
    var a := CanRead(c, done, 1, r);
    s := ReadAndWrite(c, done, a, 1);
    WrongUnion(c, done.outs, r, a.lines, sequential);
  }

  /** Right output files, one of them replaced by other lines, are not the sequential output. */
  lemma WrongUnion(c: Config, outs: Outs, r: nat, lines: seq<Line>, sequential: seq<Line>)
    requires c.nReduce > 0 && OutsRight(c, outs) && r < c.nReduce && Ascending(lines) && lines != OutOf(outs, r)
    requires Reduced(c.reducef, EmittedBy(c, |c.files|), sequential)
    ensures multiset(Union(outs[r := lines], c.nReduce)) != multiset(sequential)
  {
    assert OutRight(c, outs, r);
    UnionIsSequential(c, outs, sequential);
    if multiset(Union(outs[r := lines], c.nReduce)) == multiset(sequential) {
      forall x: Line ensures multiset(lines)[x] == multiset(OutOf(outs, r))[x] {
        OccursCounts(outs, c.nReduce, x);
        OccursCounts(outs[r := lines], c.nReduce, x);
        OccursUpdate(outs, c.nReduce, r, lines, x);
      }
      SameLines(lines, OutOf(outs, r));
    }
  }

  lemma BucketHasLine(c: Config, r: nat, lines: seq<Line>)
    requires c.nReduce > 0 && |Bucket(c, r)| > 0 && Reduced(c.reducef, Bucket(c, r), lines)
    ensures |lines| > 0
  {
    var key := Bucket(c, r)[0].key;
    assert Belongs(c.reducef, Bucket(c, r), Line(key, c.reducef(key, Values(Bucket(c, r), key))));
  }

  /** Every finished run gives the sequential output. */
  ghost predicate AlwaysSequential(c: Config, sequential: seq<Line>)
    requires c.nReduce > 0
  {
    forall s | Reach(c, s) && s.board.reduceFinish :: multiset(Union(s.outs, c.nReduce)) == multiset(sequential)
  }

  /** The distributed run equals the sequential one in all schedules exactly when reading an output
      file back into its reduce task changes nothing. */
  lemma AlwaysSequentialIff(c: Config, sequential: seq<Line>)
    requires Valid(c) && Reduced(c.reducef, EmittedBy(c, |c.files|), sequential)
    ensures AlwaysSequential(c, sequential) <==> Stable(c)
  {
    if Stable(c) {
      forall s | Reach(c, s) && s.board.reduceFinish
        ensures multiset(Union(s.outs, c.nReduce)) == multiset(sequential)
      {
        var run :| IsRun(c, run) && run[|run| - 1] == s;
        OutputIsSequential(c, run, |run| - 1, sequential);
      }
    } else {
      var r, lines :| 0 <= r < c.nReduce && |Bucket(c, r)| > 0 && Reduced(c.reducef, Bucket(c, r), lines)
        && !Reduced(c.reducef, Bucket(c, r) + c.reread(lines), lines);
      var s := SecondAttempt(c, r, lines, sequential);
    }
  }

  /** No output file of the job decodes to a pair.  There is one right output for each reduce task, so
      this can be read off the input. */
  ghost predicate NothingDecodes(c: Config)
    requires c.nReduce > 0
  {
    forall r, lines | 0 <= r < c.nReduce && Reduced(c.reducef, Bucket(c, r), lines) :: c.reread(lines) == []
  }

  /** Then every schedule gives the sequential output. */
  lemma NothingDecodesSuffices(c: Config, sequential: seq<Line>)
    requires Valid(c) && NothingDecodes(c) && Reduced(c.reducef, EmittedBy(c, |c.files|), sequential)
    ensures Stable(c) && AlwaysSequential(c, sequential)
  {
    forall r, lines | 0 <= r < c.nReduce && |Bucket(c, r)| > 0 && Reduced(c.reducef, Bucket(c, r), lines)
      ensures Reduced(c.reducef, Bucket(c, r) + c.reread(lines), lines)
    {
      assert Bucket(c, r) + [] == Bucket(c, r);
    }
    AlwaysSequentialIff(c, sequential);
  }

  // ---------- An instance that fails ----------

  /** One file with the one word "null", counted.  A JSON decoder accepts the output line "null 1" as an
      empty pair before it stops at the number. */
  const NULL_WORD := Config(
    [InputFile("in", "null")], 1,
    (name: string, content: string) => [KeyValue(content, "1")],
    (key: string, values: seq<string>) => "1",
    (key: string) => 0,
    (lines: seq<Line>) => if |lines| > 0 && lines[0].key == "null" then [KeyValue("", "")] else [])

  lemma NullWordFails()
    ensures Valid(NULL_WORD) && !Stable(NULL_WORD)
    ensures !AlwaysSequential(NULL_WORD, [Line("null", "1")])
  {
    var c, lines := NULL_WORD, [Line("null", "1")];
    var pair := KeyValue("null", "1");
    assert Emitted(c, 0) == [pair];
    assert TaskOf(c, "null") == 0 && [pair][1..] == [];
    assert Part(c, [pair], 0) == [pair] + Part(c, [], 0);
    assert BucketOf(c, 0, 0) == [] && EmittedBy(c, 0) == [];
    assert Bucket(c, 0) == BucketOf(c, 0, 0) + Part(c, Emitted(c, 0), 0) == [pair];
    assert EmittedBy(c, 1) == [pair];
    forall x: Line ensures x in lines <==> Belongs(c.reducef, [pair], x) {
      assert Values([pair], x.key) == if x.key == "null" then ["1"] else [];
    }
    assert Reduced(c.reducef, Bucket(c, 0), lines);
    var fed := Bucket(c, 0) + c.reread(lines);
    assert fed == [pair, KeyValue("", "")] && fed[1..] == [KeyValue("", "")];
    assert Values(fed[1..], "") == [""] + Values([], "");
    assert Values(fed, "") == Values(fed[1..], "");
    assert Belongs(c.reducef, fed, Line("", "1")) && Line("", "1") !in lines;
    assert !Reduced(c.reducef, fed, lines);
    AlwaysSequentialIff(c, lines);
  }
}
