/** A whole MapReduce run: the coordinator, any number of workers that may stall, fail or vanish at any
    point, stale timers, late reports, and the files they leave behind. */
module MrSystem {
  import opened MapReduce
  import opened MrCoordinator
  import opened MrWorker
  import opened Sorting

  type Inter = map<(nat, nat), seq<KeyValue>>

  type Outs = map<nat, seq<Line>>

  /** Where a worker is in its task. */
  datatype Task =
    | Mapping(id: nat, written: set<nat>)
    | Reducing(id: nat)
    | Writing(id: nat, lines: seq<Line>)
    | Ended(jobType: JobType, id: nat, success: bool)

  datatype System = System(board: Board, inter: Inter, outs: Outs, tasks: map<nat, Task>)

  datatype Action =
    | Ask(w: nat)
    | WriteFile(w: nat, r: nat)
    | EndMap(w: nat)
    | Read(w: nat, names: seq<nat>, pairs: seq<KeyValue>, lines: seq<Line>)
    | WriteOut(w: nat)
    | Fail(w: nat)
    | Tell(w: nat)
    | Vanish(w: nat)
    | Fire(jobType: JobType, id: nat)

  ghost predicate Valid(c: Config) {
    c.nReduce > 0 && OrderInsensitive(c.reducef)
  }

  function Init(c: Config): System {
    System(FreshBoard(|c.files|, c.nReduce), map[], map[], map[])
  }

  function PartOf(c: Config, i: nat, r: nat): seq<KeyValue>
    requires i < |c.files| && c.nReduce > 0
  {
    Part(c, Emitted(c, i), r)
  }

  /** A file listing that finds nothing at all. */
  predicate Nothing(s: System, names: seq<nat>, r: nat) {
    |names| == 0 && r !in s.outs
  }

  ghost predicate Enabled(c: Config, s: System, a: Action)
    requires c.nReduce > 0
  {
    match a
    case Ask(w) => w !in s.tasks
    case WriteFile(w, r) =>
      && w in s.tasks && s.tasks[w].Mapping? && s.tasks[w].id < |c.files|
      && r < c.nReduce && |PartOf(c, s.tasks[w].id, r)| > 0
    case EndMap(w) =>
      && w in s.tasks && s.tasks[w].Mapping? && s.tasks[w].id < |c.files|
      && forall r | 0 <= r < c.nReduce && |PartOf(c, s.tasks[w].id, r)| > 0 :: r in s.tasks[w].written
    case Read(w, names, pairs, lines) =>
      && w in s.tasks && s.tasks[w].Reducing? && Listing(s.inter, names, s.tasks[w].id)
      && (!Nothing(s, names, s.tasks[w].id) ==>
            && multiset(pairs) == multiset(Contents(c, s.inter, s.outs, names, s.tasks[w].id))
            && Reduced(c.reducef, pairs, lines))
    case WriteOut(w) => w in s.tasks && s.tasks[w].Writing?
    case Fail(w) => w in s.tasks && !s.tasks[w].Ended?
    case Tell(w) => w in s.tasks && s.tasks[w].Ended? && IsTask(s.board, s.tasks[w].jobType, s.tasks[w].id)
    case Vanish(w) => w in s.tasks
    case Fire(t, i) => IsTask(s.board, t, i)
  }

  function TypeOf(task: Task): JobType {
    match task
    case Mapping(_, _) => MapJob
    case Reducing(_) => ReduceJob
    case Writing(_, _) => ReduceJob
    case Ended(t, _, _) => t
  }

  ghost function Perform(c: Config, s: System, a: Action): System
    requires c.nReduce > 0 && Enabled(c, s, a)
  {
    match a
    case Ask(w) =>
      var (b, t, i) := Assign(s.board);
      s.(board := b,
         tasks := if t == MapJob then s.tasks[w := Mapping(i, {})]
                  else if t == ReduceJob then s.tasks[w := Reducing(i)]
                  else s.tasks)
    case WriteFile(w, r) =>
      var i := s.tasks[w].id;
      s.(inter := s.inter[(i, r) := PartOf(c, i, r)], tasks := s.tasks[w := Mapping(i, s.tasks[w].written + {r})])
    case EndMap(w) => s.(tasks := s.tasks[w := Ended(MapJob, s.tasks[w].id, true)])
    case Read(w, names, pairs, lines) =>
      var r := s.tasks[w].id;
      s.(tasks := s.tasks[w := if Nothing(s, names, r) then Ended(ReduceJob, r, true) else Writing(r, lines)])
    case WriteOut(w) =>
      var r := s.tasks[w].id;
      s.(outs := s.outs[r := s.tasks[w].lines], tasks := s.tasks[w := Ended(ReduceJob, r, true)])
    case Fail(w) => s.(tasks := s.tasks[w := Ended(TypeOf(s.tasks[w]), s.tasks[w].id, false)])
    case Tell(w) =>
      var task := s.tasks[w];
      s.(board := Report(s.board, task.jobType, task.id, task.success), tasks := s.tasks - {w})
    case Vanish(w) => s.(tasks := s.tasks - {w})
    case Fire(t, i) => s.(board := Expire(s.board, t, i))
  }

  ghost predicate Next(c: Config, s: System, s': System)
    requires c.nReduce > 0
  {
    exists a :: Enabled(c, s, a) && s' == Perform(c, s, a)
  }

  ghost predicate IsRun(c: Config, run: seq<System>)
    requires c.nReduce > 0
  {
    && |run| > 0 && run[0] == Init(c)
    && forall k {:trigger run[k + 1]} | 0 <= k < |run| - 1 :: Next(c, run[k], run[k + 1])
  }

  // ---------- What every step keeps ----------

  /** Map task `i` has left all of its files. */
  ghost predicate Mapped(c: Config, inter: Inter, i: nat)
    requires i < |c.files| && c.nReduce > 0
  {
    forall r | 0 <= r < c.nReduce && |PartOf(c, i, r)| > 0 :: (i, r) in inter
  }

  ghost predicate InterOk(c: Config, inter: Inter)
    requires c.nReduce > 0
  {
    forall i: nat, r: nat | (i, r) in inter ::
      i < |c.files| && r < c.nReduce && |PartOf(c, i, r)| > 0 && inter[(i, r)] == PartOf(c, i, r)
  }

  /** Feeding a right output file back into its own reduce task changes nothing. */
  ghost predicate Stable(c: Config)
    requires c.nReduce > 0
  {
    forall r, lines | 0 <= r < c.nReduce && |Bucket(c, r)| > 0 && Reduced(c.reducef, Bucket(c, r), lines) ::
      Reduced(c.reducef, Bucket(c, r) + c.reread(lines), lines)
  }

  ghost predicate TaskOk(c: Config, s: System, task: Task)
    requires c.nReduce > 0
  {
    match task
    case Mapping(i, written) => i < |c.files| && forall r | r in written :: (i, r) in s.inter
    case Reducing(r) => r < c.nReduce && s.board.mapFinish
    case Writing(r, lines) => r < c.nReduce && |Bucket(c, r)| > 0 && Reduced(c.reducef, Bucket(c, r), lines)
    case Ended(t, i, success) =>
      && IsTask(s.board, t, i) && (t == MapJob ==> i < |c.files|) && (t == ReduceJob ==> i < c.nReduce)
      && (success && t == MapJob ==> Mapped(c, s.inter, i))
      && (success && t == ReduceJob ==> OutRight(c, s.outs, i))
  }

  ghost predicate BoardRight(c: Config, s: System)
    requires c.nReduce > 0
  {
    && BoardOk(s.board) && |s.board.maps| == |c.files| && |s.board.reduces| == c.nReduce
    && (forall i | 0 <= i < |c.files| && s.board.maps[i] == Finished :: Mapped(c, s.inter, i))
    && (forall r | 0 <= r < c.nReduce && s.board.reduces[r] == Finished :: OutRight(c, s.outs, r))
  }

  ghost predicate OutsOk(c: Config, outs: Outs)
    requires c.nReduce > 0
  {
    forall r | r in outs :: r < c.nReduce && |Bucket(c, r)| > 0 && OutRight(c, outs, r)
  }

  ghost predicate Inv(c: Config, s: System)
    requires c.nReduce > 0
  {
    && BoardRight(c, s) && InterOk(c, s.inter) && OutsOk(c, s.outs)
    && forall w {:trigger s.tasks[w]} | w in s.tasks :: TaskOk(c, s, s.tasks[w])
  }

  lemma InitInv(c: Config)
    requires c.nReduce > 0
    ensures Inv(c, Init(c))
  {
    FreshOk(|c.files|, c.nReduce);
  }

  // ---------- Gathering ----------

  lemma {:induction false} GatheredConcat(inter: Inter, a: seq<nat>, b: seq<nat>, r: nat)
    requires forall k | 0 <= k < |a| :: (a[k], r) in inter
    requires forall k | 0 <= k < |b| :: (b[k], r) in inter
    ensures Gathered(inter, a + b, r) == Gathered(inter, a, r) + Gathered(inter, b, r)
    decreases |b|
  {
    if |b| == 0 {
      assert a + b == a;
    } else {
      var n := |b| - 1;
      GatheredConcat(inter, a, b[..n], r);
      assert (a + b)[..|a + b| - 1] == a + b[..n];
      Associates(Gathered(inter, a, r), Gathered(inter, b[..n], r), inter[(b[n], r)]);
    }
  }

  lemma GatheredWithout(inter: Inter, names: seq<nat>, k: nat, r: nat)
    requires k < |names| && forall j | 0 <= j < |names| :: (names[j], r) in inter
    ensures multiset(Gathered(inter, names, r))
         == multiset(Gathered(inter, names[..k] + names[k + 1..], r)) + multiset(inter[(names[k], r)])
  {
    var a, x, b := names[..k], names[k], names[k + 1..];
    assert names == a + ([x] + b);
    GatheredConcat(inter, a, [x] + b, r);
    GatheredConcat(inter, [x], b, r);
    GatheredConcat(inter, a, b, r);
    assert [x][..0] == [];
    assert Gathered(inter, [x], r) == inter[(x, r)];
  }

  /** The names are exactly the map tasks below `n` that emitted something for task `r`. */
  ghost predicate Names(c: Config, names: seq<nat>, n: nat, r: nat)
    requires n <= |c.files| && c.nReduce > 0
  {
    NoRepeats(names) && forall i: nat :: i in names <==> i < n && |PartOf(c, i, r)| > 0
  }

  lemma NamesWithout(c: Config, names: seq<nat>, k: nat, n: nat, r: nat)
    requires 0 < n <= |c.files| && c.nReduce > 0 && Names(c, names, n, r) && k < |names| && names[k] == n - 1
    ensures Names(c, names[..k] + names[k + 1..], n - 1, r)
    ensures forall i | i in names[..k] + names[k + 1..] :: i in names
  {
    var rest := names[..k] + names[k + 1..];
    assert names == names[..k] + [names[k]] + names[k + 1..];
    forall i: nat ensures i in rest <==> i in names && i != n - 1 {
      if i in rest {
        var j :| 0 <= j < |rest| && rest[j] == i;
        assert rest[j] == if j < k then names[j] else names[j + 1];
      }
    }
  }

  lemma NamesSkip(c: Config, names: seq<nat>, n: nat, r: nat)
    requires 0 < n <= |c.files| && c.nReduce > 0 && Names(c, names, n, r) && |PartOf(c, n - 1, r)| == 0
    ensures Names(c, names, n - 1, r)
  {
  }

  lemma NoNames(c: Config, names: seq<nat>, r: nat)
    requires c.nReduce > 0 && Names(c, names, 0, r)
    ensures names == []
  {
    NonEmptyHas(names);
  }

  /** Whatever the order of the listing, the files hold the pairs of the reduce task. */
  lemma {:induction false} GatheredIsBucket(c: Config, inter: Inter, names: seq<nat>, n: nat, r: nat)
    requires c.nReduce > 0 && n <= |c.files| && InterOk(c, inter) && Names(c, names, n, r)
    requires forall k | 0 <= k < |names| :: (names[k], r) in inter
    ensures multiset(Gathered(inter, names, r)) == multiset(BucketOf(c, n, r))
    decreases n
  {
    if n == 0 {
      NoNames(c, names, r);
    } else {
      if |PartOf(c, n - 1, r)| > 0 {
        var rest := LastGathered(c, inter, names, n, r);
        GatheredIsBucket(c, inter, rest, n - 1, r);
        GatheredNext(c, Gathered(inter, names, r), Gathered(inter, rest, r), n, r);
      } else {
        NamesSkip(c, names, n, r);
        BucketSkip(c, n, r);
        GatheredIsBucket(c, inter, names, n - 1, r);
      }
    }
  }

  lemma GatheredNext(c: Config, all: seq<KeyValue>, rest: seq<KeyValue>, n: nat, r: nat)
    requires 0 < n <= |c.files| && c.nReduce > 0
    requires multiset(all) == multiset(rest) + multiset(PartOf(c, n - 1, r))
    requires multiset(rest) == multiset(BucketOf(c, n - 1, r))
    ensures multiset(all) == multiset(BucketOf(c, n, r))
  {
    BucketMultiset(c, n, r);
  }

  /** The files without the one of map task `n - 1`. */
  lemma LastGathered(c: Config, inter: Inter, names: seq<nat>, n: nat, r: nat) returns (rest: seq<nat>)
    requires c.nReduce > 0 && 0 < n <= |c.files| && InterOk(c, inter) && Names(c, names, n, r)
    requires forall k | 0 <= k < |names| :: (names[k], r) in inter
    requires |PartOf(c, n - 1, r)| > 0
    ensures Names(c, rest, n - 1, r) && forall k | 0 <= k < |rest| :: (rest[k], r) in inter
    ensures multiset(Gathered(inter, names, r)) == multiset(Gathered(inter, rest, r)) + multiset(PartOf(c, n - 1, r))
  {
    var k := NameOf(names, n - 1);
    NamesWithout(c, names, k, n, r);
    GatheredWithout(inter, names, k, r);
    rest := names[..k] + names[k + 1..];
  }

  lemma NameOf(names: seq<nat>, i: nat) returns (k: nat)
    requires i in names
    ensures k < |names| && names[k] == i
  {
    k :| 0 <= k < |names| && names[k] == i;
  }

  lemma BucketSkip(c: Config, n: nat, r: nat)
    requires 0 < n <= |c.files| && c.nReduce > 0 && |PartOf(c, n - 1, r)| == 0
    ensures BucketOf(c, n, r) == BucketOf(c, n - 1, r)
  {
  }

  lemma BucketMultiset(c: Config, n: nat, r: nat)
    requires 0 < n <= |c.files| && c.nReduce > 0
    ensures multiset(BucketOf(c, n, r)) == multiset(BucketOf(c, n - 1, r)) + multiset(PartOf(c, n - 1, r))
  {
  }

  lemma ListingNames(c: Config, s: System, names: seq<nat>, r: nat)
    requires c.nReduce > 0 && Inv(c, s) && s.board.mapFinish && r < c.nReduce && Listing(s.inter, names, r)
    ensures Names(c, names, |c.files|, r) && forall k | 0 <= k < |names| :: (names[k], r) in s.inter
  {
    forall i: nat ensures i in names <==> i < |c.files| && |PartOf(c, i, r)| > 0 {
      if i < |c.files| && |PartOf(c, i, r)| > 0 {
        assert s.board.maps[i] == Finished;
        assert Mapped(c, s.inter, i);
      }
    }
    forall k | 0 <= k < |names| ensures (names[k], r) in s.inter {
      assert names[k] in names;
    }
  }

  // ---------- Every step keeps the invariant ----------

  /** What a reduce task reads makes it write the right output, whether or not an earlier attempt has
      left an output file. */
  lemma ReadRight(c: Config, s: System, r: nat, names: seq<nat>, pairs: seq<KeyValue>, lines: seq<Line>)
    requires Valid(c) && Stable(c) && Inv(c, s) && s.board.mapFinish && r < c.nReduce && Listing(s.inter, names, r)
    requires !Nothing(s, names, r)
    requires (forall k | 0 <= k < |names| :: (names[k], r) in s.inter)
      && multiset(pairs) == multiset(Contents(c, s.inter, s.outs, names, r))
    requires Reduced(c.reducef, pairs, lines)
    ensures |Bucket(c, r)| > 0 && Reduced(c.reducef, Bucket(c, r), lines)
  {
    ListingNames(c, s, names, r);
    GatheredIsBucket(c, s.inter, names, |c.files|, r);
    if r in s.outs {
      assert OutRight(c, s.outs, r);
      var fed := Bucket(c, r) + c.reread(s.outs[r]);
      assert multiset(fed) == multiset(pairs);
      ReducedPermutes(c.reducef, pairs, fed, lines);
      ReducedUnique(c.reducef, fed, s.outs[r], lines);
    } else {
      ReducedPermutes(c.reducef, pairs, Bucket(c, r), lines);
      FirstNamed(c, names, r);
    }
  }

  lemma FirstNamed(c: Config, names: seq<nat>, r: nat)
    requires c.nReduce > 0 && |names| > 0 && Names(c, names, |c.files|, r)
    ensures |Bucket(c, r)| > 0
  {
    assert names[0] in names;
    PartInBucket(c, |c.files|, names[0], r);
  }

  lemma {:induction false} PartInBucket(c: Config, n: nat, i: nat, r: nat)
    requires c.nReduce > 0 && i < n <= |c.files| && |PartOf(c, i, r)| > 0
    ensures |BucketOf(c, n, r)| > 0
    decreases n
  {
    if i < n - 1 {
      PartInBucket(c, n - 1, i, r);
    }
  }

  lemma NothingRight(c: Config, s: System, r: nat, names: seq<nat>)
    requires c.nReduce > 0 && Inv(c, s) && s.board.mapFinish && r < c.nReduce && Listing(s.inter, names, r)
    requires Nothing(s, names, r)
    ensures OutRight(c, s.outs, r)
  {
    ListingNames(c, s, names, r);
    GatheredIsBucket(c, s.inter, names, |c.files|, r);
    assert |Bucket(c, r)| == |multiset(Bucket(c, r))| == 0;
  }

  /** Nothing that tasks rely on is lost. */
  ghost predicate Grows(c: Config, s: System, s': System)
    requires c.nReduce > 0
  {
    && Progress(s.board, s'.board) && s.inter.Keys <= s'.inter.Keys
    && forall r {:trigger OutRight(c, s'.outs, r)} | 0 <= r < c.nReduce && OutRight(c, s.outs, r) ::
      OutRight(c, s'.outs, r)
  }

  lemma TaskKept(c: Config, s: System, s': System, task: Task)
    requires c.nReduce > 0 && Grows(c, s, s') && TaskOk(c, s, task)
    ensures TaskOk(c, s', task)
  {
  }

  /** Other workers are unaffected. */
  lemma TasksKept(c: Config, s: System, s': System, w: nat)
    requires c.nReduce > 0 && Inv(c, s) && Grows(c, s, s')
    requires w in s'.tasks ==> TaskOk(c, s', s'.tasks[w])
    requires forall v | v in s'.tasks && v != w :: v in s.tasks && s'.tasks[v] == s.tasks[v]
    ensures forall v {:trigger s'.tasks[v]} | v in s'.tasks :: TaskOk(c, s', s'.tasks[v])
  {
    forall v {:trigger s'.tasks[v]} | v in s'.tasks ensures TaskOk(c, s', s'.tasks[v]) {
      if v != w {
        TaskKept(c, s, s', s.tasks[v]);
      }
    }
  }

  lemma AskKeeps(c: Config, s: System, w: nat)
    requires Valid(c) && Inv(c, s) && Enabled(c, s, Ask(w))
    ensures Inv(c, Perform(c, s, Ask(w)))
  {
    var s' := Perform(c, s, Ask(w));
    AssignSafe(s.board);
    if w in s'.tasks {
      TasksKept(c, s, s', w);
    } else {
      assert s'.board == s.board && s'.tasks == s.tasks;
    }
  }

  lemma WriteFileKeeps(c: Config, s: System, w: nat, r: nat)
    requires Valid(c) && Inv(c, s) && Enabled(c, s, WriteFile(w, r))
    ensures Inv(c, Perform(c, s, WriteFile(w, r)))
  {
    assert TaskOk(c, s, s.tasks[w]);
    TasksKept(c, s, Perform(c, s, WriteFile(w, r)), w);
  }

  lemma ReadKeeps(c: Config, s: System, w: nat, names: seq<nat>, pairs: seq<KeyValue>, lines: seq<Line>)
    requires Valid(c) && Stable(c) && Inv(c, s) && Enabled(c, s, Read(w, names, pairs, lines))
    ensures Inv(c, Perform(c, s, Read(w, names, pairs, lines)))
  {
    var r := s.tasks[w].id;
    assert TaskOk(c, s, s.tasks[w]);
    ListingNames(c, s, names, r);
    if Nothing(s, names, r) {
      NothingRight(c, s, r, names);
    } else {
      ReadRight(c, s, r, names, pairs, lines);
    }
    TasksKept(c, s, Perform(c, s, Read(w, names, pairs, lines)), w);
  }

  lemma WriteOutKeeps(c: Config, s: System, w: nat)
    requires Valid(c) && Inv(c, s) && Enabled(c, s, WriteOut(w))
    ensures Inv(c, Perform(c, s, WriteOut(w)))
  {
    var s' := Perform(c, s, WriteOut(w));
    assert TaskOk(c, s, s.tasks[w]);
    forall r | 0 <= r < c.nReduce && OutRight(c, s.outs, r) ensures OutRight(c, s'.outs, r) {
      assert r == s.tasks[w].id || OutOf(s'.outs, r) == OutOf(s.outs, r);
    }
    assert OutRight(c, s'.outs, s.tasks[w].id);
    TasksKept(c, s, s', w);
  }

  lemma TellKeeps(c: Config, s: System, w: nat)
    requires Valid(c) && Inv(c, s) && Enabled(c, s, Tell(w))
    ensures Inv(c, Perform(c, s, Tell(w)))
  {
    var task := s.tasks[w];
    assert TaskOk(c, s, task);
    ReportSafe(s.board, task.jobType, task.id, task.success);
    TasksKept(c, s, Perform(c, s, Tell(w)), w);
  }

  lemma EndMapKeeps(c: Config, s: System, w: nat)
    requires Valid(c) && Inv(c, s) && Enabled(c, s, EndMap(w))
    ensures Inv(c, Perform(c, s, EndMap(w)))
  {
    assert TaskOk(c, s, s.tasks[w]);
    TasksKept(c, s, Perform(c, s, EndMap(w)), w);
  }

  lemma FailKeeps(c: Config, s: System, w: nat)
    requires Valid(c) && Inv(c, s) && Enabled(c, s, Fail(w))
    ensures Inv(c, Perform(c, s, Fail(w)))
  {
    assert TaskOk(c, s, s.tasks[w]);
    TasksKept(c, s, Perform(c, s, Fail(w)), w);
  }

  lemma FireKeeps(c: Config, s: System, t: JobType, i: nat)
    requires Valid(c) && Inv(c, s) && Enabled(c, s, Fire(t, i))
    ensures Inv(c, Perform(c, s, Fire(t, i)))
  {
    var s' := Perform(c, s, Fire(t, i));
    ExpireSafe(s.board, t, i);
    forall v {:trigger s'.tasks[v]} | v in s'.tasks ensures TaskOk(c, s', s'.tasks[v]) {
      TaskKept(c, s, s', s.tasks[v]);
    }
  }

  lemma StepKeeps(c: Config, s: System, a: Action)
    requires Valid(c) && Stable(c) && Inv(c, s) && Enabled(c, s, a)
    ensures Inv(c, Perform(c, s, a))
  {
    match a
    case Ask(w) => AskKeeps(c, s, w);
    case WriteFile(w, r) => WriteFileKeeps(c, s, w, r);
    case Read(w, names, pairs, lines) => ReadKeeps(c, s, w, names, pairs, lines);
    case WriteOut(w) => WriteOutKeeps(c, s, w);
    case Tell(w) => TellKeeps(c, s, w);
    case EndMap(w) => EndMapKeeps(c, s, w);
    case Fail(w) => FailKeeps(c, s, w);
    case Vanish(w) => TasksKept(c, s, Perform(c, s, a), w);
    case Fire(t, i) => FireKeeps(c, s, t, i);
  }

  lemma ActionAt(c: Config, run: seq<System>, k: nat) returns (a: Action)
    requires c.nReduce > 0 && IsRun(c, run) && k + 1 < |run|
    ensures Enabled(c, run[k], a) && run[k + 1] == Perform(c, run[k], a)
  {
    assert Next(c, run[k], run[k + 1]);
    a :| Enabled(c, run[k], a) && run[k + 1] == Perform(c, run[k], a);
  }

  lemma {:induction false} RunInv(c: Config, run: seq<System>, k: nat)
    requires Valid(c) && Stable(c) && IsRun(c, run) && k < |run|
    ensures Inv(c, run[k])
  {
    if k == 0 {
      InitInv(c);
    } else {
      RunInv(c, run, k - 1);
      var a := ActionAt(c, run, k - 1);
      StepKeeps(c, run[k - 1], a);
    }
  }

  // ---------- Phase safety of runs ----------

  /** The table is sound, and every task in progress or about to be reported is a job of the table. */
  ghost predicate PhaseOk(c: Config, s: System) {
    && BoardOk(s.board) && |s.board.maps| == |c.files| && |s.board.reduces| == c.nReduce
    && forall w {:trigger s.tasks[w]} | w in s.tasks :: IsTask(s.board, TypeOf(s.tasks[w]), s.tasks[w].id)
  }

  lemma StepPhase(c: Config, s: System, a: Action)
    requires c.nReduce > 0 && PhaseOk(c, s) && Enabled(c, s, a)
    ensures PhaseOk(c, Perform(c, s, a)) && Progress(s.board, Perform(c, s, a).board)
  {
    match a
    case Ask(w) => AssignSafe(s.board);
    case Tell(w) => ReportSafe(s.board, s.tasks[w].jobType, s.tasks[w].id, s.tasks[w].success);
    case Fire(t, i) => ExpireSafe(s.board, t, i);
    case _ => assert Perform(c, s, a).board == s.board;
  }

  /** In every run, with or without sensible application functions: finished jobs stay finished, the
      phase flags are exact, a reduce job is handed out only when every map job is finished and the
      order to stop only when every job is, and no report names a job that does not exist. */
  lemma {:induction false} PhaseSafety(c: Config, run: seq<System>, i: nat, j: nat)
    requires c.nReduce > 0 && IsRun(c, run) && i <= j < |run|
    ensures PhaseOk(c, run[j]) && Progress(run[i].board, run[j].board)
    ensures var t := Assign(run[j].board).1;
      && (t == ReduceJob ==> AllFinished(run[j].board.maps))
      && (t == TerminalJob ==> AllFinished(run[j].board.maps) && AllFinished(run[j].board.reduces))
    decreases j
  {
    if j == 0 {
      FreshOk(|c.files|, c.nReduce);
    } else {
      PhaseSafety(c, run, if i < j then i else j - 1, j - 1);
      var a := ActionAt(c, run, j - 1);
      StepPhase(c, run[j - 1], a);
    }
    AssignSafe(run[j].board);
  }

  // ---------- The output ----------

  /** In every schedule of assignments, timeouts, failures, re-executions and late reports: once Done
      holds, the output files together are the output of the sequential program. */
  lemma OutputIsSequential(c: Config, run: seq<System>, k: nat, sequential: seq<Line>)
    requires Valid(c) && Stable(c) && IsRun(c, run) && k < |run|
    requires Reduced(c.reducef, EmittedBy(c, |c.files|), sequential)
    ensures run[k].board.reduceFinish ==> multiset(Union(run[k].outs, c.nReduce)) == multiset(sequential)
  {
    RunInv(c, run, k);
    if run[k].board.reduceFinish {
      UnionIsSequential(c, run[k].outs, sequential);
    }
  }
}
