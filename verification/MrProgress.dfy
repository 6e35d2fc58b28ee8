/** A MapReduce run never gets stuck. */
module MrProgress {
  import opened MapReduce
  import opened MrCoordinator
  import opened MrReread
  import opened MrSystem
  import opened MrWorker
  import opened Sorting

  // Whatever has happened so far, timers and one new worker are enough to finish the job: workers that
  // hold a task may have crashed or may never report.

  // ---------- Continuations by one worker ----------

  /** The action of a timer or of worker `w`. */
  predicate Own(a: Action, w: nat) {
    a.Fire? || a.w == w
  }

  ghost predicate NextBy(c: Config, s: System, s': System, w: nat)
    requires c.nReduce > 0
  {
    exists a :: Own(a, w) && Enabled(c, s, a) && s' == Perform(c, s, a)
  }

  ghost predicate IsPath(c: Config, path: seq<System>, w: nat)
    requires c.nReduce > 0
  {
    |path| > 0 && forall k {:trigger path[k + 1]} | 0 <= k < |path| - 1 :: NextBy(c, path[k], path[k + 1], w)
  }

  /** Timers and worker `w` alone can lead from `s` to `s'`. */
  ghost predicate Continues(c: Config, s: System, s': System, w: nat)
    requires c.nReduce > 0
  {
    exists path :: IsPath(c, path, w) && path[0] == s && path[|path| - 1] == s'
  }

  lemma Stay(c: Config, s: System, w: nat)
    requires c.nReduce > 0
    ensures Continues(c, s, s, w)
  {
    var path := [s];
    assert IsPath(c, path, w) && path[0] == s && path[|path| - 1] == s;
  }

  lemma Do(c: Config, s0: System, s: System, w: nat, a: Action) returns (s': System)
    requires c.nReduce > 0 && Continues(c, s0, s, w) && Healthy(c, s) && Own(a, w) && Enabled(c, s, a)
    ensures s' == Perform(c, s, a) && Continues(c, s0, s', w) && Healthy(c, s')
  {
    s' := Perform(c, s, a);
    var path :| IsPath(c, path, w) && path[0] == s0 && path[|path| - 1] == s;
    var longer := path + [s'];
    assert NextBy(c, s, s', w);
    forall k {:trigger longer[k + 1]} | 0 <= k < |longer| - 1 ensures NextBy(c, longer[k], longer[k + 1], w) {
      if k < |path| - 1 {
        assert NextBy(c, path[k], path[k + 1], w);
      }
    }
    assert IsPath(c, longer, w) && longer[0] == s0 && longer[|longer| - 1] == s';
    StepHealthy(c, s, a);
  }

  // ---------- What every run keeps ----------

  predicate Known(b: Board) {
    && (forall i | 0 <= i < |b.maps| :: b.maps[i] != UnknownState)
    && (forall i | 0 <= i < |b.reduces| :: b.reduces[i] != UnknownState)
  }

  ghost predicate Healthy(c: Config, s: System) {
    PhaseOk(c, s) && Known(s.board)
  }

  lemma SetKnown(b: Board, t: JobType, i: nat, s: JobState)
    requires Known(b) && IsTask(b, t, i) && s != UnknownState
    ensures Known(SetState(b, t, i, s))
  {
  }

  lemma BoardKnown(c: Config, s: System, a: Action)
    requires c.nReduce > 0 && Healthy(c, s) && Enabled(c, s, a)
    ensures Known(Perform(c, s, a).board)
  {
    match a
    case Ask(_) =>
      var (_, t, i) := Assign(s.board);
      if t == MapJob || t == ReduceJob {
        SetKnown(s.board, t, i, Doing);
      }
    case Tell(w) =>
      var task := s.tasks[w];
      SetKnown(s.board, task.jobType, task.id, if task.success then Finished else UnFinish);
    case Fire(t, i) => SetKnown(s.board, t, i, UnFinish);
    case _ =>
  }

  lemma StepHealthy(c: Config, s: System, a: Action)
    requires c.nReduce > 0 && Healthy(c, s) && Enabled(c, s, a)
    ensures Healthy(c, Perform(c, s, a))
  {
    StepPhase(c, s, a);
    BoardKnown(c, s, a);
  }

  lemma {:induction false} RunHealthy(c: Config, run: seq<System>, k: nat)
    requires c.nReduce > 0 && IsRun(c, run) && k < |run|
    ensures Healthy(c, run[k])
  {
    if k == 0 {
      FreshOk(|c.files|, c.nReduce);
    } else {
      RunHealthy(c, run, k - 1);
      var a := ActionAt(c, run, k - 1);
      StepHealthy(c, run[k - 1], a);
    }
  }

  // ---------- Counting what is left ----------

  function Open(jobs: seq<JobState>): nat {
    if |jobs| == 0 then 0 else Open(jobs[..|jobs| - 1]) + if jobs[|jobs| - 1] == Finished then 0 else 1
  }

  lemma {:induction false} OpenUpdate(jobs: seq<JobState>, i: nat, s: JobState)
    requires i < |jobs| && jobs[i] != Finished
    ensures Open(jobs[i := s]) == Open(jobs) - if s == Finished then 1 else 0
  {
    var n := |jobs| - 1;
    if i < n {
      OpenUpdate(jobs[..n], i, s);
      assert jobs[i := s][..n] == jobs[..n][i := s];
    } else {
      assert jobs[i := s][..n] == jobs[..n];
    }
  }

  function Left(b: Board): nat {
    Open(b.maps) + Open(b.reduces)
  }

  lemma LeftUpdate(b: Board, t: JobType, i: nat, s: JobState)
    requires IsTask(b, t, i) && StateOf(b, t, i) != Finished
    ensures Left(SetState(b, t, i, s)) == Left(b) - if s == Finished then 1 else 0
  {
    OpenUpdate(if t == MapJob then b.maps else b.reduces, i, s);
  }

  // ---------- Getting a job ----------

  lemma OpenJob(jobs: seq<JobState>) returns (i: nat)
    requires !AllFinished(jobs)
    ensures i < |jobs| && jobs[i] != Finished
  {
    i :| 0 <= i < |jobs| && jobs[i] != Finished;
  }

  /** A job of the phase that is not finished yet. */
  lemma SomeOpen(b: Board) returns (t: JobType, i: nat)
    requires BoardOk(b) && !b.reduceFinish && |b.maps| > 0 && |b.reduces| > 0
    ensures t == (if b.mapFinish then ReduceJob else MapJob) && IsTask(b, t, i) && StateOf(b, t, i) != Finished
  {
    if b.mapFinish {
      t := ReduceJob;
      i := OpenJob(b.reduces);
    } else {
      t := MapJob;
      i := OpenJob(b.maps);
    }
  }

  /** Worker `w` holds job `i` of type `t` and nothing else has changed. */
  ghost predicate Holds(c: Config, s: System, w: nat, t: JobType, i: nat, left: nat)
    requires c.nReduce > 0
  {
    && Healthy(c, s) && IsTask(s.board, t, i) && StateOf(s.board, t, i) == Doing && Left(s.board) == left
    && w in s.tasks && s.tasks[w] == if t == MapJob then Mapping(i, {}) else Reducing(i)
  }

  /** The timer of an open job leaves it for the next worker. */
  lemma Reopen(c: Config, s0: System, s: System, w: nat) returns (s': System, t: JobType)
    requires c.nReduce > 0 && |c.files| > 0 && Continues(c, s0, s, w) && Healthy(c, s) && !s.board.reduceFinish
    ensures Continues(c, s0, s', w) && Healthy(c, s') && s'.tasks == s.tasks && Left(s'.board) == Left(s.board)
    ensures (t == MapJob || t == ReduceJob) && Assign(s'.board).1 == t
  {
    var j;
    t, j := SomeOpen(s.board);
    s' := Do(c, s0, s, w, Fire(t, j));
    if StateOf(s.board, t, j) == Doing {
      LeftUpdate(s.board, t, j, UnFinish);
    }
    assert StateOf(s'.board, t, j) == UnFinish;
  }

  /** After the timer of an open job, a new worker is given a job. */
  lemma GetJob(c: Config, s0: System, s: System, w: nat) returns (s': System, t: JobType, i: nat)
    requires c.nReduce > 0 && |c.files| > 0 && Continues(c, s0, s, w) && Healthy(c, s)
    requires w !in s.tasks && !s.board.reduceFinish
    ensures Continues(c, s0, s', w) && (t == MapJob || t == ReduceJob) && Holds(c, s', w, t, i, Left(s.board))
  {
    var fired;
    fired, t := Reopen(c, s0, s, w);
    i := Assign(fired.board).2;
    AssignSafe(fired.board);
    LeftUpdate(fired.board, t, i, Doing);
    s' := Do(c, s0, fired, w, Ask(w));
  }

  // ---------- Doing it ----------

  /** Worker `w` has written its files for the reduce tasks below `r`. */
  ghost predicate Written(c: Config, s: System, w: nat, i: nat, r: nat)
    requires c.nReduce > 0 && i < |c.files|
  {
    && w in s.tasks && s.tasks[w].Mapping? && s.tasks[w].id == i
    && forall q | 0 <= q < r && |PartOf(c, i, q)| > 0 :: q in s.tasks[w].written
  }

  lemma {:induction false} WriteAll(c: Config, s0: System, s: System, w: nat, i: nat, r: nat) returns (s': System)
    requires c.nReduce > 0 && i < |c.files| && r <= c.nReduce && Continues(c, s0, s, w) && Healthy(c, s)
    requires Written(c, s, w, i, r)
    ensures Continues(c, s0, s', w) && Healthy(c, s') && s'.board == s.board && Written(c, s', w, i, c.nReduce)
    decreases c.nReduce - r
  {
    if r == c.nReduce {
      s' := s;
    } else if |PartOf(c, i, r)| == 0 {
      s' := WriteAll(c, s0, s, w, i, r + 1);
    } else {
      var next := Do(c, s0, s, w, WriteFile(w, r));
      s' := WriteAll(c, s0, next, w, i, r + 1);
    }
  }

  lemma {:induction false} Listed(ids: set<nat>) returns (names: seq<nat>)
    ensures NoRepeats(names) && forall i :: i in names <==> i in ids
    decreases |ids|
  {
    if ids == {} {
      names := [];
    } else {
      var i :| i in ids;
      var rest := Listed(ids - {i});
      names := rest + [i];
    }
  }

  lemma Finds(c: Config, inter: Inter, r: nat) returns (names: seq<nat>)
    ensures Listing(inter, names, r) && forall k | 0 <= k < |names| :: (names[k], r) in inter
  {
    names := Listed(set p | p in inter && p.1 == r :: p.0);
    forall i: nat ensures i in names <==> (i, r) in inter {
      assert (i, r) in inter ==> (i, r).0 in set p | p in inter && p.1 == r :: p.0;
    }
    forall k | 0 <= k < |names| ensures (names[k], r) in inter {
      assert names[k] in names;
    }
  }

  /** Worker `w` reads whatever files there are and writes its output. */
  lemma ReduceAll(c: Config, s0: System, s: System, w: nat, r: nat) returns (s': System)
    requires c.nReduce > 0 && Continues(c, s0, s, w) && Healthy(c, s) && w in s.tasks && s.tasks[w] == Reducing(r)
    ensures Continues(c, s0, s', w) && Healthy(c, s') && s'.board == s.board
    ensures w in s'.tasks && s'.tasks[w] == Ended(ReduceJob, r, true)
  {
    var names := Finds(c, s.inter, r);
    var pairs := Contents(c, s.inter, s.outs, names, r);
    var lines := OutputExists(c.reducef, pairs);
    s' := Do(c, s0, s, w, Read(w, names, pairs, lines));
    if !Nothing(s, names, r) {
      s' := Do(c, s0, s', w, WriteOut(w));
    }
  }

  /** Worker `w` does the job it holds. */
  lemma Work(c: Config, s0: System, s: System, w: nat, t: JobType, i: nat, left: nat) returns (s': System)
    requires c.nReduce > 0 && Continues(c, s0, s, w) && (t == MapJob || t == ReduceJob) && Holds(c, s, w, t, i, left)
    ensures Continues(c, s0, s', w) && Healthy(c, s') && s'.board == s.board
    ensures w in s'.tasks && s'.tasks[w] == Ended(t, i, true)
  {
    if t == MapJob {
      s' := WriteAll(c, s0, s, w, i, 0);
      s' := Do(c, s0, s', w, EndMap(w));
    } else {
      s' := ReduceAll(c, s0, s, w, i);
    }
  }

  /** One more job is finished. */
  lemma FinishOne(c: Config, s0: System, s: System, w: nat) returns (s': System)
    requires c.nReduce > 0 && |c.files| > 0 && Continues(c, s0, s, w) && Healthy(c, s)
    requires w !in s.tasks && !s.board.reduceFinish
    ensures Continues(c, s0, s', w) && Healthy(c, s') && w !in s'.tasks && Left(s'.board) < Left(s.board)
  {
    var held, t, i := GetJob(c, s0, s, w);
    var done := Work(c, s0, held, w, t, i, Left(s.board));
    s' := Do(c, s0, done, w, Tell(w));
    LeftUpdate(held.board, t, i, Finished);
  }

  lemma {:induction false} FinishAll(c: Config, s0: System, s: System, w: nat) returns (s': System)
    requires c.nReduce > 0 && |c.files| > 0 && Continues(c, s0, s, w) && Healthy(c, s) && w !in s.tasks
    ensures Continues(c, s0, s', w) && s'.board.reduceFinish
    decreases Left(s.board)
  {
    s' := s;
    if !s.board.reduceFinish {
      var next := FinishOne(c, s0, s, w);
      s' := FinishAll(c, s0, next, w);
    }
  }

  // ---------- The theorem ----------

  /** From every state of every run, timers and any worker that holds no task can finish the job. */
  lemma CanFinish(c: Config, run: seq<System>, k: nat, w: nat) returns (s': System)
    requires c.nReduce > 0 && |c.files| > 0 && IsRun(c, run) && k < |run| && w !in run[k].tasks
    ensures Continues(c, run[k], s', w) && s'.board.reduceFinish
  {
    RunHealthy(c, run, k);
    Stay(c, run[k], w);
    s' := FinishAll(c, run[k], run[k], w);
  }

  /** Without input files no run is ever done. */
  lemma NothingToDo(c: Config, run: seq<System>, k: nat)
    requires c.nReduce > 0 && |c.files| == 0 && IsRun(c, run) && k < |run|
    ensures !run[k].board.reduceFinish
  {
    RunHealthy(c, run, k);
    ReducesComeLast(run[k].board);
  }

  ghost predicate CanAlwaysFinish(c: Config)
    requires c.nReduce > 0
  {
    forall run: seq<System>, k: nat, w: nat | IsRun(c, run) && k < |run| && w !in run[k].tasks ::
      exists s' :: Continues(c, run[k], s', w) && s'.board.reduceFinish
  }

  /** A job can always be finished exactly when it has input files. */
  lemma CanAlwaysFinishIff(c: Config)
    requires c.nReduce > 0
    ensures CanAlwaysFinish(c) <==> |c.files| > 0
  {
    if |c.files| > 0 {
      forall run: seq<System>, k: nat, w: nat | IsRun(c, run) && k < |run| && w !in run[k].tasks
        ensures exists s' :: Continues(c, run[k], s', w) && s'.board.reduceFinish
      {
        var s' := CanFinish(c, run, k, w);
      }
    } else {
      StuckAtStart(c);
    }
  }

  lemma StuckAtStart(c: Config)
    requires c.nReduce > 0 && |c.files| == 0
    ensures !CanAlwaysFinish(c)
  {
    var run, s := [Init(c)], Init(c);
    assert IsRun(c, run);
    forall s' | Continues(c, s, s', 0) ensures !s'.board.reduceFinish {
      var path :| IsPath(c, path, 0) && path[0] == s && path[|path| - 1] == s';
      PathIsRun(c, path, 0);
      NothingToDo(c, path, |path| - 1);
    }
    assert run[0] == s && 0 !in s.tasks;
  }

  lemma PathIsRun(c: Config, path: seq<System>, w: nat)
    requires c.nReduce > 0 && IsPath(c, path, w) && path[0] == Init(c)
    ensures IsRun(c, path)
  {
    forall k {:trigger path[k + 1]} | 0 <= k < |path| - 1 ensures Next(c, path[k], path[k + 1]) {
      assert NextBy(c, path[k], path[k + 1], w);
    }
  }
}
