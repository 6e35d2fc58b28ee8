/** The MapReduce coordinator (src/mr/coordinator.go): its job table as a value, what every handler and
    timer keeps true of it, and the object with its two views of the jobs. */
module MrCoordinator {

  datatype JobType = UnknownJob | MapJob | ReduceJob | TerminalJob | WaitJob

  datatype JobState = UnknownState | UnFinish | Doing | Finished

  datatype Job = Job(jobType: JobType, jobState: JobState, jobId: nat, fileName: string)

  datatype Reply = Reply(jobType: JobType, jobId: nat, fileName: string, nReduce: nat)

  // ---------- The job table as a value ----------

  datatype Board = Board(maps: seq<JobState>, reduces: seq<JobState>, mapFinish: bool, reduceFinish: bool)

  predicate IsTask(b: Board, t: JobType, i: nat) {
    (t == MapJob && i < |b.maps|) || (t == ReduceJob && i < |b.reduces|)
  }

  function StateOf(b: Board, t: JobType, i: nat): JobState
    requires IsTask(b, t, i)
  {
    if t == MapJob then b.maps[i] else b.reduces[i]
  }

  function SetState(b: Board, t: JobType, i: nat, s: JobState): Board
    requires IsTask(b, t, i)
  {
    if t == MapJob then b.(maps := b.maps[i := s]) else b.(reduces := b.reduces[i := s])
  }

  predicate AllFinished(jobs: seq<JobState>) {
    forall i | 0 <= i < |jobs| :: jobs[i] == Finished
  }

  predicate NoneOpen(jobs: seq<JobState>) {
    forall i | 0 <= i < |jobs| :: jobs[i] != UnFinish
  }

  function FreshBoard(nMap: nat, nReduce: nat): Board {
    Board(seq(nMap, _ => UnFinish), seq(nReduce, _ => UnFinish), false, false)
  }

  /** The first job that nobody works on. */
  function FirstUnFinish(jobs: seq<JobState>): (k: nat)
    ensures k <= |jobs| && (k < |jobs| ==> jobs[k] == UnFinish)
    ensures forall i | 0 <= i < k :: jobs[i] != UnFinish
  {
    if |jobs| == 0 || jobs[0] == UnFinish then 0 else 1 + FirstUnFinish(jobs[1..])
  }

  /** A request for a job: the table after it, and the type and number handed out. */
  function Assign(b: Board): (Board, JobType, nat) {
    var m, r := FirstUnFinish(b.maps), FirstUnFinish(b.reduces);
    if !b.mapFinish && m < |b.maps| then (SetState(b, MapJob, m, Doing), MapJob, m)
    else if b.mapFinish && r < |b.reduces| then (SetState(b, ReduceJob, r, Doing), ReduceJob, r)
    else (b, if b.reduceFinish then TerminalJob else WaitJob, 0)
  }

  /** The timer of an assignment fires. */
  function Expire(b: Board, t: JobType, i: nat): Board
    requires IsTask(b, t, i)
  {
    if StateOf(b, t, i) == Doing then SetState(b, t, i, UnFinish) else b
  }

  /** The phase flags after a job of type `t` finished. */
  function CheckAll(b: Board, t: JobType): Board {
    Board(b.maps, b.reduces, b.mapFinish || (t == MapJob && AllFinished(b.maps)),
          b.reduceFinish || (t == ReduceJob && AllFinished(b.reduces)))
  }

  function Report(b: Board, t: JobType, i: nat, success: bool): Board
    requires t == TerminalJob || t == WaitJob || IsTask(b, t, i)
  {
    if t == TerminalJob || t == WaitJob || StateOf(b, t, i) != Doing then b
    else if success then CheckAll(SetState(b, t, i, Finished), t)
    else SetState(b, t, i, UnFinish)
  }

  // ---------- Phase safety ----------

  /** The flags are exact, and no reduce job is touched before the map phase is over. */
  predicate BoardOk(b: Board) {
    && (b.mapFinish <==> |b.maps| > 0 && AllFinished(b.maps))
    && (b.reduceFinish <==> |b.reduces| > 0 && AllFinished(b.reduces))
    && (!b.mapFinish ==> forall r | 0 <= r < |b.reduces| :: b.reduces[r] == UnFinish)
  }

  /** Finished jobs and phases stay so. */
  predicate Progress(b: Board, b': Board) {
    && |b'.maps| == |b.maps| && |b'.reduces| == |b.reduces|
    && (forall i | 0 <= i < |b.maps| && b.maps[i] == Finished :: b'.maps[i] == Finished)
    && (forall i | 0 <= i < |b.reduces| && b.reduces[i] == Finished :: b'.reduces[i] == Finished)
    && (b.mapFinish ==> b'.mapFinish) && (b.reduceFinish ==> b'.reduceFinish)
  }

  lemma FreshOk(nMap: nat, nReduce: nat)
    ensures BoardOk(FreshBoard(nMap, nReduce))
  {
    var b := FreshBoard(nMap, nReduce);
    assert nMap > 0 ==> b.maps[0] == UnFinish;
    assert nReduce > 0 ==> b.reduces[0] == UnFinish;
  }

  lemma SetUnfinished(b: Board, t: JobType, i: nat, s: JobState)
    requires BoardOk(b) && IsTask(b, t, i) && StateOf(b, t, i) != Finished && s != Finished
    requires t == ReduceJob ==> b.mapFinish
    ensures BoardOk(SetState(b, t, i, s)) && Progress(b, SetState(b, t, i, s))
  {
    var b' := SetState(b, t, i, s);
    assert StateOf(b', t, i) == s;
  }

  lemma ReducesComeLast(b: Board)
    requires BoardOk(b)
    ensures b.reduceFinish ==> b.mapFinish
  {
    if !b.mapFinish && |b.reduces| > 0 {
      assert b.reduces[0] == UnFinish;
    }
  }

  /** A map job is handed out only while maps are missing, a reduce job only when every map job is
      finished; workers are told to stop exactly when the reduce phase is over, and to wait exactly when it
      is not and no job of the current phase is open. */
  lemma AssignSafe(b: Board)
    requires BoardOk(b)
    ensures var (b', t, i) := Assign(b);
      && BoardOk(b') && Progress(b, b')
      && (t == MapJob || t == ReduceJob ==>
        IsTask(b, t, i) && StateOf(b, t, i) == UnFinish && b' == SetState(b, t, i, Doing))
      && (t == ReduceJob || t == TerminalJob ==> AllFinished(b.maps))
      && (t == TerminalJob ==> AllFinished(b.reduces))
      && (t == TerminalJob || t == WaitJob ==> b' == b)
      && (t == TerminalJob <==> b.reduceFinish)
      && (t == WaitJob <==> !b.reduceFinish && NoneOpen(if b.mapFinish then b.reduces else b.maps))
      && t != UnknownJob
  {
    var (b', t, i) := Assign(b);
    ReducesComeLast(b);
    if t == MapJob || t == ReduceJob {
      SetUnfinished(b, t, i, Doing);
    }
  }

  lemma ExpireSafe(b: Board, t: JobType, i: nat)
    requires BoardOk(b) && IsTask(b, t, i)
    ensures BoardOk(Expire(b, t, i)) && Progress(b, Expire(b, t, i))
  {
    if StateOf(b, t, i) == Doing {
      SetUnfinished(b, t, i, UnFinish);
    }
  }

  /** The timer of a job that is being worked on opens it again, whatever its type, and changes nothing else;
      the next request is given it unless an earlier job of the phase is open. */
  lemma ExpireReopens(b: Board, t: JobType, i: nat)
    requires BoardOk(b) && IsTask(b, t, i)
    ensures var b' := Expire(b, t, i);
      && |b'.maps| == |b.maps| && |b'.reduces| == |b.reduces|
      && b'.mapFinish == b.mapFinish && b'.reduceFinish == b.reduceFinish
      && (forall u, j: nat | IsTask(b, u, j) && (u, j) != (t, i) :: StateOf(b', u, j) == StateOf(b, u, j))
      && StateOf(b', t, i) == (if StateOf(b, t, i) == Doing then UnFinish else StateOf(b, t, i))
      && (StateOf(b, t, i) == Doing ==>
            && Assign(b').1 == t && Assign(b').2 <= i
            && ((forall j: nat | j < i :: StateOf(b, t, j) != UnFinish) ==> Assign(b').2 == i))
  {
    var b' := Expire(b, t, i);
    if StateOf(b, t, i) == Doing {
      var jobs := if t == MapJob then b'.maps else b'.reduces;
      assert jobs[i] == UnFinish;
      assert forall j: nat | j < i :: jobs[j] == StateOf(b, t, j);
      if forall j: nat | j < i :: StateOf(b, t, j) != UnFinish {
        FirstIs(jobs, i);
      }
    }
  }

  /** A report counts exactly while its job is being worked on: it closes or reopens that job and changes no
      other; a report of failure acts as the timer does. */
  lemma ReportCounts(b: Board, t: JobType, i: nat, success: bool)
    requires IsTask(b, t, i)
    ensures var b' := Report(b, t, i, success);
      && |b'.maps| == |b.maps| && |b'.reduces| == |b.reduces|
      && (forall u, j: nat | IsTask(b, u, j) && (u, j) != (t, i) :: StateOf(b', u, j) == StateOf(b, u, j))
      && StateOf(b', t, i)
        == (if StateOf(b, t, i) != Doing then StateOf(b, t, i) else if success then Finished else UnFinish)
      && (!success ==> b' == Expire(b, t, i))
      && (StateOf(b, t, i) != Doing ==> b' == b)
  {
  }

  lemma ReportSafe(b: Board, t: JobType, i: nat, success: bool)
    requires BoardOk(b) && (t == TerminalJob || t == WaitJob || IsTask(b, t, i))
    ensures BoardOk(Report(b, t, i, success)) && Progress(b, Report(b, t, i, success))
  {
    if (t == MapJob || t == ReduceJob) && StateOf(b, t, i) == Doing {
      if success {
        FinishSafe(b, t, i);
      } else {
        SetUnfinished(b, t, i, UnFinish);
      }
    }
  }

  lemma FinishSafe(b: Board, t: JobType, i: nat)
    requires BoardOk(b) && IsTask(b, t, i) && StateOf(b, t, i) == Doing
    ensures BoardOk(CheckAll(SetState(b, t, i, Finished), t)) && Progress(b, CheckAll(SetState(b, t, i, Finished), t))
  {
    var b' := CheckAll(SetState(b, t, i, Finished), t);
    if t == MapJob {
      assert b.maps[i] != Finished && !b.mapFinish;
      assert b'.reduces == b.reduces;
    } else {
      assert b.reduces[i] != UnFinish && b.mapFinish;
      assert b'.maps == b.maps;
    }
  }

  // ---------- The object ----------

  class Coordinator {
    var files: seq<string>
    var nReduce: nat
    var allJob: map<JobType, array<Job>>
    var mapJobFinish: bool
    var mapJob: array<Job>
    var reduceJobFinish: bool
    var reduceJob: array<Job>

    /** The two views of a job are one and the same array. */
    ghost predicate Valid()
      reads this, mapJob, reduceJob
    {
      && mapJob != reduceJob
      && allJob == map[MapJob := mapJob, ReduceJob := reduceJob]
      && mapJob.Length == |files| && reduceJob.Length == nReduce
      && (forall i | 0 <= i < mapJob.Length ::
        mapJob[i].jobType == MapJob && mapJob[i].jobId == i && mapJob[i].fileName == files[i])
      && (forall i | 0 <= i < reduceJob.Length :: reduceJob[i].jobType == ReduceJob && reduceJob[i].jobId == i)
    }

    ghost function View(): (b: Board)
      requires Valid()
      reads this, mapJob, reduceJob
      ensures |b.maps| == |files| && |b.reduces| == nReduce
    {
      Board(States(mapJob), States(reduceJob), mapJobFinish, reduceJobFinish)
    }

    static ghost function States(jobs: array<Job>): (s: seq<JobState>)
      reads jobs
      ensures |s| == jobs.Length && forall i | 0 <= i < |s| :: s[i] == jobs[i].jobState
    {
      seq(jobs.Length, i requires 0 <= i < jobs.Length reads jobs => jobs[i].jobState)
    }

    constructor (files: seq<string>, nReduce: nat)
      ensures Valid() && fresh(mapJob) && fresh(reduceJob)
      ensures this.files == files && this.nReduce == nReduce && View() == FreshBoard(|files|, nReduce)
    {
      this.files, this.nReduce := files, nReduce;
      mapJobFinish, reduceJobFinish := false, false;
      var maps := new Job[|files|](i requires 0 <= i < |files| => Job(MapJob, UnFinish, i, files[i]));
      var reduces := new Job[nReduce](i requires 0 <= i < nReduce => Job(ReduceJob, UnFinish, i, ""));
      mapJob, reduceJob := maps, reduces;
      allJob := map[MapJob := maps, ReduceJob := reduces];
    }

    method GetJob() returns (reply: Reply)
      requires Valid()
      modifies mapJob, reduceJob
      ensures Valid()
      ensures (View(), reply.jobType, reply.jobId) == Assign(old(View()))
      ensures reply.jobType == MapJob ==>
        reply.jobId < |files| && reply.fileName == files[reply.jobId] && reply.nReduce == nReduce
    {
      if !mapJobFinish {
        var i := 0;
        while i < mapJob.Length
          invariant 0 <= i <= mapJob.Length
          invariant forall k | 0 <= k < i :: mapJob[k].jobState != UnFinish
        {
          var job := mapJob[i];
          if job.jobState == UnFinish {
            FirstIs(View().maps, i);
            mapJob[i] := job.(jobState := Doing);
            assert States(mapJob) == old(States(mapJob))[i := Doing];
            return Reply(job.jobType, i, job.fileName, nReduce);
          }
          i := i + 1;
        }
        FirstIs(View().maps, |files|);
      }
      if mapJobFinish {
        var i := 0;
        while i < reduceJob.Length
          invariant 0 <= i <= reduceJob.Length
          invariant forall k | 0 <= k < i :: reduceJob[k].jobState != UnFinish
        {
          var job := reduceJob[i];
          if job.jobState == UnFinish {
            FirstIs(View().reduces, i);
            reduceJob[i] := job.(jobState := Doing);
            assert States(reduceJob) == old(States(reduceJob))[i := Doing];
            return Reply(job.jobType, i, "", 0);
          }
          i := i + 1;
        }
        FirstIs(View().reduces, nReduce);
      }
      if reduceJobFinish {
        return Reply(TerminalJob, 0, "", 0);
      }
      return Reply(WaitJob, 0, "", 0);
    }

    /** Writes through the other view of the jobs. */
    method SetJob(t: JobType, i: nat, s: JobState)
      requires Valid() && IsTask(View(), t, i)
      modifies mapJob, reduceJob
      ensures Valid() && View() == SetState(old(View()), t, i, s)
    {
      var jobs := allJob[t];
      jobs[i] := jobs[i].(jobState := s);
      if t == MapJob {
        assert States(mapJob) == old(States(mapJob))[i := s];
        assert States(reduceJob) == old(States(reduceJob));
      } else {
        assert States(reduceJob) == old(States(reduceJob))[i := s];
        assert States(mapJob) == old(States(mapJob));
      }
    }

    method TimerFires(t: JobType, i: nat)
      requires Valid() && IsTask(View(), t, i)
      modifies mapJob, reduceJob
      ensures Valid() && View() == Expire(old(View()), t, i)
    {
      if allJob[t][i].jobState == Doing {
        SetJob(t, i, UnFinish);
      }
    }

    method ReportJobResult(t: JobType, i: nat, success: bool)
      requires Valid() && (t == TerminalJob || t == WaitJob || IsTask(View(), t, i))
      modifies this, mapJob, reduceJob
      ensures Valid() && View() == Report(old(View()), t, i, success)
      ensures mapJob == old(mapJob) && reduceJob == old(reduceJob) && files == old(files) && nReduce == old(nReduce)
    {
      if t == TerminalJob || t == WaitJob {
        return;
      }
      if !success {
        if allJob[t][i].jobState == Doing {
          SetJob(t, i, UnFinish);
        }
      } else if allJob[t][i].jobState == Doing {
        SetJob(t, i, Finished);
        CheckAllState(t);
      }
    }

    method CheckAllState(t: JobType)
      requires Valid() && (t == MapJob || t == ReduceJob)
      modifies `mapJobFinish, `reduceJobFinish
      ensures Valid() && View() == CheckAll(old(View()), t)
    {
      var all := true;
      var i := 0;
      while i < allJob[t].Length
        invariant 0 <= i <= allJob[t].Length
        invariant all <==> forall k | 0 <= k < i :: allJob[t][k].jobState == Finished
      {
        if allJob[t][i].jobState != Finished {
          all := false;
          break;
        }
        i := i + 1;
      }
      assert all <==> AllFinished(States(allJob[t]));
      if t == MapJob && all {
        mapJobFinish := true;
      }
      if t == ReduceJob && all {
        reduceJobFinish := true;
      }
    }

    /** Done is what the table says: every reduce job, and so every map job, is finished. */
    method Done() returns (done: bool)
      requires Valid()
      ensures done <==> View().reduceFinish
    {
      return reduceJobFinish;
    }
  }

  lemma {:induction false} FirstIs(jobs: seq<JobState>, i: nat)
    requires i <= |jobs| && (i < |jobs| ==> jobs[i] == UnFinish)
    requires forall k | 0 <= k < i :: jobs[k] != UnFinish
    ensures FirstUnFinish(jobs) == i
  {
    if |jobs| > 0 && jobs[0] != UnFinish {
      FirstIs(jobs[1..], i - 1);
    }
  }
}
