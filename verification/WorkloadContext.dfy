/** The workload engine's table of jobs (master/src/workload.c): submission, chunk reports,
    cancellation and deadlines. */
module WorkloadContext {
  import opened MachineInts
  import opened Options
  import opened Counting
  import opened PlanGraph
  import opened ResultHash
  import opened WorkloadJob
  import opened WorkloadTheorems

  const MAX_ACTIVE_WORKLOADS: nat := 32
  const FIRST_WORKLOAD_ID: nat := 1001

  datatype WorkloadDesc = WorkloadDesc(
    totalSizeBytes: u64,
    intensity: u64,
    isSplittable: bool,
    dataNode: u32,
    deadlineSeconds: u32)

  /** (workload id << 16) | i; the shifted id leaves the low 16 bits free. */
  function PlannedId(workloadId: u64, i: nat): ChunkId
    requires i < 3
  {
    workloadId * 0x1_0000 % TWO_64 + i
  }

  function PlannedChunk(desc: WorkloadDesc, workloadId: u64, i: nat): ManagedChunk
    requires i < 3
  {
    ManagedChunk(PlannedId(workloadId, i), desc.totalSizeBytes / 3, desc.intensity, desc.dataNode, Pending, "")
  }

  /** The built-in three-chunk chain. */
  function PlannedJob(desc: WorkloadDesc, workloadId: u64, nowMs: u64): Job {
    var chunks := seq(3, i requires 0 <= i < 3 => PlannedChunk(desc, workloadId, i));
    Job(workloadId, Executing, nowMs, desc.deadlineSeconds, chunks,
        [Edge(chunks[0].id, chunks[1].id), Edge(chunks[1].id, chunks[2].id)], 0.0, None)
  }

  /** The topology check accepts the built-in plan of every workload. */
  lemma PlannedJobAccepted(desc: WorkloadDesc, workloadId: u64, nowMs: u64)
    ensures var job := PlannedJob(desc, workloadId, nowMs);
            Distinct(job.Graph().ids) && Rankable(job.Graph()) && Unstarted(job)
  {
    var job := PlannedJob(desc, workloadId, nowMs);
    var g := job.Graph();
    var rank := [0, 1, 2];
    forall e, j | e in g.edges && 0 <= j < |g.ids| && g.ids[j] == e.dst ensures exists k :: Below(g, rank, e, k, j) {
      assert e == g.edges[0] || e == g.edges[1];
      if e == g.edges[0] {
        assert Below(g, rank, e, 0, j);
      } else {
        assert Below(g, rank, e, 1, j);
      }
    }
    assert IsRanking(g, rank);
  }

  /** The job runs over a graph the topology check accepts, and it is not at a dead end. */
  ghost predicate Alive(job: Job) {
    Distinct(job.Graph().ids) && Rankable(job.Graph()) && !Stuck(job)
  }

  lemma SubmittedIsAlive(desc: WorkloadDesc, workloadId: u64, nowMs: u64)
    ensures Alive(Promoted(PlannedJob(desc, workloadId, nowMs)))
  {
    var job := PlannedJob(desc, workloadId, nowMs);
    PlannedJobAccepted(desc, workloadId, nowMs);
    RankableIffOrderable(job);
    PromotedNotStuck(job);
    SameGraphSameFacts(job, Promoted(job));
  }

  lemma ReportedIsAlive(job: Job, report: Report)
    requires Alive(job)
    ensures Alive(Reported(job, report))
  {
    RankableIffOrderable(job);
    ReportNotStuck(job, report);
    ReportKeepsGraph(job, report);
    SameGraphSameFacts(job, Reported(job, report));
  }

  lemma StatusKeepsAlive(job: Job, state: JobState)
    requires Alive(job)
    ensures Alive(job.(state := state))
  {
    SameGraphSameFacts(job, job.(state := state));
  }

  /** Workload ids count up from the first one, and no job is at a dead end. */
  ghost predicate Sound(jobs: seq<Job>) {
    jobs == [] ||
    var n := |jobs| - 1;
    Sound(jobs[..n]) && jobs[n].workloadId == FIRST_WORKLOAD_ID + n && Alive(jobs[n])
  }

  lemma {:induction false} SoundAt(jobs: seq<Job>, i: nat)
    requires Sound(jobs) && i < |jobs|
    ensures jobs[i].workloadId == FIRST_WORKLOAD_ID + i && Alive(jobs[i])
  {
    if i < |jobs| - 1 {
      SoundAt(jobs[..|jobs| - 1], i);
    }
  }

  lemma SoundId(jobs: seq<Job>, i: nat)
    requires Sound(jobs) && i < |jobs|
    ensures jobs[i].workloadId == FIRST_WORKLOAD_ID + i
  {
    SoundAt(jobs, i);
  }

  lemma {:induction false} SoundUpdate(jobs: seq<Job>, i: nat, job: Job)
    requires Sound(jobs) && i < |jobs|
    requires job.workloadId == FIRST_WORKLOAD_ID + i && Alive(job)
    ensures Sound(jobs[i := job])
  {
    var n := |jobs| - 1;
    if i < n {
      SoundUpdate(jobs[..n], i, job);
      assert jobs[i := job][..n] == jobs[..n][i := job];
    } else {
      assert jobs[i := job][..n] == jobs[..n];
    }
  }

  lemma SoundReport(jobs: seq<Job>, i: nat, report: Report)
    requires Sound(jobs) && i < |jobs|
    ensures Sound(jobs[i := Reported(jobs[i], report)])
  {
    SoundAt(jobs, i);
    ReportedIsAlive(jobs[i], report);
    ReportKeepsGraph(jobs[i], report);
    SoundUpdate(jobs, i, Reported(jobs[i], report));
  }

  lemma SoundStatus(jobs: seq<Job>, i: nat, state: JobState)
    requires Sound(jobs) && i < |jobs|
    ensures Sound(jobs[i := jobs[i].(state := state)])
  {
    SoundAt(jobs, i);
    StatusKeepsAlive(jobs[i], state);
    SoundUpdate(jobs, i, jobs[i].(state := state));
  }

  lemma SoundSubmit(jobs: seq<Job>, desc: WorkloadDesc, id: u64, nowMs: u64)
    requires Sound(jobs) && id == FIRST_WORKLOAD_ID + |jobs|
    ensures Sound(jobs + [Promoted(PlannedJob(desc, id, nowMs))])
  {
    SubmittedIsAlive(desc, id, nowMs);
    assert (jobs + [Promoted(PlannedJob(desc, id, nowMs))])[..|jobs|] == jobs;
  }

  function ElapsedSeconds(nowMs: u64, startMs: u64): nat {
    (nowMs - startMs) % TWO_64 / 1000
  }

  function Expired(job: Job, nowMs: u64): bool {
    job.state == Executing && ElapsedSeconds(nowMs, job.startMs) >= job.deadlineSeconds
  }

  function Judged(job: Job, nowMs: u64): Job { if Expired(job, nowMs) then job.(state := JobFailed) else job }

  // ----- Cancelled and overdue jobs are not final -----

  ghost predicate SomeOther(job: Job, c: int, s: ChunkState) {
    exists i :: 0 <= i < |job.chunks| && i != c && job.chunks[i].state == s
  }

  ghost predicate AllOthers(job: Job, c: int, s: ChunkState) {
    forall i :: 0 <= i < |job.chunks| && i != c ==> job.chunks[i].state == s
  }

  /** The report fails its job: it says so itself, or some other chunk has failed already. */
  ghost predicate FailsJob(job: Job, report: Report) {
    report.result == Failed || SomeOther(job, IndexOf(job.chunks, report.chunkId), Failed)
  }

  /** The report is the last missing completion. */
  ghost predicate CompletesJob(job: Job, report: Report) {
    report.result == Completed && AllOthers(job, IndexOf(job.chunks, report.chunkId), Completed)
  }

  /** Promotion neither adds nor removes a failure or a completion. */
  lemma PromotionKeepsFinished(job: Job, s: ChunkState)
    requires s == Failed || s == Completed
    ensures CountState(Promoted(job).chunks, s) == 0 <==> CountState(job.chunks, s) == 0
    ensures CountState(Promoted(job).chunks, s) == |job.chunks| <==> CountState(job.chunks, s) == |job.chunks|
  {
    var p := Promoted(job);
    assert forall i :: 0 <= i < |job.chunks| ==> (p.chunks[i].state == s <==> job.chunks[i].state == s);
  }

  lemma MarkedCounts(job: Job, c: nat, report: Report, marked: Job)
    requires c < |job.chunks| && marked == Marked(job, c, report)
    ensures CountState(marked.chunks, Failed) > 0 <==> report.result == Failed || SomeOther(job, c, Failed)
    ensures CountState(marked.chunks, Completed) == |job.chunks| <==>
            report.result == Completed && AllOthers(job, c, Completed)
  {
    assert marked.chunks[c].state == report.result;
    if SomeOther(job, c, Failed) {
      var i :| 0 <= i < |job.chunks| && i != c && job.chunks[i].state == Failed;
      assert marked.chunks[i].state == Failed;
    }
    if CountState(marked.chunks, Completed) == |job.chunks| {
      forall i | 0 <= i < |job.chunks| && i != c ensures job.chunks[i].state == Completed {
        assert marked.chunks[i].state == Completed;
      }
    }
  }

  /** The status after a report, for jobs in every status: a failure among the chunks decides first,
      then the completion of all of them, and otherwise the status stays. So no status is final: a
      job that was cancelled or failed by its deadline keeps its status through a report exactly
      when the report neither fails nor completes it (or the status it brings is the present one). */
  lemma StatusSurvivesReportIff(job: Job, report: Report)
    requires Known(job, report.chunkId)
    ensures Reported(job, report).state == if FailsJob(job, report) then JobFailed
                                           else if CompletesJob(job, report) then JobCompleted
                                           else job.state
    ensures Reported(job, report).state == job.state <==>
              && (FailsJob(job, report) ==> job.state == JobFailed)
              && (CompletesJob(job, report) && !FailsJob(job, report) ==> job.state == JobCompleted)
  {
    var c := IndexOf(job.chunks, report.chunkId);
    var marked := Marked(job, c, report);
    MarkedCounts(job, c, report, marked);
    PromotionKeepsFinished(marked, Failed);
    PromotionKeepsFinished(marked, Completed);
  }

  /** A submitted and then cancelled job is moved to failed by a failure reported for its first chunk. */
  lemma CancelledJobFails(desc: WorkloadDesc, workloadId: u64, nowMs: u64)
    ensures var job := Promoted(PlannedJob(desc, workloadId, nowMs)).(state := Cancelled);
            Reported(job, Report(PlannedId(workloadId, 0), Failed, None)).state == JobFailed
  {
    var job := Promoted(PlannedJob(desc, workloadId, nowMs)).(state := Cancelled);
    assert job.chunks[0].id == PlannedId(workloadId, 0);
    assert Known(job, PlannedId(workloadId, 0));
    StatusSurvivesReportIff(job, Report(PlannedId(workloadId, 0), Failed, None));
  }

  ghost function PlannedCompletion(workloadId: u64, i: nat): Report
    requires i < 3
  {
    Report(PlannedId(workloadId, i), Completed, None)
  }

  /** The job has the planned chunks, and exactly the first n of them are completed; none has failed. */
  ghost predicate CompletedUpTo(job: Job, workloadId: u64, n: nat) {
    && |job.chunks| == 3
    && (forall i :: 0 <= i < 3 ==> job.chunks[i].id == PlannedId(workloadId, i) && job.chunks[i].state != Failed)
    && (forall i :: 0 <= i < 3 ==> (job.chunks[i].state == Completed <==> i < n))
  }

  lemma CompletionAdvances(job: Job, workloadId: u64, n: nat)
    requires n < 3 && CompletedUpTo(job, workloadId, n)
    ensures var after := Reported(job, PlannedCompletion(workloadId, n));
            CompletedUpTo(after, workloadId, n + 1) && after.state == if n == 2 then JobCompleted else job.state
  {
    var report := PlannedCompletion(workloadId, n);
    PlannedIndex(job, workloadId, n);
    StatusSurvivesReportIff(job, report);
    assert !SomeOther(job, n, Failed);
    assert AllOthers(job, n, Completed) <==> n == 2 by {
      if n < 2 {
        assert job.chunks[2].state != Completed;
      }
    }
    MarkedAdvances(job, workloadId, n, Marked(job, n, report));
  }

  lemma PlannedIndex(job: Job, workloadId: u64, n: nat)
    requires n < 3 && CompletedUpTo(job, workloadId, n)
    ensures IndexOf(job.chunks, PlannedId(workloadId, n)) == n
  {
    assert job.chunks[n].id == PlannedId(workloadId, n);
    assert forall i :: 0 <= i < n ==> job.chunks[i].id != PlannedId(workloadId, n);
  }

  lemma MarkedAdvances(job: Job, workloadId: u64, n: nat, marked: Job)
    requires n < 3 && CompletedUpTo(job, workloadId, n) && marked == Marked(job, n, PlannedCompletion(workloadId, n))
    ensures CompletedUpTo(Promoted(marked), workloadId, n + 1)
  {
    assert forall i :: 0 <= i < 3 ==> marked.chunks[i].state == if i == n then Completed else job.chunks[i].state;
  }

  /** Every job that its deadline or a cancellation has ended is completed all the same by the
      completions of its chunks: its status stays until the last one and then becomes completed. */
  lemma EndedJobCompletes(desc: WorkloadDesc, workloadId: u64, nowMs: u64, ended: JobState)
    ensures var job0 := Promoted(PlannedJob(desc, workloadId, nowMs)).(state := ended);
            var job1 := Reported(job0, PlannedCompletion(workloadId, 0));
            var job2 := Reported(job1, PlannedCompletion(workloadId, 1));
            var job3 := Reported(job2, PlannedCompletion(workloadId, 2));
            job1.state == ended && job2.state == ended && job3.state == JobCompleted
  {
    var job0 := Promoted(PlannedJob(desc, workloadId, nowMs)).(state := ended);
    CompletionAdvances(job0, workloadId, 0);
    var job1 := Reported(job0, PlannedCompletion(workloadId, 0));
    CompletionAdvances(job1, workloadId, 1);
    CompletionAdvances(Reported(job1, PlannedCompletion(workloadId, 1)), workloadId, 2);
  }

  // ----- The result hash -----

  /** A job that a report completes carries the hash over its chunks' checksums, the reported one
      included; every other report leaves the hash alone. */
  lemma ReportedHash(job: Job, report: Report)
    requires Known(job, report.chunkId)
    ensures var c := IndexOf(job.chunks, report.chunkId);
            var texts := Checksums(job.chunks)[c := StoredChecksum(job.chunks[c].checksum, report.checksum)];
            Reported(job, report).resultHash ==
            if CompletesJob(job, report) && !FailsJob(job, report) then Some(Aggregate(texts)) else job.resultHash
  {
    var c := IndexOf(job.chunks, report.chunkId);
    var marked := Marked(job, c, report);
    MarkedCounts(job, c, report, marked);
    PromotionKeepsFinished(marked, Failed);
    PromotionKeepsFinished(marked, Completed);
    MarkedChecksums(job, c, report, marked);
    RecalculatedHash(Promoted(marked));
  }

  lemma MarkedChecksums(job: Job, c: nat, report: Report, marked: Job)
    requires c < |job.chunks| && marked == Marked(job, c, report)
    ensures Checksums(Promoted(marked).chunks)
         == Checksums(job.chunks)[c := StoredChecksum(job.chunks[c].checksum, report.checksum)]
  {
    var promoted := Promoted(marked);
    assert forall i :: 0 <= i < |job.chunks| ==> promoted.chunks[i].checksum == marked.chunks[i].checksum;
  }

  lemma RecalculatedHash(job: Job)
    ensures Recalculated(job).resultHash ==
            if CountState(job.chunks, Failed) == 0 && CountState(job.chunks, Completed) == |job.chunks|
            then Some(Aggregate(Checksums(job.chunks))) else job.resultHash
  {
  }

  /** Completing the same job with a checksum that differs in one byte gives a different hash. */
  lemma HashTellsChecksums(job: Job, a: Report, b: Report, i: nat)
    requires Known(job, a.chunkId) && b.chunkId == a.chunkId && b.result == a.result
    requires a.checksum.Some? && b.checksum.Some?
    requires DifferAt(StoredChecksum("", a.checksum), StoredChecksum("", b.checksum), i)
    requires CompletesJob(job, a) && !FailsJob(job, a)
    ensures Reported(job, a).resultHash != Reported(job, b).resultHash
  {
    var c := IndexOf(job.chunks, a.chunkId);
    ReportedHash(job, a);
    ReportedHash(job, b);
    var texts := Checksums(job.chunks)[c := StoredChecksum("", a.checksum)];
    ChecksumChangeShows(texts, c, StoredChecksum("", b.checksum), i, |texts|);
    assert texts[c := StoredChecksum("", b.checksum)] == Checksums(job.chunks)[c := StoredChecksum("", b.checksum)];
  }

  // ----- The effect of each call on the table -----

  /** A splittable workload is planned under the next id while there is room. */
  ghost function AfterSubmit(jobs: seq<Job>, desc: WorkloadDesc, nowMs: u64): seq<Job>
    requires |jobs| <= MAX_ACTIVE_WORKLOADS
  {
    if !desc.isSplittable || |jobs| == MAX_ACTIVE_WORKLOADS then jobs
    else jobs + [Promoted(PlannedJob(desc, FIRST_WORKLOAD_ID + |jobs|, nowMs))]
  }

  ghost predicate Reaches(jobs: seq<Job>, workloadId: u64, chunkId: ChunkId) {
    var i := workloadId - FIRST_WORKLOAD_ID;
    0 <= i < |jobs| && Known(jobs[i], chunkId)
  }

  ghost function AfterReport(jobs: seq<Job>, workloadId: u64, report: Report): seq<Job> {
    if !Reaches(jobs, workloadId, report.chunkId) then jobs else
      var i := workloadId - FIRST_WORKLOAD_ID;
      jobs[i := Reported(jobs[i], report)]
  }

  function AfterCancel(jobs: seq<Job>, workloadId: u64): seq<Job> {
    var i := workloadId - FIRST_WORKLOAD_ID;
    if 0 <= i < |jobs| then jobs[i := jobs[i].(state := Cancelled)] else jobs
  }

  function AfterCheck(jobs: seq<Job>, nowMs: u64): (r: seq<Job>)
    ensures |r| == |jobs| && forall i :: 0 <= i < |jobs| ==> r[i] == Judged(jobs[i], nowMs)
  {
    seq(|jobs|, i requires 0 <= i < |jobs| => Judged(jobs[i], nowMs))
  }

  class Context {
    const jobs: array<Job>
    var activeJobs: nat
    var nextWorkloadId: u64

    /** The invariant of every reachable context: workload ids are handed out once each, and no job
        is at a dead end. */
    ghost predicate Valid()
      reads this, jobs
    {
      && jobs.Length == MAX_ACTIVE_WORKLOADS && activeJobs <= MAX_ACTIVE_WORKLOADS
      && nextWorkloadId == FIRST_WORKLOAD_ID + activeJobs
      && Sound(Jobs())
    }

    ghost function Jobs(): seq<Job>
      requires activeJobs <= jobs.Length
      reads this, jobs
    {
      jobs[..activeJobs]
    }

    constructor ()
      ensures Valid() && Jobs() == [] && fresh(jobs)
    {
      jobs := new Job[MAX_ACTIVE_WORKLOADS](_ => Job(0, Submitted, 0, 0, [], [], 0.0, None));
      activeJobs := 0;
      nextWorkloadId := FIRST_WORKLOAD_ID;
    }

    method Submit(desc: WorkloadDesc, nowMs: u64) returns (id: u64)
      requires Valid()
      modifies this, jobs
      ensures Valid()
      ensures id == if !desc.isSplittable || old(activeJobs) == MAX_ACTIVE_WORKLOADS then 0 else old(nextWorkloadId)
      ensures Jobs() == AfterSubmit(old(Jobs()), desc, nowMs)
    {
      if !desc.isSplittable || activeJobs >= MAX_ACTIVE_WORKLOADS {
        return 0;
      }
      id := nextWorkloadId;
      SoundSubmit(Jobs(), desc, id, nowMs);
      var job := EvaluateReadyChunks(PlannedJob(desc, id, nowMs));
      Append(job);
    }

    /** The job takes the next slot and the next id is handed out. */
    method Append(job: Job)
      requires activeJobs < jobs.Length && nextWorkloadId < TWO_64 - 1
      modifies this, jobs
      ensures activeJobs == old(activeJobs) + 1 <= jobs.Length && nextWorkloadId == old(nextWorkloadId) + 1
      ensures Jobs() == old(Jobs()) + [job]
    {
      nextWorkloadId := nextWorkloadId + 1;
      jobs[activeJobs] := job;
      activeJobs := activeJobs + 1;
    }

    /** A report reaches exactly the job it names, and only that job changes. */
    method UpdateChunkResult(workloadId: u64, report: Report) returns (ok: bool)
      requires Valid()
      modifies jobs
      ensures Valid()
      ensures ok <==> Reaches(old(Jobs()), workloadId, report.chunkId)
      ensures Jobs() == AfterReport(old(Jobs()), workloadId, report)
    {
      var i := FindJob(workloadId);
      if i < 0 {
        return false;
      }
      ok := ReportAt(i, report);
    }

    /** The job with the id, or -1; no id is handed out twice, so the search ends with the first one. */
    method FindJob(workloadId: u64) returns (i: int)
      requires Valid()
      ensures i == if 0 <= workloadId - FIRST_WORKLOAD_ID < activeJobs then workloadId - FIRST_WORKLOAD_ID else -1
    {
      for k := 0 to activeJobs
        invariant FIRST_WORKLOAD_ID <= workloadId ==> FIRST_WORKLOAD_ID + k <= workloadId
      {
        SoundId(Jobs(), k);
        if jobs[k].workloadId == workloadId {
          return k;
        }
      }
      i := -1;
    }

    /** The report applied to job i, if it has the chunk. */
    method ReportAt(i: nat, report: Report) returns (found: bool)
      requires Valid() && i < activeJobs
      modifies jobs
      ensures Valid()
      ensures found <==> Known(old(Jobs())[i], report.chunkId)
      ensures Jobs() == if found then old(Jobs())[i := Reported(old(Jobs())[i], report)] else old(Jobs())
    {
      var job;
      found, job := ReportChunk(jobs[i], report);
      if found {
        SoundReport(Jobs(), i, report);
        jobs[i] := job;
        assert Jobs() == old(Jobs())[i := job];
      }
    }

    method Cancel(workloadId: u64) returns (ok: bool)
      requires Valid()
      modifies jobs
      ensures Valid()
      ensures ok <==> 0 <= workloadId - FIRST_WORKLOAD_ID < activeJobs
      ensures Jobs() == AfterCancel(old(Jobs()), workloadId)
    {
      var i := FindJob(workloadId);
      ok := i >= 0;
      if ok {
        SoundStatus(Jobs(), i, Cancelled);
        jobs[i] := jobs[i].(state := Cancelled);
        assert Jobs() == old(Jobs())[i := old(Jobs())[i].(state := Cancelled)];
      }
    }

    method CheckDeadlines(nowMs: u64)
      requires Valid()
      modifies jobs
      ensures Valid()
      ensures Jobs() == AfterCheck(old(Jobs()), nowMs)
    {
      for i := 0 to activeJobs
        invariant Valid()
        invariant forall k :: 0 <= k < i ==>
                    Jobs()[k] == Judged(old(Jobs())[k], nowMs)
        invariant forall k :: i <= k < activeJobs ==> Jobs()[k] == old(Jobs())[k]
      {
        if Expired(jobs[i], nowMs) {
          ghost var before := Jobs();
          SoundStatus(before, i, JobFailed);
          jobs[i] := jobs[i].(state := JobFailed);
          assert Jobs() == before[i := before[i].(state := JobFailed)];
        }
      }
    }
  }
}
