/** What the workload engine's table of jobs remembers of the calls made (master/src/workload.c): deadlines
    against submission times, checksums against reports, and progress against completions. */
module WorkloadHistory {
  import opened MachineInts
  import opened Options
  import opened Counting
  import opened PlanGraph
  import opened WorkloadJob
  import opened WorkloadTheorems
  import opened WorkloadContext

  // ----- What a submission plans -----

  /** The job a submission leaves: executing since the given time under the given deadline, over a chain of
      three chunks that share the input and sit on the hinted node. */
  lemma PlannedContents(desc: WorkloadDesc, workloadId: u64, nowMs: u64)
    ensures var job := PlannedJob(desc, workloadId, nowMs);
            && job.workloadId == workloadId && job.state == Executing && job.startMs == nowMs
            && job.deadlineSeconds == desc.deadlineSeconds && job.progress == 0.0 && job.resultHash == None
            && |job.chunks| == 3
            && job.edges == [Edge(job.chunks[0].id, job.chunks[1].id), Edge(job.chunks[1].id, job.chunks[2].id)]
            && forall i :: 0 <= i < 3 ==>
                 && job.chunks[i].id == 65536 * (workloadId % 0x1_0000_0000_0000) + i
                 && job.chunks[i].state == Pending && job.chunks[i].checksum == ""
                 && desc.totalSizeBytes - 3 < 3 * job.chunks[i].memoryDemandBytes <= desc.totalSizeBytes
                 && job.chunks[i].cpuCoresDemand == desc.intensity && job.chunks[i].targetNode == desc.dataNode
  {
    ShiftedDown(workloadId, 0);
    ShiftedDown(workloadId, 1);
    ShiftedDown(workloadId, 2);
  }

  /** Chunks share an id exactly when they have the same index and their workloads' ids agree in the low 48
      bits; so chunks of the workloads the engine can hold never do. */
  lemma PlannedIdsDiffer(a: u64, i: nat, b: u64, j: nat)
    requires i < 3 && j < 3
    ensures PlannedId(a, i) == PlannedId(b, j) <==> a % 0x1_0000_0000_0000 == b % 0x1_0000_0000_0000 && i == j
  {
    ShiftedDown(a, i);
    ShiftedDown(b, j);
  }

  lemma ShiftedDown(a: u64, i: nat)
    requires i < 3
    ensures PlannedId(a, i) == 0x1_0000 * (a % 0x1_0000_0000_0000) + i
  {
    var high, low := a / 0x1_0000_0000_0000, a % 0x1_0000_0000_0000;
    assert a * 0x1_0000 == high * TWO_64 + low * 0x1_0000;
  }

  // ----- Which job a call reaches -----

  /** A workload is taken on exactly when it can be split and fewer than 32 are there; the jobs before it
      stay as they are. */
  lemma SubmittedIff(jobs: seq<Job>, desc: WorkloadDesc, nowMs: u64)
    requires |jobs| <= MAX_ACTIVE_WORKLOADS
    ensures var after := AfterSubmit(jobs, desc, nowMs);
            && |after| == (if desc.isSplittable && |jobs| < 32 then |jobs| + 1 else |jobs|)
            && after[..|jobs|] == jobs
  {
  }

  /** The jobs carry the ids 1001, 1002, ... in order, as in every reachable table. */
  ghost predicate Numbered(jobs: seq<Job>) {
    forall k :: 0 <= k < |jobs| ==> jobs[k].workloadId == 1001 + k
  }

  lemma SoundIsNumbered(jobs: seq<Job>)
    requires Sound(jobs)
    ensures Numbered(jobs)
  {
    forall k | 0 <= k < |jobs| ensures jobs[k].workloadId == 1001 + k {
      SoundId(jobs, k);
    }
  }

  /** A report reaches exactly the job that carries the id ... */
  lemma ReportReachesItsJob(jobs: seq<Job>, workloadId: u64, report: Report, i: nat)
    requires Numbered(jobs) && i < |jobs|
    ensures |AfterReport(jobs, workloadId, report)| == |jobs|
    ensures AfterReport(jobs, workloadId, report)[i]
         == if jobs[i].workloadId == workloadId then Reported(jobs[i], report) else jobs[i]
  {
    var k := workloadId - 1001;
    if 0 <= k < |jobs| {
      ReportAt(jobs, workloadId, k, report, Reported(jobs[k], report));
    }
  }

  lemma ReportAt(jobs: seq<Job>, workloadId: u64, k: nat, report: Report, next: Job)
    requires workloadId == 1001 + k && k < |jobs| && next == Reported(jobs[k], report)
    ensures AfterReport(jobs, workloadId, report) == jobs[k := next]
  {
    WriteBack(jobs, k);
  }

  lemma WriteBack<T>(s: seq<T>, k: nat)
    requires k < |s|
    ensures s[k := s[k]] == s
  {
  }

  /** ... and so does a cancellation. */
  lemma CancelReachesItsJob(jobs: seq<Job>, workloadId: u64, i: nat)
    requires Numbered(jobs) && i < |jobs|
    ensures |AfterCancel(jobs, workloadId)| == |jobs|
    ensures AfterCancel(jobs, workloadId)[i]
         == if jobs[i].workloadId == workloadId then jobs[i].(state := Cancelled) else jobs[i]
  {
  }

  /** A report is accepted exactly when some job carries the workload id and has a chunk with the chunk id. */
  lemma AcceptedIff(jobs: seq<Job>, workloadId: u64, chunkId: ChunkId)
    requires Numbered(jobs)
    ensures Reaches(jobs, workloadId, chunkId) <==>
            exists i, c :: 0 <= i < |jobs| && 0 <= c < |jobs[i].chunks|
                           && jobs[i].workloadId == workloadId && jobs[i].chunks[c].id == chunkId
  {
    var i := workloadId - 1001;
    if Reaches(jobs, workloadId, chunkId) {
      assert jobs[i].chunks[IndexOf(jobs[i].chunks, chunkId)].id == chunkId;
    }
  }

  /** A deadline check changes only the status of executing jobs whose time is over. */
  lemma CheckedJobs(jobs: seq<Job>, nowMs: u64, i: nat)
    requires i < |jobs|
    ensures AfterCheck(jobs, nowMs)[i]
         == if jobs[i].state == Executing && (nowMs - jobs[i].startMs) % TWO_64 >= 1000 * jobs[i].deadlineSeconds
            then jobs[i].(state := JobFailed) else jobs[i]
  {
    ElapsedMeans(nowMs, jobs[i].startMs, jobs[i].deadlineSeconds);
  }

  // ----- Runs of calls on the table -----

  datatype Op =
    | SubmitOp(desc: WorkloadDesc, nowMs: u64)
    | ReportOp(workloadId: u64, report: Report)
    | CancelOp(workloadId: u64)
    | CheckOp(nowMs: u64)

  ghost function Step(jobs: seq<Job>, op: Op): seq<Job>
    requires |jobs| <= MAX_ACTIVE_WORKLOADS
  {
    match op
    case SubmitOp(desc, now) => AfterSubmit(jobs, desc, now)
    case ReportOp(id, report) => AfterReport(jobs, id, report)
    case CancelOp(id) => AfterCancel(jobs, id)
    case CheckOp(now) => AfterCheck(jobs, now)
  }

  ghost predicate RunStep(ops: seq<Op>, trace: seq<seq<Job>>, t: int)
    requires 0 <= t < |ops| && |trace| == |ops| + 1
  {
    |trace[t]| <= MAX_ACTIVE_WORKLOADS && trace[t + 1] == Step(trace[t], ops[t])
  }

  /** The table of jobs through a run of calls, from the empty one. */
  ghost predicate IsTableRun(ops: seq<Op>, trace: seq<seq<Job>>) {
    && |trace| == |ops| + 1 && trace[0] == []
    && forall t :: 0 <= t < |ops| ==> RunStep(ops, trace, t)
  }

  /** Call u submits the job at place i. */
  ghost predicate Submits(ops: seq<Op>, trace: seq<seq<Job>>, u: int, i: nat)
    requires |trace| == |ops| + 1
  {
    0 <= u < |ops| && ops[u].SubmitOp? && |trace[u]| == i && |trace[u + 1]| == i + 1
  }

  /** Call v is a report or a cancellation that names the job at place i. */
  predicate Names(op: Op, i: nat) {
    match op
    case ReportOp(id, _) => id == 1001 + i
    case CancelOp(id) => id == 1001 + i
    case _ => false
  }

  /** No call between u and t is one. */
  ghost predicate Undisturbed(ops: seq<Op>, u: int, t: int, i: nat)
    requires 0 <= u && t <= |ops|
  {
    forall v :: u < v < t ==> !Names(ops[v], i)
  }

  /** Call v checks the deadlines when the job's time is over. */
  predicate CallsTime(op: Op, startMs: u64, deadlineSeconds: u32) {
    op.CheckOp? && (op.nowMs - startMs) % TWO_64 >= 1000 * deadlineSeconds
  }

  lemma ElapsedMeans(nowMs: u64, startMs: u64, d: u32)
    ensures ElapsedSeconds(nowMs, startMs) >= d <==> (nowMs - startMs) % TWO_64 >= 1000 * d
  {
  }

  /** Some call between u and t calls the job's time. */
  ghost predicate TimeCalled(ops: seq<Op>, u: int, t: int, startMs: u64, d: u32)
    requires t <= |ops|
  {
    exists v :: 0 <= v && u < v < t && CallsTime(ops[v], startMs, d)
  }

  /** The job at place i as its submission and the deadline checks leave it. */
  ghost predicate OnSchedule(ops: seq<Op>, jobs: seq<Job>, u: int, t: nat, i: nat)
    requires t <= |ops| && 0 <= u < |ops| && ops[u].SubmitOp?
  {
    && i < |jobs| && jobs[i].startMs == ops[u].nowMs && jobs[i].deadlineSeconds == ops[u].desc.deadlineSeconds
    && jobs[i].state == if TimeCalled(ops, u, t, ops[u].nowMs, ops[u].desc.deadlineSeconds) then JobFailed
                        else Executing
  }

  lemma StepOnSchedule(ops: seq<Op>, jobs: seq<Job>, u: int, t: nat, i: nat, after: seq<Job>)
    requires t < |ops| && 0 <= u < t && ops[u].SubmitOp? && OnSchedule(ops, jobs, u, t, i)
    requires |jobs| <= MAX_ACTIVE_WORKLOADS && after == Step(jobs, ops[t]) && !Names(ops[t], i)
    ensures OnSchedule(ops, after, u, t + 1, i)
  {
    var start, d := ops[u].nowMs, ops[u].desc.deadlineSeconds;
    assert TimeCalled(ops, u, t + 1, start, d) <==> TimeCalled(ops, u, t, start, d) || CallsTime(ops[t], start, d);
    if ops[t].CheckOp? {
      ElapsedMeans(ops[t].nowMs, start, d);
    }
  }

  lemma SubmittedOnSchedule(ops: seq<Op>, trace: seq<seq<Job>>, u: nat, i: nat)
    requires IsTableRun(ops, trace) && Submits(ops, trace, u, i)
    ensures OnSchedule(ops, trace[u + 1], u, u + 1, i)
  {
    assert RunStep(ops, trace, u);
  }

  /** In every run, a job that is neither reported on nor cancelled is failed if and only if its deadlines
      were checked at a time at which at least its deadline had passed since its submission; until then
      it is executing. */
  lemma {:induction false} DeadlineDecides(ops: seq<Op>, trace: seq<seq<Job>>, u: nat, t: nat, i: nat)
    requires IsTableRun(ops, trace) && Submits(ops, trace, u, i) && u < t < |trace| && Undisturbed(ops, u, t, i)
    ensures OnSchedule(ops, trace[t], u, t, i)
    decreases t
  {
    if t == u + 1 {
      SubmittedOnSchedule(ops, trace, u, i);
    } else {
      assert Undisturbed(ops, u, t - 1, i) && !Names(ops[t - 1], i);
      DeadlineDecides(ops, trace, u, t - 1, i);
      assert RunStep(ops, trace, t - 1);
      StepOnSchedule(ops, trace[t - 1], u, t - 1, i, trace[t]);
    }
  }

  /** The two calls alone: submitted at startMs and judged at nowMs. */
  lemma SubmitThenCheck(jobs: seq<Job>, desc: WorkloadDesc, startMs: u64, nowMs: u64)
    requires desc.isSplittable && |jobs| < MAX_ACTIVE_WORKLOADS && startMs <= nowMs
    ensures var after := AfterCheck(AfterSubmit(jobs, desc, startMs), nowMs);
            && |after| == |jobs| + 1
            && after[|jobs|].state == if nowMs - startMs >= 1000 * desc.deadlineSeconds then JobFailed else Executing
  {
    var table := AfterSubmit(jobs, desc, startMs);
    SubmittedLast(jobs, desc, startMs, table);
    CheckedJobs(table, nowMs, |jobs|);
  }

  lemma SubmittedLast(jobs: seq<Job>, desc: WorkloadDesc, nowMs: u64, table: seq<Job>)
    requires desc.isSplittable && |jobs| < MAX_ACTIVE_WORKLOADS && table == AfterSubmit(jobs, desc, nowMs)
    ensures |table| == |jobs| + 1 && table[|jobs|].state == Executing && table[|jobs|].startMs == nowMs
    ensures table[|jobs|].deadlineSeconds == desc.deadlineSeconds
  {
  }

  // ----- Checksums -----

  /** The last checksum reported for the id in the first t reports, as 63 characters hold it, or the
      one before all reports. */
  function LastChecksum(reports: seq<Report>, id: ChunkId, t: nat, before: string): string
    requires t <= |reports|
  {
    if t == 0 then before
    else if reports[t - 1].chunkId == id && reports[t - 1].checksum.Some? then
      var text := reports[t - 1].checksum.value;
      if |text| <= 63 then text else text[..63]
    else LastChecksum(reports, id, t - 1, before)
  }

  lemma ReportChecksum(s: Job, report: Report, c: nat, after: Job)
    requires c < |s.chunks| && IsFirst(s, c) && after == Reported(s, report)
    ensures after.chunks[c].checksum == LastChecksum([report], s.chunks[c].id, 1, s.chunks[c].checksum)
  {
    FirstIsFound(s, c);
    if Known(s, report.chunkId) {
      var marked := Marked(s, IndexOf(s.chunks, report.chunkId), report);
      assert after.chunks[c].checksum == marked.chunks[c].checksum;
    }
  }

  /** In every run the chunk that reports reach holds the last checksum reported for it; a report without
      one keeps it. */
  lemma {:induction false} ChecksumsFollowReports(job: Job, reports: seq<Report>, trace: seq<Job>, t: nat, c: nat)
    requires IsRun(job, reports, trace) && t < |trace| && c < |job.chunks| && IsFirst(job, c)
    ensures c < |trace[t].chunks|
    ensures trace[t].chunks[c].checksum == LastChecksum(reports, job.chunks[c].id, t, job.chunks[c].checksum)
    decreases t
  {
    if t > 0 {
      ChecksumsFollowReports(job, reports, trace, t - 1, c);
      RunKeepsGraph(job, reports, trace, t - 1);
      SameFirsts(job, trace[t - 1], c);
      assert WorkloadJob.RunStep(reports, trace, t - 1);
      ReportChecksum(trace[t - 1], reports[t - 1], c, trace[t]);
    }
  }

  // ----- Progress -----

  /** The places of the chunks in a state, among the first n. */
  ghost function Places(chunks: seq<ManagedChunk>, s: ChunkState, n: nat): (r: set<nat>)
    requires n <= |chunks|
    ensures forall i :: i in r ==> i < n
  {
    if n == 0 then {} else Places(chunks, s, n - 1) + if chunks[n - 1].state == s then {n - 1} else {}
  }

  lemma {:induction false} PlacesAre(chunks: seq<ManagedChunk>, s: ChunkState, n: nat, i: nat)
    requires n <= |chunks|
    ensures i in Places(chunks, s, n) <==> i < n && chunks[i].state == s
    decreases n
  {
    if n > 0 {
      PlacesAre(chunks, s, n - 1, i);
    }
  }

  lemma CountNext(chunks: seq<ManagedChunk>, s: ChunkState, n: nat)
    requires n < |chunks|
    ensures CountUpTo(chunks, s, n + 1) == CountUpTo(chunks, s, n) + if chunks[n].state == s then 1 else 0
  {
  }

  lemma PlacesNext(chunks: seq<ManagedChunk>, s: ChunkState, n: nat)
    requires n < |chunks|
    ensures |Places(chunks, s, n + 1)| == |Places(chunks, s, n)| + if chunks[n].state == s then 1 else 0
  {
  }

  lemma SizeNext(chunks: seq<ManagedChunk>, s: ChunkState, n: nat, size: nat, next: nat)
    requires n < |chunks| && CountUpTo(chunks, s, n) == size && |Places(chunks, s, n)| == size && next == n + 1
    ensures CountUpTo(chunks, s, next) == |Places(chunks, s, next)|
  {
    CountNext(chunks, s, n);
    PlacesNext(chunks, s, n);
  }

  /** The count is the number of chunks in that state. */
  lemma {:induction false} CountIsSize(chunks: seq<ManagedChunk>, s: ChunkState, n: nat)
    requires n <= |chunks|
    ensures CountUpTo(chunks, s, n) == |Places(chunks, s, n)|
    decreases n
  {
    if n == 0 {
      assert Places(chunks, s, n) == {};
    } else {
      var m := n - 1;
      CountIsSize(chunks, s, m);
      SizeNext(chunks, s, m, CountUpTo(chunks, s, m), n);
    }
  }

  /** So many out of all. */
  function Fraction(count: nat, all: nat): real { if all == 0 then 0.0 else count as real / all as real }

  lemma RecalculatedProgress(job: Job, after: Job)
    requires after == Recalculated(job)
    ensures after.chunks == job.chunks && after.progress == Fraction(CountState(job.chunks, Completed), |job.chunks|)
  {
  }

  lemma ReportProgress(s: Job, report: Report, after: Job)
    requires Known(s, report.chunkId) && after == Reported(s, report)
    ensures |after.chunks| == |s.chunks| && after.progress == Fraction(CountState(after.chunks, Completed), |s.chunks|)
  {
    RecalculatedProgress(Promoted(Marked(s, IndexOf(s.chunks, report.chunkId), report)), after);
  }

  /** After every report on a chunk of the job, the progress is the share of its chunks that are completed. */
  lemma ProgressIsShare(job: Job, report: Report, after: Job)
    requires Known(job, report.chunkId) && after == Reported(job, report)
    ensures after.progress == Fraction(|Places(after.chunks, Completed, |after.chunks|)|, |after.chunks|)
  {
    ReportProgress(job, report, after);
    CountIsSize(after.chunks, Completed, |after.chunks|);
  }

  lemma ShapedSize(job: Job, order: seq<nat>, s: Job)
    requires Shaped(job, order, s) && Distinct(order) && forall t :: 0 <= t < |order| ==> order[t] < |job.chunks|
    ensures CountState(s.chunks, Completed) == |order|
  {
    CountIsSize(s.chunks, Completed, |s.chunks|);
    DistinctSize(order);
    forall i: nat ensures i in Places(s.chunks, Completed, |s.chunks|) <==> i in order {
      PlacesAre(s.chunks, Completed, |s.chunks|, i);
      assert i < |job.chunks| ==> s.chunks[i].state == ShapedState(job, order, i);
    }
    assert Places(s.chunks, Completed, |s.chunks|) == Elements(order);
  }

  /** While ready chunks are completed one after another, the progress after t of them is t out of all. */
  lemma RunProgress(job: Job, order: seq<nat>, trace: seq<Job>, t: nat)
    requires Distinct(job.Graph().ids) && Unstarted(job) && CompletionRun(job, order, trace) && 0 < t <= |order|
    ensures trace[t].progress == Fraction(t, |job.chunks|)
  {
    RunShaped(job, order, trace, t);
    RunShaped(job, order, trace, t - 1);
    RunLength(job, order, trace);
    assert CompletionStep(job, order, trace, t - 1);
    OwnIndex(job, trace[t - 1], order[t - 1]);
    ShapedSize(job, order[..t], trace[t]);
    ReportProgress(trace[t - 1], Completion(job, order[t - 1]), trace[t]);
  }
}
