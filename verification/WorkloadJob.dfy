/** One job of the workload engine (master/src/workload.c): chunk states over a dependency graph,
    promotion of dependency-ready chunks and the job's progress. */
module WorkloadJob {
  import opened MachineInts
  import opened Options
  import opened PlanGraph
  import opened ResultHash

  datatype ChunkState = Pending | Ready | Running | Completed | Failed
  datatype JobState = Submitted | Planning | Executing | JobCompleted | JobFailed | Cancelled

  const CHECKSUM_CHARS: nat := 63

  datatype ManagedChunk = ManagedChunk(
    id: ChunkId,
    memoryDemandBytes: u64,
    cpuCoresDemand: u64,
    targetNode: u32,
    state: ChunkState,
    checksum: string)

  datatype Job = Job(
    workloadId: u64,
    state: JobState,
    startMs: u64,
    deadlineSeconds: u32,
    chunks: seq<ManagedChunk>,
    edges: seq<Edge>,
    progress: real,
    resultHash: Option<u64>)
  {
    function Graph(): (g: Graph)
      ensures |g.ids| == |chunks| && g.edges == edges
      ensures forall i :: 0 <= i < |chunks| ==> g.ids[i] == chunks[i].id
    {
      PlanGraph.Graph(seq(|chunks|, i requires 0 <= i < |chunks| => chunks[i].id), edges)
    }
  }

  // ----- Promotion of dependency-ready chunks -----

  /** The position the engine finds for an id: the first chunk from i on that carries it, or -1. */
  function IndexFrom(chunks: seq<ManagedChunk>, id: ChunkId, i: nat): (k: int)
    requires i <= |chunks|
    ensures k == -1 || i <= k < |chunks|
    ensures k >= 0 ==> chunks[k].id == id
    ensures forall m :: i <= m < (if k >= 0 then k else |chunks|) ==> chunks[m].id != id
    decreases |chunks| - i
  {
    if i == |chunks| then -1
    else if chunks[i].id == id then i
    else IndexFrom(chunks, id, i + 1)
  }

  function IndexOf(chunks: seq<ManagedChunk>, id: ChunkId): int {
    IndexFrom(chunks, id, 0)
  }

  /** The source of an edge holds nothing back: it is not in the job, or it is completed. */
  ghost predicate SourceDone(chunks: seq<ManagedChunk>, src: ChunkId) {
    var k := IndexOf(chunks, src);
    k < 0 || chunks[k].state == Completed
  }

  ghost predicate ParentsDone(job: Job, i: nat)
    requires i < |job.chunks|
  {
    forall e :: e in job.edges && e.dst == job.chunks[i].id ==> SourceDone(job.chunks, e.src)
  }

  ghost predicate Promotable(job: Job, i: nat)
    requires i < |job.chunks|
  {
    job.chunks[i].state == Pending && ParentsDone(job, i)
  }

  /** Every pending chunk whose parents are done becomes ready, all judged in the same state. */
  ghost function Promoted(job: Job): (r: Job)
    ensures |r.chunks| == |job.chunks| && r == job.(chunks := r.chunks)
    ensures forall i :: 0 <= i < |job.chunks| ==>
              r.chunks[i] == if Promotable(job, i) then job.chunks[i].(state := Ready) else job.chunks[i]
  {
    job.(chunks := seq(|job.chunks|, i requires 0 <= i < |job.chunks| =>
                         if Promotable(job, i) then job.chunks[i].(state := Ready) else job.chunks[i]))
  }

  method IsSourceDone(chunks: seq<ManagedChunk>, src: ChunkId) returns (done: bool)
    ensures done <==> SourceDone(chunks, src)
  {
    for k := 0 to |chunks|
      invariant forall m :: 0 <= m < k ==> chunks[m].id != src
    {
      if chunks[k].id == src {
        assert IndexOf(chunks, src) == k;
        return chunks[k].state == Completed;
      }
    }
    done := true;
  }

  method AreParentsDone(job: Job, i: nat) returns (done: bool)
    requires i < |job.chunks|
    ensures done <==> ParentsDone(job, i)
  {
    done := true;
    for j := 0 to |job.edges|
      invariant done
      invariant forall e :: e in job.edges[..j] && e.dst == job.chunks[i].id ==> SourceDone(job.chunks, e.src)
    {
      if job.edges[j].dst == job.chunks[i].id {
        done := IsSourceDone(job.chunks, job.edges[j].src);
        if !done {
          assert job.edges[j] in job.edges;
          return;
        }
      }
      assert job.edges[..j + 1] == job.edges[..j] + [job.edges[j]];
    }
    assert job.edges[..|job.edges|] == job.edges;
  }

  /** Promoting a prefix does not change what counts as done: no chunk becomes or stops being completed. */
  lemma PromotionKeepsDone(job: Job, partial: Job)
    requires partial == job.(chunks := partial.chunks) && |partial.chunks| == |job.chunks|
    requires forall k :: 0 <= k < |job.chunks| ==>
               partial.chunks[k].id == job.chunks[k].id &&
               (partial.chunks[k].state == Completed <==> job.chunks[k].state == Completed)
    ensures forall i :: 0 <= i < |job.chunks| ==> (ParentsDone(partial, i) <==> ParentsDone(job, i))
  {
    forall src ensures SourceDone(partial.chunks, src) <==> SourceDone(job.chunks, src) {
      assert IndexOf(partial.chunks, src) == IndexOf(job.chunks, src);
    }
  }

  /** out is job with the chunks before i promoted. */
  ghost predicate PromotedUpTo(job: Job, out: Job, i: nat) {
    && out == job.(chunks := out.chunks) && |out.chunks| == |job.chunks| && i <= |job.chunks|
    && (forall k :: 0 <= k < i ==> out.chunks[k] == Promoted(job).chunks[k])
    && (forall k :: i <= k < |job.chunks| ==> out.chunks[k] == job.chunks[k])
  }

  lemma PromoteNext(job: Job, out: Job, i: nat, done: bool, next: Job)
    requires PromotedUpTo(job, out, i) && i < |job.chunks|
    requires done == (out.chunks[i].state == Pending && ParentsDone(out, i))
    requires next == if done then out.(chunks := out.chunks[i := out.chunks[i].(state := Ready)]) else out
    ensures PromotedUpTo(job, next, i + 1)
  {
    PromotionKeepsDone(job, out);
    assert done == Promotable(job, i);
  }

  /** The source promotes chunk by chunk, in place; the result is the simultaneous promotion. */
  method EvaluateReadyChunks(job: Job) returns (out: Job)
    ensures out == Promoted(job)
  {
    out := job;
    for i := 0 to |job.chunks|
      invariant PromotedUpTo(job, out, i)
    {
      var done := false;
      if out.chunks[i].state == Pending {
        done := AreParentsDone(out, i);
      }
      ghost var before := out;
      if done {
        out := out.(chunks := out.chunks[i := out.chunks[i].(state := Ready)]);
      }
      PromoteNext(job, before, i, done, out);
    }
    assert out.chunks == Promoted(job).chunks;
  }

  // ----- Progress -----

  /** How many of the first n chunks are in state s. */
  function CountUpTo(chunks: seq<ManagedChunk>, s: ChunkState, n: nat): (count: nat)
    requires n <= |chunks|
    ensures count <= n
    ensures count == 0 <==> forall i :: 0 <= i < n ==> chunks[i].state != s
    ensures count == n <==> forall i :: 0 <= i < n ==> chunks[i].state == s
  {
    if n == 0 then 0 else CountUpTo(chunks, s, n - 1) + if chunks[n - 1].state == s then 1 else 0
  }

  function CountState(chunks: seq<ManagedChunk>, s: ChunkState): nat {
    CountUpTo(chunks, s, |chunks|)
  }

  function Checksums(chunks: seq<ManagedChunk>): (texts: seq<string>)
    ensures |texts| == |chunks| && forall i :: 0 <= i < |chunks| ==> texts[i] == chunks[i].checksum
  {
    seq(|chunks|, i requires 0 <= i < |chunks| => chunks[i].checksum)
  }

  ghost function Recalculated(job: Job): Job {
    var failed, completed := CountState(job.chunks, Failed) > 0, CountState(job.chunks, Completed);
    var finished := !failed && completed == |job.chunks|;
    job.(progress := if |job.chunks| > 0 then completed as real / |job.chunks| as real else 0.0,
         state := if failed then JobFailed else if finished then JobCompleted else job.state,
         resultHash := if finished then Some(Aggregate(Checksums(job.chunks))) else job.resultHash)
  }

  /** The hash over all checksums, character by character. */
  method AggregateHash(chunks: seq<ManagedChunk>) returns (h: u64)
    ensures h == Aggregate(Checksums(chunks))
  {
    h := BASIS;
    ghost var texts := Checksums(chunks);
    for i := 0 to |chunks|
      invariant h == HashTexts(texts, i)
    {
      var text := chunks[i].checksum;
      ghost var before := h;
      for p := 0 to |text|
        invariant h == HashText(before, text, p)
      {
        h := HashChar(h, text[p]);
      }
    }
  }

  method RecalculateJobProgress(job: Job) returns (out: Job)
    ensures out == Recalculated(job)
  {
    var completed, failed := 0, 0;
    for i := 0 to |job.chunks|
      invariant completed == CountUpTo(job.chunks, Completed, i)
      invariant failed == CountUpTo(job.chunks, Failed, i)
    {
      if job.chunks[i].state == Completed { completed := completed + 1; }
      if job.chunks[i].state == Failed { failed := failed + 1; }
    }
    out := job.(progress := if |job.chunks| > 0 then completed as real / |job.chunks| as real else 0.0);
    if failed > 0 {
      out := out.(state := JobFailed);
    } else if completed == |job.chunks| {
      var h := AggregateHash(job.chunks);
      out := out.(state := JobCompleted, resultHash := Some(h));
    }
  }

  // ----- Chunk reports -----

  datatype Report = Report(chunkId: ChunkId, result: ChunkState, checksum: Option<string>)

  function StoredChecksum(current: string, report: Option<string>): string {
    match report
    case None => current
    case Some(text) => if |text| <= CHECKSUM_CHARS then text else text[..CHECKSUM_CHARS]
  }

  /** The chunk at position c takes the reported state. */
  function Marked(job: Job, c: nat, report: Report): Job
    requires c < |job.chunks|
  {
    job.(chunks := job.chunks[c := job.chunks[c].(state := report.result,
                                                  checksum := StoredChecksum(job.chunks[c].checksum, report.checksum))])
  }

  ghost predicate Known(job: Job, id: ChunkId) {
    IndexOf(job.chunks, id) >= 0
  }

  /** The effect of one chunk report on its job. */
  ghost function Reported(job: Job, report: Report): Job {
    if Known(job, report.chunkId) then
      Recalculated(Promoted(Marked(job, IndexOf(job.chunks, report.chunkId), report)))
    else job
  }

  /** The states a job goes through, from submission on, as the reports arrive. */
  ghost predicate IsRun(job: Job, reports: seq<Report>, trace: seq<Job>) {
    && |trace| == |reports| + 1
    && trace[0] == Promoted(job)
    && forall t :: 0 <= t < |reports| ==> RunStep(reports, trace, t)
  }

  ghost predicate RunStep(reports: seq<Report>, trace: seq<Job>, t: int)
    requires 0 <= t < |reports| && |trace| == |reports| + 1
  {
    trace[t + 1] == Reported(trace[t], reports[t])
  }

  method ReportChunk(job: Job, report: Report) returns (found: bool, out: Job)
    ensures found <==> Known(job, report.chunkId)
    ensures out == Reported(job, report)
  {
    for c := 0 to |job.chunks|
      invariant forall m :: 0 <= m < c ==> job.chunks[m].id != report.chunkId
    {
      if job.chunks[c].id == report.chunkId {
        assert IndexOf(job.chunks, report.chunkId) == c;
        var marked := Marked(job, c, report);
        var promoted := EvaluateReadyChunks(marked);
        out := RecalculateJobProgress(promoted);
        return true, out;
      }
    }
    return false, job;
  }
}
