/** What the workload engine promises about a job: it never gets stuck on a graph the topology
    check accepts (and on such graphs only), it respects dependencies, and completing ready chunks
    finishes it. */
module WorkloadTheorems {
  import opened Options
  import opened Counting
  import opened PlanGraph
  import opened WorkloadJob

  // ----- The edges the engine sees -----

  /** k is the parent that edge e gives to chunk j. */
  ghost predicate Feeds(job: Job, e: Edge, k: int, j: int) {
    e in job.edges && 0 <= j < |job.chunks| && job.chunks[j].id == e.dst && 0 <= k == IndexOf(job.chunks, e.src)
  }

  /** Parents that are in the job rank strictly below their children. */
  ghost predicate Ordered(job: Job, rank: seq<nat>) {
    && |rank| == |job.chunks|
    && forall e, k, j :: Feeds(job, e, k, j) ==> rank[k] < rank[j]
  }

  ghost predicate Orderable(job: Job) {
    exists rank :: Ordered(job, rank)
  }

  /** Every edge into a chunk of the job has its source in the job. */
  ghost predicate Closed(job: Job) {
    forall e :: e in job.edges && Known(job, e.dst) ==> Known(job, e.src)
  }

  /** For distinct ids, what the topology check accepts is what the engine can order, once all
      edges stay inside the job. */
  lemma RankableIffOrderable(job: Job)
    requires Distinct(job.Graph().ids)
    ensures Rankable(job.Graph()) <==> Closed(job) && Orderable(job)
  {
    var g := job.Graph();
    if Rankable(g) {
      var rank :| IsRanking(g, rank);
      RankingOrders(job, rank);
    }
    if Closed(job) && Orderable(job) {
      var rank :| Ordered(job, rank);
      OrderRanks(job, rank);
    }
  }

  lemma RankingOrders(job: Job, rank: seq<nat>)
    requires Distinct(job.Graph().ids) && IsRanking(job.Graph(), rank)
    ensures Ordered(job, rank) && Closed(job)
  {
    var g := job.Graph();
    forall e, k, j | Feeds(job, e, k, j) ensures rank[k] < rank[j] {
      assert g.ids[j] == e.dst;
      var p: nat :| Below(g, rank, e, p, j);
      assert g.ids[p] == g.ids[k];
    }
    forall e | e in job.edges && Known(job, e.dst) ensures Known(job, e.src) {
      var j := IndexOf(job.chunks, e.dst);
      assert g.ids[j] == e.dst;
      var p: nat :| Below(g, rank, e, p, j);
      assert job.chunks[p].id == e.src;
    }
  }

  lemma OrderRanks(job: Job, rank: seq<nat>)
    requires Ordered(job, rank) && Closed(job)
    ensures IsRanking(job.Graph(), rank)
  {
    var g := job.Graph();
    forall e, j | e in g.edges && 0 <= j < |g.ids| && g.ids[j] == e.dst ensures exists k :: Below(g, rank, e, k, j) {
      assert job.chunks[j].id == e.dst;
      var k := IndexOf(job.chunks, e.src);
      assert Feeds(job, e, k, j);
      assert Below(g, rank, e, k, j);
    }
  }

  // ----- Reports keep the graph -----

  /** b is a with other chunk states (and job status). */
  ghost predicate SameGraph(a: Job, b: Job) {
    && |a.chunks| == |b.chunks| && a.edges == b.edges && a.workloadId == b.workloadId
    && forall i :: 0 <= i < |a.chunks| ==> a.chunks[i].id == b.chunks[i].id
  }

  lemma ReportKeepsGraph(job: Job, report: Report)
    ensures SameGraph(job, Reported(job, report))
  {
  }

  lemma {:induction false} RunKeepsGraph(job: Job, reports: seq<Report>, trace: seq<Job>, t: nat)
    requires IsRun(job, reports, trace) && t < |trace|
    ensures SameGraph(job, trace[t])
    decreases t
  {
    if t > 0 {
      RunKeepsGraph(job, reports, trace, t - 1);
      assert RunStep(reports, trace, t - 1);
      ReportKeepsGraph(trace[t - 1], reports[t - 1]);
    }
  }

  lemma SameGraphSameFacts(a: Job, b: Job)
    requires SameGraph(a, b)
    ensures a.Graph() == b.Graph()
    ensures Orderable(a) ==> Orderable(b)
    ensures forall id :: IndexOf(a.chunks, id) == IndexOf(b.chunks, id)
    ensures forall e, k, j :: Feeds(a, e, k, j) <==> Feeds(b, e, k, j)
  {
    assert a.Graph().ids == b.Graph().ids;
    if Orderable(a) {
      var rank :| Ordered(a, rank);
      assert forall e, k, j :: Feeds(b, e, k, j) ==> Feeds(a, e, k, j);
      assert Ordered(b, rank);
    }
  }

  // ----- No deadlock -----

  /** No chunk can be handed out, is being worked on or has failed, and yet the job is unfinished. */
  ghost predicate Stuck(job: Job) {
    && (forall i :: 0 <= i < |job.chunks| ==> job.chunks[i].state == Pending || job.chunks[i].state == Completed)
    && (exists i :: 0 <= i < |job.chunks| && job.chunks[i].state != Completed)
  }

  /** Following unfinished parents downwards in rank cannot go on forever. */
  lemma {:induction false} PendingDescends(job: Job, rank: seq<nat>, i: nat)
    requires Ordered(job, rank)
    requires i < |job.chunks| && job.chunks[i].state == Pending
    requires forall k :: 0 <= k < |job.chunks| ==> job.chunks[k].state == Pending || job.chunks[k].state == Completed
    ensures exists k :: 0 <= k < |job.chunks| && Promotable(job, k)
    decreases rank[i]
  {
    if !ParentsDone(job, i) {
      var e :| e in job.edges && e.dst == job.chunks[i].id && !SourceDone(job.chunks, e.src);
      var k := IndexOf(job.chunks, e.src);
      assert Feeds(job, e, k, i);
      PendingDescends(job, rank, k);
    } else {
      assert Promotable(job, i);
    }
  }

  /** After promotion an orderable job is never stuck, whatever its chunk states were. */
  lemma PromotedNotStuck(job: Job)
    requires Orderable(job)
    ensures !Stuck(Promoted(job))
  {
    var p := Promoted(job);
    if Stuck(p) {
      var rank :| Ordered(job, rank);
      var i: nat :| i < |p.chunks| && p.chunks[i].state != Completed;
      forall k | 0 <= k < |job.chunks| ensures p.chunks[k] == job.chunks[k] {
        assert p.chunks[k].state == Pending || p.chunks[k].state == Completed;
      }
      PendingDescends(job, rank, i);
      assert false;
    }
  }

  /** In every run of reports whatsoever (any chunk, any state, known or not), from whatever chunk
      states, a job whose edges can be ordered is never stuck. */

  lemma {:induction false} OrderableNeverStuck(job: Job, reports: seq<Report>, trace: seq<Job>, t: nat)
    requires Orderable(job)
    requires IsRun(job, reports, trace) && t < |trace|
    ensures !Stuck(trace[t])
    decreases t
  {
    if t == 0 {
      PromotedNotStuck(job);
    } else {
      OrderableNeverStuck(job, reports, trace, t - 1);
      RunKeepsGraph(job, reports, trace, t - 1);
      SameGraphSameFacts(job, trace[t - 1]);
      assert RunStep(reports, trace, t - 1);
      ReportNotStuck(trace[t - 1], reports[t - 1]);
    }
  }

  lemma ReportNotStuck(job: Job, report: Report)
    requires Orderable(job) && !Stuck(job)
    ensures !Stuck(Reported(job, report))
  {
    if Known(job, report.chunkId) {
      var marked := Marked(job, IndexOf(job.chunks, report.chunkId), report);
      SameGraphSameFacts(job, marked);
      PromotedNotStuck(marked);
    }
  }

  // ----- No deadlock on any graph the topology check accepts -----

  /** The chunk that reports on its id reach: no chunk before it carries the same id. */
  ghost predicate IsFirst(job: Job, i: int) {
    0 <= i < |job.chunks| && forall m :: 0 <= m < i ==> job.chunks[m].id != job.chunks[i].id
  }

  lemma FirstIsFound(job: Job, i: nat)
    requires i < |job.chunks|
    ensures IsFirst(job, i) <==> IndexOf(job.chunks, job.chunks[i].id) == i
  {
  }

  lemma FoundIsFirst(job: Job, id: ChunkId)
    requires Known(job, id)
    ensures IsFirst(job, IndexOf(job.chunks, id))
  {
  }

  lemma SameFirsts(a: Job, b: Job, i: int)
    requires SameGraph(a, b)
    ensures IsFirst(a, i) <==> IsFirst(b, i)
  {
  }

  /** Reports reach only the first chunk of an id, so no other one is ever completed. */
  ghost predicate FirstsOnly(job: Job) {
    forall i {:trigger IsFirst(job, i)} ::
      0 <= i < |job.chunks| && job.chunks[i].state == Completed ==> IsFirst(job, i)
  }

  lemma FirstsOnlyTransfers(a: Job, b: Job)
    requires FirstsOnly(a) && SameGraph(a, b)
    requires forall i :: 0 <= i < |a.chunks| && b.chunks[i].state == Completed ==> a.chunks[i].state == Completed
    ensures FirstsOnly(b)
  {
    forall i | 0 <= i < |b.chunks| && b.chunks[i].state == Completed ensures IsFirst(b, i) {
      SameFirsts(a, b, i);
    }
  }

  lemma MarkedFirstsOnly(job: Job, report: Report, marked: Job)
    requires FirstsOnly(job) && Known(job, report.chunkId)
    requires marked == Marked(job, IndexOf(job.chunks, report.chunkId), report)
    ensures FirstsOnly(marked) && SameGraph(job, marked)
  {
    var c := IndexOf(job.chunks, report.chunkId);
    FoundIsFirst(job, report.chunkId);
    forall i | 0 <= i < |marked.chunks| && marked.chunks[i].state == Completed ensures IsFirst(marked, i) {
      SameFirsts(job, marked, i);
      assert i == c || IsFirst(job, i);
    }
  }

  /** At every time of a run nothing is left to promote. */
  ghost predicate Quiet(s: Job) {
    FirstsOnly(s) && forall i {:trigger Promotable(s, i)} :: 0 <= i < |s.chunks| ==> !Promotable(s, i)
  }

  lemma PromotedIsQuiet(job: Job, promoted: Job)
    requires FirstsOnly(job) && promoted == Promoted(job)
    ensures Quiet(promoted)
  {
    FirstsOnlyTransfers(job, promoted);
    PromotionKeepsDone(job, promoted);
    forall i | 0 <= i < |job.chunks| ensures !Promotable(promoted, i) {
      assert ParentsDone(promoted, i) <==> ParentsDone(job, i);
    }
  }

  lemma QuietStatus(a: Job, b: Job)
    requires Quiet(a) && b == a.(state := b.state, progress := b.progress, resultHash := b.resultHash)
    ensures Quiet(b)
  {
    FirstsOnlyTransfers(a, b);
    forall i | 0 <= i < |b.chunks| ensures !Promotable(b, i) {
      assert !Promotable(a, i);
    }
  }

  lemma ReportIsQuiet(s: Job, report: Report, after: Job)
    requires Quiet(s) && after == Reported(s, report)
    ensures Quiet(after)
  {
    if Known(s, report.chunkId) {
      var marked := Marked(s, IndexOf(s.chunks, report.chunkId), report);
      MarkedFirstsOnly(s, report, marked);
      var promoted := Promoted(marked);
      PromotedIsQuiet(marked, promoted);
      QuietStatus(promoted, after);
    }
  }

  lemma UnstartedFirstsOnly(job: Job)
    requires Unstarted(job)
    ensures FirstsOnly(job)
  {
  }

  lemma {:induction false} RunIsQuiet(job: Job, reports: seq<Report>, trace: seq<Job>, t: nat)
    requires Unstarted(job) && IsRun(job, reports, trace) && t < |trace|
    ensures Quiet(trace[t])
    decreases t
  {
    if t == 0 {
      UnstartedFirstsOnly(job);
      PromotedIsQuiet(job, trace[0]);
    } else {
      RunIsQuiet(job, reports, trace, t - 1);
      assert RunStep(reports, trace, t - 1);
      ReportIsQuiet(trace[t - 1], reports[t - 1], trace[t]);
    }
  }

  /** All positions listed before place p are completed. */
  ghost predicate CompletedBefore(job: Job, order: seq<nat>, p: nat)
    requires Positions(job.Graph(), order) && p <= |order|
  {
    forall t :: 0 <= t < p ==> job.chunks[order[t]].state == Completed
  }

  /** Completed chunks have distinct ids, so each id is done at most once. */
  lemma {:induction false} CompletedDone(job: Job, order: seq<nat>, p: nat, id: ChunkId)
    requires Positions(job.Graph(), order) && p <= |order|
    requires FirstsOnly(job) && CompletedBefore(job, order, p)
    ensures Done(job.Graph(), order, p)[id] <= 1
    ensures id in Done(job.Graph(), order, p) ==> SourceDone(job.chunks, id) && IndexOf(job.chunks, id) in order[..p]
    decreases p
  {
    if p > 0 {
      CompletedDone(job, order, p - 1, id);
      DoneSnoc(job.Graph(), order, p - 1);
      assert order[..p] == order[..p - 1] + [order[p - 1]];
      var j := order[p - 1];
      assert job.chunks[j].state == Completed && IsFirst(job, j);
      FirstIsFound(job, j);
      assert j !in order[..p - 1];
    }
  }

  /** The first listed position that is not completed has its parents done. */
  lemma FrontierIsReady(job: Job, order: seq<nat>, p: nat)
    requires IsSupplyOrder(job.Graph(), order) && p < |order|
    requires FirstsOnly(job) && CompletedBefore(job, order, p)
    ensures ParentsDone(job, order[p])
  {
    var g := job.Graph();
    var done := Done(g, order, p);
    assert Supplied(g, order, p, order[p]);
    forall id ensures done[id] <= 1 {
      CompletedDone(job, order, p, id);
    }
    SuppliedIsCovered(g.edges, done, g.ids[order[p]]);
    forall e | e in job.edges && e.dst == job.chunks[order[p]].id ensures SourceDone(job.chunks, e.src) {
      assert e.src in done;
      CompletedDone(job, order, p, e.src);
    }
  }

  /** Where nothing can be promoted and every chunk is pending or completed, all listed are completed. */
  lemma {:induction false} AllListedCompleted(s: Job, order: seq<nat>, p: nat)
    requires IsSupplyOrder(s.Graph(), order) && p <= |order| && Quiet(s) && Stuck(s)
    ensures CompletedBefore(s, order, p)
    decreases p
  {
    if p > 0 {
      AllListedCompleted(s, order, p - 1);
      FrontierIsReady(s, order, p - 1);
      assert !Promotable(s, order[p - 1]);
    }
  }

  lemma CompletableNotStuck(s: Job)
    requires Completable(s.Graph()) && Quiet(s)
    ensures !Stuck(s)
  {
    if Stuck(s) {
      var order :| IsSupplyOrder(s.Graph(), order) && |order| == |s.Graph().ids|;
      AllListedCompleted(s, order, |order|);
      PositionsBound(s.Graph(), order);
      forall i | 0 <= i < |s.chunks| ensures s.chunks[i].state == Completed {
        assert i in order;
        var t :| 0 <= t < |order| && order[t] == i;
      }
    }
  }

  /** The topology check and the engine together: a job submitted over any graph the check accepts, with
      repeated ids or not, is never stuck in any run of reports whatsoever (about any chunk, with any
      state, known or not). */
  lemma AcceptedNeverStuck(job: Job, reports: seq<Report>, trace: seq<Job>, t: nat)
    requires Completable(job.Graph()) && Unstarted(job) && IsRun(job, reports, trace) && t < |trace|
    ensures !Stuck(trace[t])
  {
    RunKeepsGraph(job, reports, trace, t);
    SameGraphSameFacts(job, trace[t]);
    RunIsQuiet(job, reports, trace, t);
    CompletableNotStuck(trace[t]);
  }

  // ----- Dependency safety -----

  /** Whatever has left the pending state has all its parents completed. */
  ghost predicate DependencySafe(job: Job) {
    forall i :: 0 <= i < |job.chunks| && job.chunks[i].state != Pending ==> ParentsDone(job, i)
  }

  /** The report is about a chunk that was handed out and says how it went. */
  ghost predicate Truthful(job: Job, report: Report) {
    && Known(job, report.chunkId)
    && job.chunks[IndexOf(job.chunks, report.chunkId)].state in {Ready, Running}
    && report.result in {Running, Completed, Failed}
  }

  /** What b has done covers what a has done. */
  ghost predicate KeepsCompleted(a: Job, b: Job) {
    && SameGraph(a, b)
    && forall i :: 0 <= i < |a.chunks| && a.chunks[i].state == Completed ==> b.chunks[i].state == Completed
  }

  lemma DoneStaysDone(a: Job, b: Job, i: nat)
    requires KeepsCompleted(a, b) && i < |a.chunks| && ParentsDone(a, i)
    ensures ParentsDone(b, i)
  {
    SameGraphSameFacts(a, b);
    forall e | e in b.edges && e.dst == b.chunks[i].id ensures SourceDone(b.chunks, e.src) {
      assert SourceDone(a.chunks, e.src);
    }
  }

  lemma TruthfulKeepsCompleted(job: Job, report: Report, marked: Job, after: Job)
    requires Truthful(job, report) && after == Reported(job, report)
    requires marked == Marked(job, IndexOf(job.chunks, report.chunkId), report)
    ensures KeepsCompleted(job, after) && KeepsCompleted(marked, after)
  {
    var promoted := Promoted(marked);
    assert KeepsCompleted(job, marked) && KeepsCompleted(marked, promoted);
    assert after == promoted.(state := after.state, progress := after.progress, resultHash := after.resultHash);
  }

  lemma TruthfulKeepsSafe(job: Job, report: Report, after: Job)
    requires DependencySafe(job) && Truthful(job, report) && after == Reported(job, report)
    ensures DependencySafe(after) && KeepsCompleted(job, after)
  {
    var marked := Marked(job, IndexOf(job.chunks, report.chunkId), report);
    TruthfulKeepsCompleted(job, report, marked, after);
    forall i | 0 <= i < |after.chunks| && after.chunks[i].state != Pending ensures ParentsDone(after, i) {
      if job.chunks[i].state != Pending {
        DoneStaysDone(job, after, i);
      } else {
        assert Promotable(marked, i);
        DoneStaysDone(marked, after, i);
      }
    }
  }

  /** All chunks pending, as the planner leaves them. */
  ghost predicate Unstarted(job: Job) {
    forall i :: 0 <= i < |job.chunks| ==> job.chunks[i].state == Pending
  }

  lemma StartIsSafe(job: Job, start: Job)
    requires Unstarted(job) && start == Promoted(job)
    ensures DependencySafe(start)
  {
    PromotionKeepsDone(job, start);
  }

  ghost predicate TruthfulStep(reports: seq<Report>, trace: seq<Job>, t: int)
    requires 0 <= t < |reports| && |trace| == |reports| + 1
  {
    Truthful(trace[t], reports[t])
  }

  ghost predicate TruthfulRun(job: Job, reports: seq<Report>, trace: seq<Job>) {
    IsRun(job, reports, trace) && forall t :: 0 <= t < |reports| ==> TruthfulStep(reports, trace, t)
  }

  lemma TruthfulRunStep(job: Job, reports: seq<Report>, trace: seq<Job>, t: nat)
    requires TruthfulRun(job, reports, trace) && t < |reports| && DependencySafe(trace[t])
    ensures DependencySafe(trace[t + 1]) && KeepsCompleted(trace[t], trace[t + 1])
  {
    assert RunStep(reports, trace, t);
    assert TruthfulStep(reports, trace, t);
    TruthfulKeepsSafe(trace[t], reports[t], trace[t + 1]);
  }

  /** In every run of truthful reports, no chunk leaves the pending state before all its parents
      are completed ... */
  lemma {:induction false} TruthfulRunsAreSafe(job: Job, reports: seq<Report>, trace: seq<Job>, t: nat)
    requires Unstarted(job) && TruthfulRun(job, reports, trace) && t < |trace|
    ensures DependencySafe(trace[t])
    decreases t
  {
    if t == 0 {
      StartIsSafe(job, trace[0]);
    } else {
      TruthfulRunsAreSafe(job, reports, trace, t - 1);
      TruthfulRunStep(job, reports, trace, t - 1);
    }
  }

  /** ... and a completed chunk stays completed. */
  lemma {:induction false} CompletedStays(job: Job, reports: seq<Report>, trace: seq<Job>, t: nat, u: nat, i: nat)
    requires Unstarted(job) && TruthfulRun(job, reports, trace) && t <= u < |trace|
    requires i < |trace[t].chunks| && trace[t].chunks[i].state == Completed
    ensures i < |trace[u].chunks| && trace[u].chunks[i].state == Completed
    decreases u - t
  {
    if t < u {
      CompletedStays(job, reports, trace, t, u - 1, i);
      TruthfulRunsAreSafe(job, reports, trace, u - 1);
      TruthfulRunStep(job, reports, trace, u - 1);
    }
  }

  // ----- Exactly which reports keep dependencies safe -----

  /** The source of an edge is done once chunk c has taken the reported state. */
  ghost predicate DoneUnder(job: Job, c: int, result: ChunkState, src: ChunkId) {
    var k := IndexOf(job.chunks, src);
    k < 0 || (if k == c then result == Completed else job.chunks[k].state == Completed)
  }

  /** The reported chunk may be in the state it reports: pending, or all its parents are done. */
  ghost predicate MayReport(job: Job, c: int, result: ChunkState)
    requires 0 <= c < |job.chunks|
  {
    result == Pending
    || forall e :: e in job.edges && e.dst == job.chunks[c].id ==> DoneUnder(job, c, result, e.src)
  }

  /** No other chunk that has left the pending state depends on c. */
  ghost predicate NobodyRelies(job: Job, c: int) {
    forall e, i :: Feeds(job, e, c, i) && i != c ==> job.chunks[i].state == Pending
  }

  lemma MarkedSources(job: Job, c: nat, report: Report, marked: Job, src: ChunkId)
    requires c < |job.chunks| && marked == Marked(job, c, report)
    ensures SourceDone(marked.chunks, src) <==> DoneUnder(job, c, report.result, src)
  {
    SameGraphSameFacts(job, marked);
  }

  /** A chunk that was safe stays so exactly when it does not rely on the reported chunk, or that
      chunk is reported completed. */
  lemma OtherParents(job: Job, c: nat, report: Report, marked: Job, i: nat)
    requires c < |job.chunks| && marked == Marked(job, c, report) && i < |job.chunks| && ParentsDone(job, i)
    ensures ParentsDone(marked, i) <==> report.result == Completed || forall e :: !Feeds(job, e, c, i)
  {
    forall src ensures SourceDone(marked.chunks, src) <==> DoneUnder(job, c, report.result, src) {
      MarkedSources(job, c, report, marked, src);
    }
    if report.result == Completed || forall e :: !Feeds(job, e, c, i) {
      forall e | e in job.edges && e.dst == job.chunks[i].id ensures SourceDone(marked.chunks, e.src) {
        assert SourceDone(job.chunks, e.src);
        assert IndexOf(job.chunks, e.src) == c ==> Feeds(job, e, c, i);
      }
    } else {
      var e :| Feeds(job, e, c, i);
      assert !SourceDone(marked.chunks, e.src);
    }
  }

  lemma OwnParents(job: Job, c: nat, report: Report, marked: Job)
    requires c < |job.chunks| && marked == Marked(job, c, report) && report.result != Pending
    ensures ParentsDone(marked, c) <==> MayReport(job, c, report.result)
  {
    forall src ensures SourceDone(marked.chunks, src) <==> DoneUnder(job, c, report.result, src) {
      MarkedSources(job, c, report, marked, src);
    }
  }

  /** After the report the promoted chunks are safe by themselves; the others are judged as marked. */
  lemma SafeAsMarked(job: Job, c: nat, report: Report, marked: Job, after: Job)
    requires c == IndexOf(job.chunks, report.chunkId) && marked == Marked(job, c, report)
    requires after == Reported(job, report)
    ensures DependencySafe(after) <==> DependencySafe(marked)
  {
    var promoted := Promoted(marked);
    PromotionKeepsDone(marked, promoted);
    assert forall i :: 0 <= i < |job.chunks| ==> (ParentsDone(after, i) <==> ParentsDone(promoted, i));
    if DependencySafe(after) {
      forall i | 0 <= i < |job.chunks| && marked.chunks[i].state != Pending ensures ParentsDone(marked, i) {
        assert after.chunks[i].state != Pending;
      }
    }
  }

  /** The report is about no chunk of the job, or the reported chunk may be in the state it reports and,
      unless it is reported completed, no chunk relies on it. */
  ghost predicate SafeReport(job: Job, report: Report) {
    var c := IndexOf(job.chunks, report.chunkId);
    c < 0 || (MayReport(job, c, report.result) && (report.result == Completed || NobodyRelies(job, c)))
  }

  /** A single report of any kind keeps dependencies safe exactly when it is a safe one. */
  lemma ReportKeepsSafeIff(job: Job, report: Report)
    requires DependencySafe(job)
    ensures DependencySafe(Reported(job, report)) <==> SafeReport(job, report)
  {
    var c := IndexOf(job.chunks, report.chunkId);
    if c >= 0 {
      var marked := Marked(job, c, report);
      SafeAsMarked(job, c, report, marked, Reported(job, report));
      if report.result != Pending {
        OwnParents(job, c, report, marked);
      }
      forall i | 0 <= i < |job.chunks| && i != c && job.chunks[i].state != Pending
        ensures ParentsDone(marked, i) <==> report.result == Completed || forall e :: !Feeds(job, e, c, i)
      {
        OtherParents(job, c, report, marked, i);
      }
      MarkedSafeIff(job, c, report, marked);
    }
  }

  ghost predicate SafeAt(trace: seq<Job>, t: int)
    requires 0 <= t < |trace|
  {
    DependencySafe(trace[t])
  }

  ghost predicate SafeStep(reports: seq<Report>, trace: seq<Job>, t: int)
    requires 0 <= t < |reports| && |trace| == |reports| + 1
  {
    SafeReport(trace[t], reports[t])
  }

  /** A run of arbitrary reports is dependency-safe at all times exactly when all its reports are. */
  lemma {:induction false} RunSafeIff(job: Job, reports: seq<Report>, trace: seq<Job>, n: nat)
    requires Unstarted(job) && IsRun(job, reports, trace) && n <= |reports|
    ensures (forall t :: 0 <= t <= n ==> SafeAt(trace, t)) <==> (forall t :: 0 <= t < n ==> SafeStep(reports, trace, t))
    decreases n
  {
    if n == 0 {
      StartIsSafe(job, trace[0]);
    } else {
      RunSafeIff(job, reports, trace, n - 1);
      assert RunStep(reports, trace, n - 1);
      if SafeAt(trace, n - 1) {
        ReportKeepsSafeIff(trace[n - 1], reports[n - 1]);
        assert SafeAt(trace, n) <==> SafeStep(reports, trace, n - 1);
      }
    }
  }

  lemma MarkedSafeIff(job: Job, c: nat, report: Report, marked: Job)
    requires c < |job.chunks| && marked == Marked(job, c, report)
    requires report.result != Pending ==> (ParentsDone(marked, c) <==> MayReport(job, c, report.result))
    requires forall i :: 0 <= i < |job.chunks| && i != c && job.chunks[i].state != Pending ==>
               (ParentsDone(marked, i) <==> report.result == Completed || forall e :: !Feeds(job, e, c, i))
    ensures DependencySafe(marked) <==>
            MayReport(job, c, report.result) && (report.result == Completed || NobodyRelies(job, c))
  {
    if DependencySafe(marked) && report.result != Completed {
      forall e, i | Feeds(job, e, c, i) && i != c ensures job.chunks[i].state == Pending {
        assert marked.chunks[i] == job.chunks[i];
      }
    }
    if DependencySafe(marked) {
      assert marked.chunks[c].state == report.result;
    }
  }

  /** Two chunks, the second depending on the first. */
  ghost predicate IsPair(job: Job) {
    |job.chunks| == 2 && job.edges == [Edge(1, 2)] && job.chunks[0].id == 1 && job.chunks[1].id == 2
  }

  lemma PairFacts(job: Job)
    requires IsPair(job)
    ensures IndexOf(job.chunks, 1) == 0 && Feeds(job, Edge(1, 2), 0, 1)
    ensures Distinct(job.Graph().ids) && Orderable(job)
  {
    assert job.edges[0] == Edge(1, 2);
    assert Ordered(job, [0, 1]);
  }

  lemma PairStart(job: Job, start: Job)
    requires IsPair(job) && Unstarted(job) && start == Promoted(job)
    ensures IsPair(start) && DependencySafe(start) && start.chunks[0].state == Ready
  {
    StartIsSafe(job, start);
    assert forall e :: e in job.edges ==> e == Edge(1, 2);
    assert Promotable(job, 0);
  }

  /** Once the parent is completed the child has left the pending state. */
  lemma PairCompleted(start: Job, report: Report, one: Job)
    requires IsPair(start) && DependencySafe(start) && start.chunks[0].state == Ready
    requires report.chunkId == 1 && report.result == Completed && one == Reported(start, report)
    ensures IsPair(one) && DependencySafe(one) && one.chunks[1].state != Pending
  {
    PairFacts(start);
    TruthfulKeepsSafe(start, report, one);
    var marked := Marked(start, 0, report);
    PairFacts(marked);
    assert SourceDone(marked.chunks, 1);
    assert marked.chunks[1].state == Pending ==> Promotable(marked, 1);
  }

  lemma PairRetracted(one: Job, report: Report)
    requires IsPair(one) && DependencySafe(one) && one.chunks[1].state != Pending
    requires report.chunkId == 1 && report.result != Completed
    ensures !DependencySafe(Reported(one, report))
  {
    PairFacts(one);
    ReportKeepsSafeIff(one, report);
  }

  lemma TwoStepRun(job: Job, reports: seq<Report>, trace: seq<Job>)
    requires |reports| == 2 && |trace| == 3 && trace[0] == Promoted(job)
    requires trace[1] == Reported(trace[0], reports[0]) && trace[2] == Reported(trace[1], reports[1])
    ensures IsRun(job, reports, trace)
  {
    forall t | 0 <= t < 2 ensures RunStep(reports, trace, t) {
      assert t == 0 || t == 1;
    }
  }

  /** Truthfulness is needed: in every run of such a pair from the start, taking back the completed
      parent leaves its child ready over an unfinished parent. */
  lemma RetractionBreaksSafety(job: Job, reports: seq<Report>, trace: seq<Job>)
    requires IsPair(job) && Unstarted(job) && IsRun(job, reports, trace) && |reports| == 2
    requires reports[0].chunkId == 1 && reports[0].result == Completed
    requires reports[1].chunkId == 1 && reports[1].result != Completed
    ensures DependencySafe(trace[1]) && !DependencySafe(trace[2])
  {
    assert RunStep(reports, trace, 0) && RunStep(reports, trace, 1);
    PairStart(job, trace[0]);
    PairCompleted(trace[0], reports[0], trace[1]);
    PairRetracted(trace[1], reports[1]);
  }

  lemma RetractionCounterexample() returns (job: Job, reports: seq<Report>, trace: seq<Job>)
    ensures Unstarted(job) && Distinct(job.Graph().ids) && Orderable(job)
    ensures IsRun(job, reports, trace) && |reports| == 2
    ensures DependencySafe(trace[1]) && !DependencySafe(trace[2])
  {
    var chunks := [ManagedChunk(1, 0, 0, 0, Pending, ""), ManagedChunk(2, 0, 0, 0, Pending, "")];
    job := Job(1001, Executing, 0, 0, chunks, [Edge(1, 2)], 0.0, None);
    PairFacts(job);
    reports := [Report(1, Completed, None), Report(1, Failed, None)];
    var start := Promoted(job);
    var one := Reported(start, reports[0]);
    trace := [start, one, Reported(one, reports[1])];
    TwoStepRun(job, reports, trace);
    RetractionBreaksSafety(job, reports, trace);
  }

  // ----- Completing ready chunks finishes the job -----

  ghost function Completion(job: Job, i: nat): Report
    requires i < |job.chunks|
  {
    Report(job.chunks[i].id, Completed, None)
  }

  ghost predicate ReadyIn(job: Job, i: nat) {
    i < |job.chunks| && job.chunks[i].state == Ready
  }

  /** A run in which, each time, some ready chunk is reported completed; order lists which. */
  ghost predicate CompletionRun(job: Job, order: seq<nat>, trace: seq<Job>) {
    && |trace| == |order| + 1
    && trace[0] == Promoted(job)
    && (forall t :: 0 <= t < |order| ==> order[t] < |job.chunks|)
    && (forall t :: 0 <= t < |order| ==> CompletionStep(job, order, trace, t))
  }

  ghost predicate CompletionStep(job: Job, order: seq<nat>, trace: seq<Job>, t: int)
    requires 0 <= t < |order| && |trace| == |order| + 1 && order[t] < |job.chunks|
  {
    ReadyIn(trace[t], order[t]) && trace[t + 1] == Reported(trace[t], Completion(job, order[t]))
  }

  /** Completion runs are runs of reports. */
  lemma CompletionRunIsRun(job: Job, order: seq<nat>, trace: seq<Job>) returns (reports: seq<Report>)
    requires CompletionRun(job, order, trace)
    ensures IsRun(job, reports, trace)
  {
    reports := seq(|order|, t requires 0 <= t < |order| => Completion(job, order[t]));
    forall t | 0 <= t < |reports| ensures RunStep(reports, trace, t) {
      assert CompletionStep(job, order, trace, t);
    }
  }

  ghost predicate ParentsIn(job: Job, order: seq<nat>, i: nat) {
    forall e, k :: Feeds(job, e, k, i) ==> k in order
  }

  ghost function ShapedState(job: Job, order: seq<nat>, i: nat): ChunkState {
    if i in order then Completed else if ParentsIn(job, order, i) then Ready else Pending
  }

  /** The state of a job in which exactly the chunks in order have been completed. */
  ghost predicate Shaped(job: Job, order: seq<nat>, s: Job) {
    && SameGraph(job, s)
    && forall i :: 0 <= i < |job.chunks| ==> s.chunks[i].state == ShapedState(job, order, i)
  }

  lemma ShapedParents(job: Job, order: seq<nat>, s: Job, i: nat)
    requires SameGraph(job, s) && i < |job.chunks|
    requires forall k :: 0 <= k < |job.chunks| ==> (s.chunks[k].state == Completed <==> k in order)
    ensures ParentsDone(s, i) <==> ParentsIn(job, order, i)
  {
    SameGraphSameFacts(job, s);
    if ParentsDone(s, i) {
      forall e, k | Feeds(job, e, k, i) ensures k in order {
        assert SourceDone(s.chunks, e.src);
      }
    }
    if ParentsIn(job, order, i) {
      forall e | e in s.edges && e.dst == s.chunks[i].id ensures SourceDone(s.chunks, e.src) {
        var k := IndexOf(s.chunks, e.src);
        assert k >= 0 ==> Feeds(job, e, k, i);
      }
    }
  }

  lemma StartShaped(job: Job, start: Job)
    requires Unstarted(job) && start == Promoted(job)
    ensures Shaped(job, [], start)
  {
    forall i | 0 <= i < |job.chunks| ensures ParentsDone(job, i) <==> ParentsIn(job, [], i) {
      ShapedParents(job, [], job, i);
    }
  }

  lemma OwnIndex(job: Job, s: Job, c: nat)
    requires Distinct(job.Graph().ids) && SameGraph(job, s) && c < |job.chunks|
    ensures IndexOf(s.chunks, job.chunks[c].id) == c
  {
    var k := IndexOf(s.chunks, job.chunks[c].id);
    assert s.chunks[c].id == job.chunks[c].id;
    assert job.Graph().ids[k] == job.Graph().ids[c];
  }

  lemma MarkedParents(job: Job, order: seq<nat>, s: Job, c: nat)
    requires Shaped(job, order, s) && c < |job.chunks|
    ensures forall i :: 0 <= i < |job.chunks| ==>
              (ParentsDone(Marked(s, c, Completion(job, c)), i) <==> ParentsIn(job, order + [c], i))
  {
    forall i | 0 <= i < |job.chunks|
      ensures ParentsDone(Marked(s, c, Completion(job, c)), i) <==> ParentsIn(job, order + [c], i)
    {
      ShapedParents(job, order + [c], Marked(s, c, Completion(job, c)), i);
    }
  }

  lemma StepShapedAt(job: Job, order: seq<nat>, s: Job, c: nat, longer: seq<nat>, marked: Job, i: nat)
    requires Shaped(job, order, s) && ReadyIn(s, c) && longer == order + [c] && i < |job.chunks|
    requires marked == Marked(s, c, Completion(job, c))
    requires ParentsDone(marked, i) <==> ParentsIn(job, longer, i)
    ensures Promoted(marked).chunks[i].state == ShapedState(job, longer, i)
  {
    assert s.chunks[i].state == ShapedState(job, order, i);
    if i !in order && ParentsIn(job, order, i) {
      assert ParentsIn(job, longer, i);
    }
  }

  lemma StepShaped(job: Job, order: seq<nat>, s: Job, c: nat, longer: seq<nat>, after: Job)
    requires Distinct(job.Graph().ids) && Shaped(job, order, s) && ReadyIn(s, c)
    requires longer == order + [c] && after == Reported(s, Completion(job, c))
    ensures Shaped(job, longer, after)
  {
    OwnIndex(job, s, c);
    MarkedParents(job, order, s, c);
    var marked := Marked(s, c, Completion(job, c));
    var promoted := Promoted(marked);
    forall i | 0 <= i < |job.chunks| ensures promoted.chunks[i].state == ShapedState(job, longer, i) {
      StepShapedAt(job, order, s, c, longer, marked, i);
    }
    assert Shaped(job, longer, promoted);
    ShapedStatus(job, longer, promoted, after);
  }

  /** The job's status and progress do not matter. */
  lemma ShapedStatus(job: Job, order: seq<nat>, a: Job, b: Job)
    requires Shaped(job, order, a) && b == a.(state := b.state, progress := b.progress, resultHash := b.resultHash)
    ensures Shaped(job, order, b)
  {
  }

  lemma {:induction false} RunShaped(job: Job, order: seq<nat>, trace: seq<Job>, t: nat)
    requires Distinct(job.Graph().ids) && Unstarted(job) && CompletionRun(job, order, trace) && t <= |order|
    ensures Shaped(job, order[..t], trace[t])
    decreases t
  {
    if t == 0 {
      StartShaped(job, trace[0]);
    } else {
      RunShaped(job, order, trace, t - 1);
      RunShapedStep(job, order, trace, t - 1);
    }
  }

  lemma TakeSnoc(order: seq<nat>, t: nat)
    requires t < |order|
    ensures order[..t + 1] == order[..t] + [order[t]]
  {
  }

  lemma RunShapedStep(job: Job, order: seq<nat>, trace: seq<Job>, t: nat)
    requires Distinct(job.Graph().ids) && CompletionRun(job, order, trace) && t < |order|
    requires Shaped(job, order[..t], trace[t])
    ensures Shaped(job, order[..t + 1], trace[t + 1])
  {
    TakeSnoc(order, t);
    assert CompletionStep(job, order, trace, t);
    StepShaped(job, order[..t], trace[t], order[t], order[..t + 1], trace[t + 1]);
  }

  lemma ReadyNotListed(job: Job, order: seq<nat>, s: Job, c: nat)
    requires Shaped(job, order, s) && ReadyIn(s, c)
    ensures c !in order && ParentsIn(job, order, c)
  {
  }

  /** No chunk is completed twice, so a run has at most one report per chunk, and exactly that many
      when every chunk is completed. */
  lemma RunLength(job: Job, order: seq<nat>, trace: seq<Job>)
    requires Distinct(job.Graph().ids) && Unstarted(job) && CompletionRun(job, order, trace)
    ensures Distinct(order)
    ensures |order| <= |job.chunks|
    ensures |order| == |job.chunks| <==> forall i :: 0 <= i < |job.chunks| ==> i in order
  {
    forall s, t | 0 <= s < t < |order| ensures order[s] != order[t] {
      RunShaped(job, order, trace, t);
      assert CompletionStep(job, order, trace, t);
      ReadyNotListed(job, order[..t], trace[t], order[t]);
      assert order[s] == order[..t][s];
    }
    DistinctFills(order, |job.chunks|);
  }

  /** Chunks are completed in a topological order. */
  lemma RunIsTopological(job: Job, order: seq<nat>, trace: seq<Job>, e: Edge, k: nat, t: nat)
    requires Distinct(job.Graph().ids) && Unstarted(job) && CompletionRun(job, order, trace)
    requires t < |order| && Feeds(job, e, k, order[t])
    ensures exists s :: 0 <= s < t && order[s] == k
  {
    RunShaped(job, order, trace, t);
    assert CompletionStep(job, order, trace, t);
    ReadyNotListed(job, order[..t], trace[t], order[t]);
    assert k in order[..t];
  }

  lemma Ratio(n: nat)
    requires n > 0
    ensures n as real / n as real == 1.0
  {
  }

  lemma ReportStatus(job: Job, report: Report)
    requires Known(job, report.chunkId)
    requires CountState(Reported(job, report).chunks, Failed) == 0
    ensures var after := Reported(job, report);
            var finished := CountState(after.chunks, Completed) == |job.chunks|;
            after.state == (if finished then JobCompleted else job.state) && (finished ==> after.progress == 1.0)
  {
    Ratio(|job.chunks|);
  }

  lemma ShapedCounts(job: Job, order: seq<nat>, s: Job)
    requires Shaped(job, order, s)
    ensures CountState(s.chunks, Failed) == 0
    ensures CountState(s.chunks, Completed) == |s.chunks| <==> forall i :: 0 <= i < |job.chunks| ==> i in order
  {
    if CountState(s.chunks, Completed) == |s.chunks| {
      forall i | 0 <= i < |job.chunks| ensures i in order {
        assert s.chunks[i].state == Completed;
      }
    }
  }

  /** The job stays in execution until the last chunk is reported, and is then completed. */
  lemma {:induction false} RunStatus(job: Job, order: seq<nat>, trace: seq<Job>, t: nat)
    requires Distinct(job.Graph().ids) && Unstarted(job) && job.state == Executing && job.chunks != []
    requires CompletionRun(job, order, trace) && t <= |order|
    ensures trace[t].state == if t == |job.chunks| then JobCompleted else Executing
    ensures t == |job.chunks| ==> trace[t].progress == 1.0
    decreases t
  {
    if t > 0 {
      RunStatus(job, order, trace, t - 1);
      RunShaped(job, order, trace, t - 1);
      RunShaped(job, order, trace, t);
      RunPrefix(job, order, trace, t);
      RunLength(job, order[..t], trace[..t + 1]);
      assert CompletionStep(job, order, trace, t - 1);
      StepStatus(job, order[..t], trace[t - 1], order[t - 1], trace[t]);
    }
  }

  lemma StepStatus(job: Job, longer: seq<nat>, s: Job, c: nat, after: Job)
    requires Distinct(job.Graph().ids) && SameGraph(job, s) && c < |job.chunks| && job.chunks != []
    requires after == Reported(s, Completion(job, c)) && Shaped(job, longer, after)
    ensures var all := forall i :: 0 <= i < |job.chunks| ==> i in longer;
            after.state == (if all then JobCompleted else s.state) && (all ==> after.progress == 1.0)
  {
    OwnIndex(job, s, c);
    ShapedCounts(job, longer, after);
    ReportStatus(s, Completion(job, c));
  }

  lemma RunPrefix(job: Job, order: seq<nat>, trace: seq<Job>, t: nat)
    requires CompletionRun(job, order, trace) && t <= |order|
    ensures CompletionRun(job, order[..t], trace[..t + 1])
  {
    var order', trace' := order[..t], trace[..t + 1];
    forall s | 0 <= s < |order'| ensures CompletionStep(job, order', trace', s) {
      assert CompletionStep(job, order, trace, s);
    }
  }

  lemma RunSnoc(job: Job, order: seq<nat>, trace: seq<Job>, j: nat, next: Job, order': seq<nat>, trace': seq<Job>)
    requires CompletionRun(job, order, trace) && j < |job.chunks| && ReadyIn(trace[|order|], j)
    requires next == Reported(trace[|order|], Completion(job, j))
    requires order' == order + [j] && trace' == trace + [next]
    ensures CompletionRun(job, order', trace')
  {
    forall t | 0 <= t < |order'| ensures CompletionStep(job, order', trace', t) {
      if t < |order| {
        assert CompletionStep(job, order, trace, t);
        assert trace'[t] == trace[t] && trace'[t + 1] == trace[t + 1] && order'[t] == order[t];
      } else {
        assert trace'[t] == trace[|order|] && trace'[t + 1] == next && order'[t] == j;
      }
    }
  }

  /** Completing ready chunks one after another, in any order one likes, always finds a next ready
      chunk until every chunk has been reported exactly once; then the job is completed. */
  lemma CompletionsFinishJob(job: Job, order: seq<nat>, trace: seq<Job>)
    requires Distinct(job.Graph().ids) && Rankable(job.Graph()) && job.chunks != []
    requires Unstarted(job) && job.state == Executing && CompletionRun(job, order, trace)
    ensures |order| <= |job.chunks|
    ensures |order| < |job.chunks| ==> exists j :: ReadyIn(trace[|order|], j)
    ensures trace[|order|].state == if |order| == |job.chunks| then JobCompleted else Executing
    ensures |order| == |job.chunks| ==> trace[|order|].progress == 1.0
  {
    RunLength(job, order, trace);
    RunStatus(job, order, trace, |order|);
    if |order| < |job.chunks| {
      var reports := CompletionRunIsRun(job, order, trace);
      RankableIffOrderable(job);
      OrderableNeverStuck(job, reports, trace, |order|);
      RunShaped(job, order, trace, |order|);
      assert order[..|order|] == order;
      if forall j :: !ReadyIn(trace[|order|], j) {
        NoneReadyIsStuck(job, order, trace[|order|]);
      }
    }
  }

  lemma NoneReadyIsStuck(job: Job, order: seq<nat>, s: Job)
    requires Shaped(job, order, s)
    requires forall j :: !ReadyIn(s, j)
    requires exists i :: 0 <= i < |job.chunks| && i !in order
    ensures Stuck(s)
  {
    forall i | 0 <= i < |s.chunks| ensures s.chunks[i].state == Pending || s.chunks[i].state == Completed {
      assert !ReadyIn(s, i);
    }
    var i :| 0 <= i < |job.chunks| && i !in order;
    assert s.chunks[i].state != Completed;
  }

  // ----- Exactly the orderable jobs never get stuck -----

  /** Reporting ready chunks completed for as long as there are any. */
  lemma {:induction false} RunOut(job: Job, order: seq<nat>, trace: seq<Job>)
    returns (final: seq<nat>, states: seq<Job>)
    requires Distinct(job.Graph().ids) && Unstarted(job) && CompletionRun(job, order, trace)
    ensures CompletionRun(job, final, states)
    ensures forall j :: !ReadyIn(states[|final|], j)
    decreases |job.chunks| - |order|
  {
    RunLength(job, order, trace);
    if j :| ReadyIn(trace[|order|], j) {
      RunShaped(job, order, trace, |order|);
      var next := Reported(trace[|order|], Completion(job, j));
      var longer := trace + [next];
      RunSnoc(job, order, trace, j, next, order + [j], longer);
      RunLength(job, order + [j], longer);
      final, states := RunOut(job, order + [j], longer);
    } else {
      final, states := order, trace;
    }
  }

  /** Finishing all chunks orders the job by the places of the completions. */
  lemma CompleteOrders(job: Job, order: seq<nat>, trace: seq<Job>)
    requires Distinct(job.Graph().ids) && Unstarted(job) && CompletionRun(job, order, trace)
    requires forall i :: 0 <= i < |job.chunks| ==> i in order
    ensures Orderable(job)
  {
    RunLength(job, order, trace);
    var rank := seq(|job.chunks|, j requires 0 <= j < |job.chunks| => PlaceOf(order, j));
    forall e, k, j | Feeds(job, e, k, j) ensures rank[k] < rank[j] {
      RunIsTopological(job, order, trace, e, k, rank[j]);
      var s :| 0 <= s < rank[j] && order[s] == k;
      assert order[rank[k]] == k;
    }
    assert Ordered(job, rank);
  }

  /** A job whose in-job edges cannot be ordered can be driven into a dead end. */
  lemma DeadEnd(job: Job) returns (reports: seq<Report>, trace: seq<Job>)
    requires Distinct(job.Graph().ids) && Unstarted(job) && !Orderable(job)
    ensures IsRun(job, reports, trace) && Stuck(trace[|reports|])
  {
    var final;
    final, trace := RunOut(job, [], [Promoted(job)]);
    if forall i :: 0 <= i < |job.chunks| ==> i in final {
      CompleteOrders(job, final, trace);
    }
    RunShaped(job, final, trace, |final|);
    assert final[..|final|] == final;
    NoneReadyIsStuck(job, final, trace[|final|]);
    reports := CompletionRunIsRun(job, final, trace);
  }

  /** No run of reports whatsoever leaves the job stuck. */
  ghost predicate NeverStuck(job: Job) {
    forall reports, trace :: IsRun(job, reports, trace) ==> !Stuck(trace[|reports|])
  }

  /** A job never gets stuck if and only if its in-job edges can be ordered; when all edges stay
      inside the job, that is exactly when the topology check accepts its graph. */
  lemma NeverStuckIffOrderable(job: Job)
    requires Distinct(job.Graph().ids) && Unstarted(job)
    ensures NeverStuck(job) <==> Orderable(job)
    ensures Closed(job) ==> (NeverStuck(job) <==> Rankable(job.Graph()))
  {
    RankableIffOrderable(job);
    if Orderable(job) {
      forall reports, trace | IsRun(job, reports, trace) ensures !Stuck(trace[|reports|]) {
        OrderableNeverStuck(job, reports, trace, |reports|);
      }
    } else {
      var reports, trace := DeadEnd(job);
    }
  }

  // ----- Exactly the jobs without a dead core, for all ids -----

  /** Chunk i waits for a chunk of the core. */
  ghost predicate WaitsFor(job: Job, core: set<nat>, i: int) {
    exists e, k :: Feeds(job, e, k, i) && k in core
  }

  /** Chunk i is in the core, or no report can reach it. */
  ghost predicate Held(job: Job, core: set<nat>, i: int) {
    0 <= i < |job.chunks| && (i in core || !IsFirst(job, i))
  }

  /** Chunks that wait for each other, and for which every chunk that no report can reach waits, too. */
  ghost predicate DeadCore(job: Job, core: set<nat>) {
    && core != {} && (forall i :: i in core ==> i < |job.chunks| && IsFirst(job, i))
    && (forall i {:trigger Held(job, core, i)} :: Held(job, core, i) ==> WaitsFor(job, core, i))
  }

  lemma WaitingNotDone(job: Job, core: set<nat>, s: Job, i: nat)
    requires SameGraph(job, s) && i < |job.chunks| && WaitsFor(job, core, i)
    requires forall k :: k in core ==> k < |job.chunks| && s.chunks[k].state != Completed
    ensures !ParentsDone(s, i)
  {
    SameGraphSameFacts(job, s);
    var e, k :| Feeds(job, e, k, i) && k in core;
    assert !SourceDone(s.chunks, e.src);
  }

  /** The held chunks are pending; of the others, the first n have been reported completed. */
  ghost predicate CoreState(job: Job, core: set<nat>, n: nat, s: Job) {
    && SameGraph(job, s)
    && (forall i {:trigger Held(job, core, i)} :: Held(job, core, i) ==> s.chunks[i].state == Pending)
    && (forall i {:trigger Held(job, core, i)} :: 0 <= i < n && i < |job.chunks| && !Held(job, core, i) ==>
          s.chunks[i].state == Completed)
  }

  lemma CorePromotion(job: Job, core: set<nat>, n: nat, s: Job, promoted: Job)
    requires DeadCore(job, core) && CoreState(job, core, n, s) && promoted == Promoted(s)
    ensures CoreState(job, core, n, promoted)
  {
    forall k | k in core ensures s.chunks[k].state == Pending {
      assert Held(job, core, k);
    }
    forall i | Held(job, core, i) ensures promoted.chunks[i].state == Pending {
      assert WaitsFor(job, core, i);
      WaitingNotDone(job, core, s, i);
    }
  }

  lemma CoreStatus(job: Job, core: set<nat>, n: nat, a: Job, b: Job)
    requires CoreState(job, core, n, a) && b == a.(state := b.state, progress := b.progress, resultHash := b.resultHash)
    ensures CoreState(job, core, n, b)
  {
  }

  lemma CoreMarked(job: Job, core: set<nat>, n: nat, s: Job, marked: Job)
    requires CoreState(job, core, n, s) && n < |job.chunks| && !Held(job, core, n)
    requires marked == Marked(s, n, Completion(job, n))
    ensures CoreState(job, core, n + 1, marked)
  {
  }

  lemma CoreReport(job: Job, core: set<nat>, n: nat, s: Job, after: Job)
    requires DeadCore(job, core) && CoreState(job, core, n, s) && n < |job.chunks| && !Held(job, core, n)
    requires after == Reported(s, Completion(job, n))
    ensures CoreState(job, core, n + 1, after)
  {
    SameFirsts(job, s, n);
    FirstIsFound(s, n);
    var marked := Marked(s, n, Completion(job, n));
    CoreMarked(job, core, n, s, marked);
    CorePromotion(job, core, n + 1, marked, Promoted(marked));
    CoreStatus(job, core, n + 1, Promoted(marked), after);
  }

  lemma ReportsSnoc(job: Job, reports: seq<Report>, trace: seq<Job>, report: Report, next: Job)
    requires IsRun(job, reports, trace) && next == Reported(trace[|reports|], report)
    ensures IsRun(job, reports + [report], trace + [next])
  {
    var reports', trace' := reports + [report], trace + [next];
    forall t | 0 <= t < |reports'| ensures RunStep(reports', trace', t) {
      if t < |reports| {
        assert RunStep(reports, trace, t);
        assert trace'[t] == trace[t] && trace'[t + 1] == trace[t + 1] && reports'[t] == reports[t];
      } else {
        assert trace'[t] == trace[|reports|] && trace'[t + 1] == next && reports'[t] == report;
      }
    }
  }

  lemma CoreHeld(job: Job, core: set<nat>, n: nat, s: Job)
    requires CoreState(job, core, n, s) && (n < |job.chunks| ==> Held(job, core, n))
    ensures CoreState(job, core, n + 1, s)
  {
  }

  /** Reporting everything that is not held completed, chunk after chunk. */
  lemma {:induction false} CoreRun(job: Job, core: set<nat>, n: nat) returns (reports: seq<Report>, trace: seq<Job>)
    requires Unstarted(job) && DeadCore(job, core) && n <= |job.chunks|
    ensures IsRun(job, reports, trace) && CoreState(job, core, n, trace[|reports|])
    decreases n
  {
    if n == 0 {
      reports, trace := [], [Promoted(job)];
      CorePromotion(job, core, 0, job, Promoted(job));
    } else {
      reports, trace := CoreRun(job, core, n - 1);
      reports, trace := CoreRunStep(job, core, n - 1, reports, trace);
    }
  }

  lemma CoreRunStep(job: Job, core: set<nat>, n: nat, reports: seq<Report>, trace: seq<Job>)
    returns (reports': seq<Report>, trace': seq<Job>)
    requires DeadCore(job, core) && n < |job.chunks|
    requires IsRun(job, reports, trace) && CoreState(job, core, n, trace[|reports|])
    ensures IsRun(job, reports', trace') && CoreState(job, core, n + 1, trace'[|reports'|])
  {
    var s := trace[|reports|];
    if Held(job, core, n) {
      CoreHeld(job, core, n, s);
      reports', trace' := reports, trace;
    } else {
      var next := Reported(s, Completion(job, n));
      CoreReport(job, core, n, s, next);
      ReportsSnoc(job, reports, trace, Completion(job, n), next);
      reports', trace' := reports + [Completion(job, n)], trace + [next];
    }
  }

  lemma CoreIsStuck(job: Job, core: set<nat>, s: Job)
    requires DeadCore(job, core) && CoreState(job, core, |job.chunks|, s)
    ensures Stuck(s)
  {
    forall i | 0 <= i < |s.chunks| ensures s.chunks[i].state == Pending || s.chunks[i].state == Completed {
      assert Held(job, core, i) || !Held(job, core, i);
    }
    var i :| i in core;
    assert Held(job, core, i);
  }

  /** What is pending at a dead end, as far as reports can reach it. */
  ghost function PendingFirsts(s: Job): (core: set<nat>)
    ensures forall i: nat :: i in core <==> i < |s.chunks| && s.chunks[i].state == Pending && IsFirst(s, i)
  {
    set i: nat | i < |s.chunks| && s.chunks[i].state == Pending && IsFirst(s, i)
  }

  lemma StuckWaits(s: Job, i: nat)
    requires Quiet(s) && Stuck(s) && i < |s.chunks| && s.chunks[i].state == Pending
    ensures WaitsFor(s, PendingFirsts(s), i)
  {
    assert !Promotable(s, i);
    var e :| e in s.edges && e.dst == s.chunks[i].id && !SourceDone(s.chunks, e.src);
    var k := IndexOf(s.chunks, e.src);
    FoundIsFirst(s, e.src);
    assert k in PendingFirsts(s) && Feeds(s, e, k, i);
  }

  /** A dead end has a dead core: what is pending there. */
  lemma StuckHasCore(s: Job)
    requires Quiet(s) && Stuck(s)
    ensures DeadCore(s, PendingFirsts(s))
  {
    var core := PendingFirsts(s);
    forall i | Held(s, core, i) ensures WaitsFor(s, core, i) {
      assert s.chunks[i].state == Completed ==> IsFirst(s, i);
      StuckWaits(s, i);
    }
    var i: nat :| i < |s.chunks| && s.chunks[i].state != Completed;
    StuckWaits(s, i);
  }

  lemma CoreOfSameGraph(a: Job, b: Job, core: set<nat>)
    requires SameGraph(a, b) && DeadCore(a, core)
    ensures DeadCore(b, core)
  {
    SameGraphSameFacts(a, b);
    forall i | Held(b, core, i) ensures WaitsFor(b, core, i) {
      SameFirsts(a, b, i);
      assert Held(a, core, i);
      var e, k :| Feeds(a, e, k, i) && k in core;
      assert Feeds(b, e, k, i);
    }
    forall i | i in core ensures IsFirst(b, i) {
      SameFirsts(a, b, i);
    }
  }

  /** For every submitted job, whatever its ids and edges: it never gets stuck if and only if it has no
      dead core. */
  lemma NeverStuckIffNoCore(job: Job)
    requires Unstarted(job)
    ensures NeverStuck(job) <==> forall core :: !DeadCore(job, core)
  {
    if core :| DeadCore(job, core) {
      var reports, trace := CoreRun(job, core, |job.chunks|);
      CoreIsStuck(job, core, trace[|reports|]);
    } else {
      forall reports, trace | IsRun(job, reports, trace) ensures !Stuck(trace[|reports|]) {
        NoCoreNoDeadEnd(job, reports, trace);
      }
    }
  }

  lemma NoCoreNoDeadEnd(job: Job, reports: seq<Report>, trace: seq<Job>)
    requires Unstarted(job) && IsRun(job, reports, trace) && forall core :: !DeadCore(job, core)
    ensures !Stuck(trace[|reports|])
  {
    var s := trace[|reports|];
    RunIsQuiet(job, reports, trace, |reports|);
    RunKeepsGraph(job, reports, trace, |reports|);
    if Stuck(s) {
      StuckHasCore(s);
      CoreOfSameGraph(s, job, PendingFirsts(s));
    }
  }
}
