/** What the scheduler's tables remember of the calls made (master/src/scheduler.c): every worker is the
    view it was last registered with, up to its reservations, and every chunk is as it was last
    submitted. */
module SchedulerHistory {
  import opened MachineInts
  import opened Options
  import opened SchedulerModel
  import opened SchedulerInvariants

  /** The last view registered under the id in the first t calls. */
  function LastView(ops: seq<Op>, id: WorkerId, t: nat): Option<Worker>
    requires t <= |ops|
  {
    if t == 0 then None
    else if ops[t - 1].RegisterOp? && ops[t - 1].worker.id == id then Some(ops[t - 1].worker)
    else LastView(ops, id, t - 1)
  }

  /** The chunk last submitted under the id in the first t calls. */
  function LastChunk(ops: seq<Op>, id: u64, t: nat): Option<Chunk>
    requires t <= |ops|
  {
    if t == 0 then None
    else if ops[t - 1].SubmitOp? && ops[t - 1].chunk.id == id then Some(ops[t - 1].chunk)
    else LastChunk(ops, id, t - 1)
  }

  /** The worker is the view with other reservations. */
  ghost predicate Shows(worker: Worker, view: Worker) {
    worker == view.(reservCpu := worker.reservCpu, reservMemMb := worker.reservMemMb,
                    activeChunks := worker.activeChunks)
  }

  ghost predicate SameViews(a: seq<Worker>, b: seq<Worker>) {
    |a| == |b| && forall w {:trigger Shows(b[w], a[w])} :: 0 <= w < |a| ==> Shows(b[w], a[w])
  }

  lemma EndLeaseKeepsViews(s: Sched, l: nat, chunk: Chunk)
    requires l < |s.leases|
    ensures SameViews(s.workers, EndLease(s, l, chunk).workers)
  {
  }

  lemma TurnKeepsViews(t: Ticking, c: nat, nowMs: u64, maxLeases: int, after: Ticking)
    requires c < |t.s.chunks| && after == LimitedTurn(t, c, nowMs, maxLeases)
    ensures SameViews(t.s.workers, after.s.workers)
  {
    if |t.out| < maxLeases && !t.s.chunks[c].isBlocked && AfterExpiry(t.s, c, nowMs).Some? {
      var ready := AfterExpiry(t.s, c, nowMs).value;
      var l := ActiveLeaseFrom(t.s.leases, t.s.chunks[c].id, 0);
      if l >= 0 {
        EndLeaseKeepsViews(t.s, l, t.s.chunks[c]);
      }
      PlaceKeepsViews(t.(s := ready), c, nowMs);
    }
  }

  lemma PlaceKeepsViews(t: Ticking, c: nat, nowMs: u64)
    requires c < |t.s.chunks|
    ensures SameViews(t.s.workers, Place(t, c, nowMs).s.workers)
  {
  }

  lemma {:induction false} TickKeepsViews(s: Sched, nowMs: u64, maxLeases: int, c: nat)
    requires c <= |s.chunks|
    ensures SameViews(s.workers, TicksTo(s, nowMs, maxLeases, c).s.workers)
    decreases c
  {
    if c > 0 {
      TickKeepsViews(s, nowMs, maxLeases, c - 1);
      TurnKeepsFirstViews(s.workers, TicksTo(s, nowMs, maxLeases, c - 1), c - 1, nowMs, maxLeases,
                          TicksTo(s, nowMs, maxLeases, c));
    }
  }

  lemma TurnKeepsFirstViews(workers: seq<Worker>, t: Ticking, c: nat, nowMs: u64, maxLeases: int, after: Ticking)
    requires SameViews(workers, t.s.workers) && c < |t.s.chunks| && after == LimitedTurn(t, c, nowMs, maxLeases)
    ensures SameViews(workers, after.s.workers)
  {
    TurnKeepsViews(t, c, nowMs, maxLeases, after);
    ViewsCompose(workers, t.s.workers, after.s.workers);
  }

  lemma ViewsCompose(a: seq<Worker>, b: seq<Worker>, c: seq<Worker>)
    requires SameViews(a, b) && SameViews(b, c)
    ensures SameViews(a, c)
  {
    forall w | 0 <= w < |a| ensures Shows(c[w], a[w]) {
      assert Shows(b[w], a[w]) && Shows(c[w], b[w]);
    }
  }

  lemma StepKeepsViews(s: Sched, op: Op)
    requires !op.RegisterOp?
    ensures SameViews(s.workers, Step(s, op).workers)
  {
    if op.TickOp? {
      TickKeepsViews(s, op.nowMs, op.maxLeases, |s.chunks|);
    }
  }

  // ----- Over runs -----

  ghost predicate WorkersRemembered(s: Sched, ops: seq<Op>, t: nat)
    requires t <= |ops|
  {
    forall w :: 0 <= w < |s.workers| ==> WorkerRemembered(s.workers[w], ops, t)
  }

  ghost predicate WorkerRemembered(worker: Worker, ops: seq<Op>, t: nat)
    requires t <= |ops|
  {
    LastView(ops, worker.id, t).Some? && Shows(worker, LastView(ops, worker.id, t).value)
  }

  lemma RegisterRemembers(s: Sched, ops: seq<Op>, t: nat, after: Sched)
    requires Consistent(s) && t < |ops| && ops[t].RegisterOp? && WorkersRemembered(s, ops, t)
    requires after == Register(s, ops[t].worker).0
    ensures WorkersRemembered(after, ops, t + 1)
  {
    forall w | 0 <= w < |after.workers| ensures WorkerRemembered(after.workers[w], ops, t + 1) {
      if w < |s.workers| && after.workers[w] == s.workers[w] {
        assert WorkerRemembered(s.workers[w], ops, t);
      }
    }
  }

  lemma ViewsRemembered(s: Sched, ops: seq<Op>, t: nat, after: Sched)
    requires t < |ops| && !ops[t].RegisterOp? && WorkersRemembered(s, ops, t) && SameViews(s.workers, after.workers)
    ensures WorkersRemembered(after, ops, t + 1)
  {
    forall w | 0 <= w < |after.workers| ensures WorkerRemembered(after.workers[w], ops, t + 1) {
      assert WorkerRemembered(s.workers[w], ops, t) && Shows(after.workers[w], s.workers[w]);
    }
  }

  lemma {:induction false} RunRemembersWorkers(ops: seq<Op>, trace: seq<Sched>, t: nat)
    requires IsRun(ops, trace) && t < |trace|
    ensures WorkersRemembered(trace[t], ops, t)
    decreases t
  {
    if t > 0 {
      RunRemembersWorkers(ops, trace, t - 1);
      RunsAreConsistent(ops, trace, t - 1);
      assert RunStep(ops, trace, t - 1);
      if ops[t - 1].RegisterOp? {
        RegisterRemembers(trace[t - 1], ops, t - 1, trace[t]);
      } else {
        StepKeepsViews(trace[t - 1], ops[t - 1]);
        ViewsRemembered(trace[t - 1], ops, t - 1, trace[t]);
      }
    }
  }

  /** In every run a worker in the table is, up to its reservations, what it was last registered as: its
      kind, capacity, state and rating come from nowhere else. */
  lemma WorkersAreAsRegistered(ops: seq<Op>, trace: seq<Sched>, t: nat, w: nat)
    requires IsRun(ops, trace) && t < |trace| && w < |trace[t].workers|
    ensures var view := LastView(ops, trace[t].workers[w].id, t); view.Some? && Shows(trace[t].workers[w], view.value)
  {
    RunRemembersWorkers(ops, trace, t);
    assert WorkerRemembered(trace[t].workers[w], ops, t);
  }

  ghost predicate ChunksRemembered(s: Sched, ops: seq<Op>, t: nat)
    requires t <= |ops|
  {
    forall c :: 0 <= c < |s.chunks| ==> LastChunk(ops, s.chunks[c].id, t) == Some(s.chunks[c])
  }

  lemma StepRemembersChunks(s: Sched, ops: seq<Op>, t: nat, after: Sched)
    requires Consistent(s) && t < |ops| && ChunksRemembered(s, ops, t) && after == Step(s, ops[t])
    ensures ChunksRemembered(after, ops, t + 1)
  {
    forall c | 0 <= c < |after.chunks| ensures LastChunk(ops, after.chunks[c].id, t + 1) == Some(after.chunks[c]) {
      match ops[t]
      case SubmitOp(chunk) =>
        if c < |s.chunks| && after.chunks[c] == s.chunks[c] {
          assert LastChunk(ops, s.chunks[c].id, t) == Some(s.chunks[c]);
        }
      case ReleaseOp(id) =>
        assert after.chunks[c] in s.chunks;
        var k :| 0 <= k < |s.chunks| && s.chunks[k] == after.chunks[c];
        assert LastChunk(ops, s.chunks[k].id, t) == Some(s.chunks[k]);
      case _ => assert after.chunks[c] == s.chunks[c];
    }
  }

  /** In every run a queued chunk is exactly what was last submitted under its id. */
  lemma {:induction false} ChunksAreAsSubmitted(ops: seq<Op>, trace: seq<Sched>, t: nat)
    requires IsRun(ops, trace) && t < |trace|
    ensures ChunksRemembered(trace[t], ops, t)
    decreases t
  {
    if t > 0 {
      ChunksAreAsSubmitted(ops, trace, t - 1);
      RunsAreConsistent(ops, trace, t - 1);
      assert RunStep(ops, trace, t - 1);
      StepRemembersChunks(trace[t - 1], ops, t - 1, trace[t]);
    }
  }

  // ----- Who is refused -----

  /** A worker is refused, and then nothing changes, exactly when it is new and 64 are registered; a
      chunk exactly when it is new and 128 are queued. Otherwise it is found in the table as given. */
  lemma RegisteredOrRefused(s: Sched, worker: Worker)
    ensures var (after, ok) := Register(s, worker);
            && (ok <==> HasWorker(s.workers, worker.id) || |s.workers| < 64)
            && (!ok ==> after == s)
            && (ok ==> var k := WorkerFrom(after.workers, worker.id, 0); k >= 0 && after.workers[k] == worker)
  {
    var (after, ok) := Register(s, worker);
    var k := WorkerFrom(s.workers, worker.id, 0);
    if ok {
      assert after.workers[if k >= 0 then k else |s.workers|] == worker;
      assert forall m :: 0 <= m < (if k >= 0 then k else |s.workers|) ==> after.workers[m] == s.workers[m];
    }
  }

  lemma QueuedOrRefused(s: Sched, chunk: Chunk)
    ensures var (after, ok) := Submit(s, chunk);
            && (ok <==> HasChunk(s.chunks, chunk.id) || |s.chunks| < 128)
            && (!ok ==> after == s)
            && (ok ==> var k := ChunkFrom(after.chunks, chunk.id, 0); k >= 0 && after.chunks[k] == chunk)
  {
    var (after, ok) := Submit(s, chunk);
    var k := ChunkFrom(s.chunks, chunk.id, 0);
    if ok {
      assert after.chunks[if k >= 0 then k else |s.chunks|] == chunk;
      assert forall m :: 0 <= m < (if k >= 0 then k else |s.chunks|) ==> after.chunks[m] == s.chunks[m];
    }
  }

  /** From any table with at most one active lease per chunk, queued or not: after a release no lease holds
      the chunk, and all other active leases stay. */
  lemma ReleaseEndsLease(s: Sched, chunkId: u64, l: nat)
    requires OneLeasePerChunk(s.leases) && l < |s.leases|
    ensures |Release(s, chunkId).leases| == |s.leases| && Unleased(Release(s, chunkId).leases, chunkId)
    ensures s.leases[l].chunkId != chunkId ==> Release(s, chunkId).leases[l] == s.leases[l]
  {
    var k := ActiveLeaseFrom(s.leases, chunkId, 0);
    if k >= 0 {
      assert Release(s, chunkId).leases == s.leases[k := s.leases[k].(isActive := false)];
    }
  }
}
