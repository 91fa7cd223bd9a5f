/** What holds of the scheduler's tables in every reachable state: leases and chunks match up, a
    chosen chunk always finds a lease slot, and no worker is over-committed. */
module SchedulerInvariants {
  import opened MachineInts
  import opened Options
  import opened Counting
  import opened SchedulerModel

  ghost predicate DistinctWorkers(workers: seq<Worker>) {
    forall i, j :: 0 <= i < j < |workers| ==> workers[i].id != workers[j].id
  }

  ghost predicate DistinctChunks(chunks: seq<Chunk>) {
    forall i, j :: 0 <= i < j < |chunks| ==> chunks[i].id != chunks[j].id
  }

  /** No two active leases are for the same chunk. */
  ghost predicate OneLeasePerChunk(leases: seq<Lease>) {
    forall l, m :: 0 <= l < m < |leases| && leases[l].isActive && leases[m].isActive ==>
      leases[l].chunkId != leases[m].chunkId
  }

  ghost predicate HasChunk(chunks: seq<Chunk>, id: u64) { exists c :: 0 <= c < |chunks| && chunks[c].id == id }

  ghost predicate HasWorker(workers: seq<Worker>, id: WorkerId) {
    exists w :: 0 <= w < |workers| && workers[w].id == id
  }

  /** Active leases are for queued chunks and name registered workers. */
  ghost predicate LeasesResolve(s: Sched) {
    forall l :: 0 <= l < |s.leases| && s.leases[l].isActive ==>
      HasChunk(s.chunks, s.leases[l].chunkId) && HasWorker(s.workers, s.leases[l].workerId)
  }

  ghost predicate Consistent(s: Sched) {
    && |s.workers| <= MAX_WORKERS && |s.chunks| <= MAX_CHUNKS && |s.leases| <= MAX_CHUNKS
    && DistinctWorkers(s.workers) && DistinctChunks(s.chunks)
    && OneLeasePerChunk(s.leases) && LeasesResolve(s)
  }

  ghost predicate Unleased(leases: seq<Lease>, chunkId: u64) {
    forall l :: 0 <= l < |leases| ==> !Covers(leases[l], chunkId)
  }

  // ----- The pigeonhole behind lease recording -----

  ghost function ChunkIds(chunks: seq<Chunk>): (r: set<u64>)
    ensures forall id :: id in r <==> HasChunk(chunks, id)
    ensures |r| <= |chunks|
  {
    if chunks == [] then {} else
      var n := |chunks| - 1;
      var r := ChunkIds(chunks[..n]);
      assert forall id :: HasChunk(chunks, id) <==> HasChunk(chunks[..n], id) || chunks[n].id == id;
      r + {chunks[n].id}
  }

  /** Whenever a queued chunk has no active lease, a slot for one can be found: the active leases
      are for distinct other chunks, and there are only as many chunks as lease slots. */
  lemma SlotAvailable(s: Sched, c: nat)
    requires Consistent(s) && c < |s.chunks| && Unleased(s.leases, s.chunks[c].id)
    ensures FreeSlotFrom(s.leases, 0) >= 0 || |s.leases| < MAX_CHUNKS
  {
    if FreeSlotFrom(s.leases, 0) < 0 {
      var leased := seq(|s.leases|, l requires 0 <= l < |s.leases| => s.leases[l].chunkId);
      var others := ChunkIds(s.chunks) - {s.chunks[c].id};
      forall id | id in leased ensures id in others {
        var l :| 0 <= l < |leased| && leased[l] == id;
        assert s.leases[l].isActive && !Covers(s.leases[l], s.chunks[c].id);
      }
      DistinctWithin(leased, others);
      assert HasChunk(s.chunks, s.chunks[c].id);
    }
  }

  lemma RecordSucceeds(s: Sched, c: nat, lease: Lease)
    requires Consistent(s) && c < |s.chunks| && Unleased(s.leases, s.chunks[c].id)
    ensures Record(s.leases, lease).Some?
  {
    SlotAvailable(s, c);
  }

  // ----- Every entry point keeps the tables consistent -----

  lemma RegisterKeepsConsistent(s: Sched, worker: Worker, after: Sched)
    requires Consistent(s) && after == Register(s, worker).0
    ensures Consistent(after)
  {
    forall id | HasWorker(s.workers, id) ensures HasWorker(after.workers, id) {
      var w :| 0 <= w < |s.workers| && s.workers[w].id == id;
      assert after.workers[w].id == id;
    }
  }

  lemma SubmitKeepsConsistent(s: Sched, chunk: Chunk, after: Sched)
    requires Consistent(s) && after == Submit(s, chunk).0
    ensures Consistent(after)
  {
    forall id | HasChunk(s.chunks, id) ensures HasChunk(after.chunks, id) {
      var c :| 0 <= c < |s.chunks| && s.chunks[c].id == id;
      assert after.chunks[c].id == id;
    }
  }

  /** Same workers by position, whatever their reservations. */
  ghost predicate SameWorkerIds(a: seq<Worker>, b: seq<Worker>) {
    |a| == |b| && forall w :: 0 <= w < |a| ==> a[w].id == b[w].id
  }

  lemma SameWorkersResolve(a: seq<Worker>, b: seq<Worker>, id: WorkerId)
    requires SameWorkerIds(a, b) && HasWorker(a, id)
    ensures HasWorker(b, id)
  {
    var w :| 0 <= w < |a| && a[w].id == id;
    assert b[w].id == id;
  }

  lemma EndLeaseKeepsConsistent(s: Sched, l: nat, chunk: Chunk, after: Sched)
    requires Consistent(s) && l < |s.leases| && s.leases[l].isActive && after == EndLease(s, l, chunk)
    ensures Consistent(after) && SameWorkerIds(s.workers, after.workers)
    ensures Unleased(after.leases, s.leases[l].chunkId)
  {
    forall m | 0 <= m < |after.leases| && after.leases[m].isActive
      ensures HasChunk(after.chunks, after.leases[m].chunkId) && HasWorker(after.workers, after.leases[m].workerId)
    {
      assert after.leases[m] == s.leases[m];
      SameWorkersResolve(s.workers, after.workers, s.leases[m].workerId);
    }
  }

  lemma RecordKeeps(leases: seq<Lease>, lease: Lease, after: seq<Lease>)
    requires OneLeasePerChunk(leases) && Unleased(leases, lease.chunkId) && Record(leases, lease) == Some(after)
    ensures OneLeasePerChunk(after)
    ensures |after| <= MAX_CHUNKS || |after| == |leases|
    ensures forall m :: 0 <= m < |after| ==> after[m] == lease || (m < |leases| && after[m] == leases[m])
    ensures forall m :: 0 <= m < |leases| && leases[m].isActive ==> after[m] == leases[m]
    ensures lease in after
  {
    var slot := FreeSlotFrom(leases, 0);
    assert after[if slot >= 0 then slot else |leases|] == lease;
  }

  /** Placing an unleased chunk either changes nothing, or charges one worker and hands out and
      records exactly one lease: a reservation is never made without a lease. */
  lemma PlaceKeepsConsistent(t: Ticking, c: nat, nowMs: u64, after: Ticking)
    requires Consistent(t.s) && c < |t.s.chunks| && Unleased(t.s.leases, t.s.chunks[c].id)
    requires after == Place(t, c, nowMs)
    ensures Consistent(after.s) && after.s.chunks == t.s.chunks && SameWorkerIds(t.s.workers, after.s.workers)
    ensures Best(t.s.workers, t.s.chunks[c], |t.s.workers|) < 0 ==> after == t
    ensures Best(t.s.workers, t.s.chunks[c], |t.s.workers|) >= 0 ==>
              var b := Best(t.s.workers, t.s.chunks[c], |t.s.workers|);
              && after.out == t.out + [NewLease(t.s.chunks[c], t.s.workers[b], nowMs)]
              && after.s.workers == t.s.workers[b := Charge(t.s.workers[b], t.s.chunks[c])]
              && Record(t.s.leases, NewLease(t.s.chunks[c], t.s.workers[b], nowMs)) == Some(after.s.leases)
  {
    var chunk := t.s.chunks[c];
    var b := Best(t.s.workers, chunk, |t.s.workers|);
    if b >= 0 {
      var lease := NewLease(chunk, t.s.workers[b], nowMs);
      RecordSucceeds(t.s, c, lease);
      RecordKeeps(t.s.leases, lease, after.s.leases);
      assert HasChunk(t.s.chunks, chunk.id) && HasWorker(t.s.workers, lease.workerId);
      forall m | 0 <= m < |after.s.leases| && after.s.leases[m].isActive
        ensures HasChunk(after.s.chunks, after.s.leases[m].chunkId)
            && HasWorker(after.s.workers, after.s.leases[m].workerId)
      {
        SameWorkersResolve(t.s.workers, after.s.workers, after.s.leases[m].workerId);
      }
    }
  }

  /** The state from which chunk c may be placed has no lease left on it. */
  lemma ExpiryKeepsConsistent(s: Sched, c: nat, nowMs: u64, after: Sched)
    requires Consistent(s) && c < |s.chunks| && AfterExpiry(s, c, nowMs) == Some(after)
    ensures Consistent(after) && after.chunks == s.chunks && SameWorkerIds(s.workers, after.workers)
    ensures Unleased(after.leases, s.chunks[c].id)
  {
    var l := ActiveLeaseFrom(s.leases, s.chunks[c].id, 0);
    if l >= 0 {
      EndLeaseKeepsConsistent(s, l, s.chunks[c], after);
    }
  }

  lemma TurnKeepsConsistent(t: Ticking, c: nat, nowMs: u64, maxLeases: int, after: Ticking)
    requires Consistent(t.s) && c < |t.s.chunks| && after == LimitedTurn(t, c, nowMs, maxLeases)
    ensures Consistent(after.s) && after.s.chunks == t.s.chunks && SameWorkerIds(t.s.workers, after.s.workers)
  {
    if |t.out| < maxLeases && !t.s.chunks[c].isBlocked && AfterExpiry(t.s, c, nowMs).Some? {
      var ready := AfterExpiry(t.s, c, nowMs).value;
      ExpiryKeepsConsistent(t.s, c, nowMs, ready);
      PlaceKeepsConsistent(t.(s := ready), c, nowMs, after);
    }
  }

  lemma {:induction false} TickKeepsConsistent(s: Sched, nowMs: u64, maxLeases: int, c: nat)
    requires Consistent(s) && c <= |s.chunks|
    ensures var t := TicksTo(s, nowMs, maxLeases, c);
            Consistent(t.s) && SameWorkerIds(s.workers, t.s.workers)
    decreases c
  {
    if c > 0 {
      TickKeepsConsistent(s, nowMs, maxLeases, c - 1);
      TurnKeepsWorkers(s.workers, TicksTo(s, nowMs, maxLeases, c - 1), c - 1, nowMs, maxLeases,
                       TicksTo(s, nowMs, maxLeases, c));
    }
  }

  lemma TurnKeepsWorkers(workers: seq<Worker>, t: Ticking, c: nat, nowMs: u64, maxLeases: int, after: Ticking)
    requires Consistent(t.s) && SameWorkerIds(workers, t.s.workers)
    requires c < |t.s.chunks| && after == LimitedTurn(t, c, nowMs, maxLeases)
    ensures Consistent(after.s) && SameWorkerIds(workers, after.s.workers)
  {
    TurnKeepsConsistent(t, c, nowMs, maxLeases, after);
  }

  lemma ReleaseKeepsConsistent(s: Sched, chunkId: u64, after: Sched)
    requires Consistent(s) && after == Release(s, chunkId)
    ensures Consistent(after)
  {
    var l := ActiveLeaseFrom(s.leases, chunkId, 0);
    if l >= 0 {
      assert HasChunk(s.chunks, chunkId);
      var c := ChunkFrom(s.chunks, chunkId, 0);
      var ended := EndLease(s, l, s.chunks[c]);
      EndLeaseKeepsConsistent(s, l, s.chunks[c], ended);
      RemovalKeepsConsistent(ended, c, after);
    }
  }

  /** Removing an unleased chunk from the queue. */
  lemma RemovalKeepsConsistent(s: Sched, c: nat, after: Sched)
    requires Consistent(s) && c < |s.chunks| && Unleased(s.leases, s.chunks[c].id)
    requires after == s.(chunks := s.chunks[..c] + s.chunks[c + 1..])
    ensures Consistent(after)
  {
    forall m | 0 <= m < |s.leases| && s.leases[m].isActive ensures HasChunk(after.chunks, s.leases[m].chunkId) {
      assert !Covers(s.leases[m], s.chunks[c].id);
      var k :| 0 <= k < |s.chunks| && s.chunks[k].id == s.leases[m].chunkId;
      assert after.chunks[if k < c then k else k - 1] == s.chunks[k];
    }
  }

  // ----- No over-commitment -----

  ghost predicate WithinCapacity(worker: Worker) {
    worker.reservCpu <= worker.cpuUnits && worker.reservMemMb <= worker.freeMemMb
  }

  ghost predicate NoneOvercommitted(workers: seq<Worker>) {
    forall w :: 0 <= w < |workers| ==> WithinCapacity(workers[w])
  }

  /** A worker that passes the filters is charged without wrap-around, in whatever state it is. */
  lemma ChargeNeverWraps(worker: Worker, chunk: Chunk)
    requires HardFilters(chunk, worker)
    ensures worker.reservCpu + chunk.cpu < TWO_8 && worker.reservMemMb + chunk.memMb < TWO_64
    ensures WithinCapacity(worker) ==> WithinCapacity(Charge(worker, chunk))
  {
  }

  lemma EndLeaseKeepsCapacity(s: Sched, l: nat, chunk: Chunk)
    requires l < |s.leases| && NoneOvercommitted(s.workers)
    ensures NoneOvercommitted(EndLease(s, l, chunk).workers)
  {
  }

  lemma TurnKeepsCapacity(t: Ticking, c: nat, nowMs: u64, maxLeases: int, after: Ticking)
    requires c < |t.s.chunks| && NoneOvercommitted(t.s.workers) && after == LimitedTurn(t, c, nowMs, maxLeases)
    ensures NoneOvercommitted(after.s.workers)
  {
    if |t.out| < maxLeases && !t.s.chunks[c].isBlocked && AfterExpiry(t.s, c, nowMs).Some? {
      var ready := AfterExpiry(t.s, c, nowMs).value;
      assert NoneOvercommitted(ready.workers) by {
        var l := ActiveLeaseFrom(t.s.leases, t.s.chunks[c].id, 0);
        if l >= 0 {
          EndLeaseKeepsCapacity(t.s, l, t.s.chunks[c]);
        }
      }
      var b := Best(ready.workers, ready.chunks[c], |ready.workers|);
      if b >= 0 {
        ChargeNeverWraps(ready.workers[b], ready.chunks[c]);
      }
    }
  }

  lemma {:induction false} TickKeepsCapacity(s: Sched, nowMs: u64, maxLeases: int, c: nat)
    requires c <= |s.chunks| && NoneOvercommitted(s.workers)
    ensures NoneOvercommitted(TicksTo(s, nowMs, maxLeases, c).s.workers)
    decreases c
  {
    if c > 0 {
      TickKeepsCapacity(s, nowMs, maxLeases, c - 1);
      TurnKeepsCapacity(TicksTo(s, nowMs, maxLeases, c - 1), c - 1, nowMs, maxLeases, TicksTo(s, nowMs, maxLeases, c));
    }
  }

  // ----- Runs -----

  datatype Op =
    | RegisterOp(worker: Worker)
    | SubmitOp(chunk: Chunk)
    | TickOp(nowMs: u64, maxLeases: int)
    | ReleaseOp(chunkId: u64)

  function Step(s: Sched, op: Op): Sched {
    match op
    case RegisterOp(worker) => Register(s, worker).0
    case SubmitOp(chunk) => Submit(s, chunk).0
    case TickOp(nowMs, maxLeases) => Tick(s, nowMs, maxLeases).s
    case ReleaseOp(chunkId) => Release(s, chunkId)
  }

  lemma StepKeepsConsistent(s: Sched, op: Op, after: Sched)
    requires Consistent(s) && after == Step(s, op)
    ensures Consistent(after)
  {
    match op
    case RegisterOp(worker) => RegisterKeepsConsistent(s, worker, after);
    case SubmitOp(chunk) => SubmitKeepsConsistent(s, chunk, after);
    case TickOp(nowMs, maxLeases) => TickKeepsConsistent(s, nowMs, maxLeases, |s.chunks|);
    case ReleaseOp(chunkId) => ReleaseKeepsConsistent(s, chunkId, after);
  }

  ghost predicate RunStep(ops: seq<Op>, trace: seq<Sched>, t: int)
    requires 0 <= t < |ops| && |trace| == |ops| + 1
  {
    trace[t + 1] == Step(trace[t], ops[t])
  }

  /** The tables after initialisation and after each call of a run. */
  ghost predicate IsRun(ops: seq<Op>, trace: seq<Sched>) {
    && |trace| == |ops| + 1 && trace[0] == EMPTY
    && forall t :: 0 <= t < |ops| ==> RunStep(ops, trace, t)
  }

  lemma RunSnoc(ops: seq<Op>, trace: seq<Sched>, op: Op, next: Sched)
    requires IsRun(ops, trace) && next == Step(trace[|ops|], op)
    ensures IsRun(ops + [op], trace + [next])
  {
    var ops', trace' := ops + [op], trace + [next];
    forall t | 0 <= t < |ops'| ensures RunStep(ops', trace', t) {
      if t < |ops| {
        assert RunStep(ops, trace, t);
      }
    }
  }

  /** In every reachable state the active leases are for distinct queued chunks and name registered
      workers. */
  lemma {:induction false} RunsAreConsistent(ops: seq<Op>, trace: seq<Sched>, t: nat)
    requires IsRun(ops, trace) && t < |trace|
    ensures Consistent(trace[t])
    decreases t
  {
    if t > 0 {
      RunsAreConsistent(ops, trace, t - 1);
      assert RunStep(ops, trace, t - 1);
      StepKeepsConsistent(trace[t - 1], ops[t - 1], trace[t]);
    }
  }

  lemma StepKeepsCapacity(s: Sched, op: Op)
    requires NoneOvercommitted(s.workers)
    requires op.RegisterOp? ==> WithinCapacity(op.worker)
    ensures NoneOvercommitted(Step(s, op).workers)
  {
    if op.TickOp? {
      TickKeepsCapacity(s, op.nowMs, op.maxLeases, |s.chunks|);
    }
  }

  /** If every registered view is within its capacity, no worker is ever over-committed, even when
      workers are registered again or chunks resubmitted with other demands. */
  lemma {:induction false} RunsNeverOvercommit(ops: seq<Op>, trace: seq<Sched>, t: nat)
    requires IsRun(ops, trace) && t < |trace|
    requires forall u :: 0 <= u < |ops| && ops[u].RegisterOp? ==> WithinCapacity(ops[u].worker)
    ensures NoneOvercommitted(trace[t].workers)
    decreases t
  {
    if t > 0 {
      RunsNeverOvercommit(ops, trace, t - 1);
      assert RunStep(ops, trace, t - 1);
      StepKeepsCapacity(trace[t - 1], ops[t - 1]);
    }
  }
}
