/** Conservation of reservations (master/src/scheduler.c): what a worker has reserved is what it was
    registered with plus the demands of the active leases that name it. */
module SchedulerLedger {
  import opened MachineInts
  import opened Options
  import opened SchedulerModel
  import opened SchedulerInvariants

  /** The three quantities a placement charges. */
  datatype Kind = Cpu | Memory | Slots

  function Amount(kind: Kind, chunk: Chunk): nat {
    match kind
    case Cpu => chunk.cpu
    case Memory => chunk.memMb
    case Slots => 1
  }

  function Reserved(kind: Kind, worker: Worker): int {
    match kind
    case Cpu => worker.reservCpu
    case Memory => worker.reservMemMb
    case Slots => worker.activeChunks
  }

  function Demand(chunks: seq<Chunk>, id: u64, kind: Kind): nat {
    var c := ChunkFrom(chunks, id, 0);
    if c < 0 then 0 else Amount(kind, chunks[c])
  }

  /** What one lease holds of a worker. */
  function Weight(chunks: seq<Chunk>, lease: Lease, id: WorkerId, kind: Kind): nat {
    if lease.isActive && lease.workerId == id then Demand(chunks, lease.chunkId, kind) else 0
  }

  /** What the first n leases hold of a worker. */
  function Outstanding(chunks: seq<Chunk>, leases: seq<Lease>, id: WorkerId, kind: Kind, n: nat): nat
    requires n <= |leases|
  {
    if n == 0 then 0
    else Outstanding(chunks, leases, id, kind, n - 1) + Weight(chunks, leases[n - 1], id, kind)
  }

  type Baseline = map<WorkerId, Worker>

  ghost predicate BalancedAt(s: Sched, base: Baseline, w: int, kind: Kind)
    requires 0 <= w < |s.workers|
  {
    var id := s.workers[w].id;
    id in base
        && Reserved(kind, s.workers[w])
            == Reserved(kind, base[id]) + Outstanding(s.chunks, s.leases, id, kind, |s.leases|)
  }

  /** Every worker's reservations are its registered ones plus what its active leases hold. */
  ghost predicate Balanced(s: Sched, base: Baseline) {
    forall w, kind :: 0 <= w < |s.workers| ==> BalancedAt(s, base, w, kind)
  }

  // ----- Sums over leases -----

  lemma {:induction false} SameWeights(c1: seq<Chunk>, l1: seq<Lease>, c2: seq<Chunk>, l2: seq<Lease>, id: WorkerId,
                                       kind: Kind, n: nat)
    requires n <= |l1| && n <= |l2|
    requires forall l :: 0 <= l < n ==> Weight(c1, l1[l], id, kind) == Weight(c2, l2[l], id, kind)
    ensures Outstanding(c1, l1, id, kind, n) == Outstanding(c2, l2, id, kind, n)
    decreases n
  {
    if n > 0 {
      SameWeights(c1, l1, c2, l2, id, kind, n - 1);
    }
  }

  lemma {:induction false} OneWeightChanged(c1: seq<Chunk>, l1: seq<Lease>, c2: seq<Chunk>, l2: seq<Lease>,
                                            id: WorkerId, kind: Kind, n: nat, at: nat)
    requires at < n <= |l1| && n <= |l2|
    requires forall l :: 0 <= l < n && l != at ==> Weight(c1, l1[l], id, kind) == Weight(c2, l2[l], id, kind)
    ensures Outstanding(c2, l2, id, kind, n)
         == Outstanding(c1, l1, id, kind, n) - Weight(c1, l1[at], id, kind) + Weight(c2, l2[at], id, kind)
    decreases n
  {
    if at == n - 1 {
      SameWeights(c1, l1, c2, l2, id, kind, n - 1);
    } else {
      OneWeightChanged(c1, l1, c2, l2, id, kind, n - 1, at);
    }
  }

  lemma {:induction false} WeightIsOutstanding(chunks: seq<Chunk>, leases: seq<Lease>, id: WorkerId, kind: Kind,
                                               n: nat, l: nat)
    requires l < n <= |leases|
    ensures Weight(chunks, leases[l], id, kind) <= Outstanding(chunks, leases, id, kind, n)
    decreases n
  {
    if l < n - 1 {
      WeightIsOutstanding(chunks, leases, id, kind, n - 1, l);
    }
  }

  lemma {:induction false} NothingOutstanding(chunks: seq<Chunk>, leases: seq<Lease>, id: WorkerId, kind: Kind, n: nat)
    requires n <= |leases|
    requires forall l :: 0 <= l < n && leases[l].isActive ==> leases[l].workerId != id
    ensures Outstanding(chunks, leases, id, kind, n) == 0
    decreases n
  {
    if n > 0 {
      NothingOutstanding(chunks, leases, id, kind, n - 1);
    }
  }

  lemma DemandOfQueued(chunks: seq<Chunk>, c: nat, kind: Kind)
    requires DistinctChunks(chunks) && c < |chunks|
    ensures Demand(chunks, chunks[c].id, kind) == Amount(kind, chunks[c])
  {
  }

  // ----- Ending a lease -----

  /** In a balanced state the worker named by an active lease has at least the chunk's demand
      reserved, so the guards around the subtractions never skip one. */
  lemma GuardsHold(s: Sched, base: Baseline, l: nat, c: nat, w: nat)
    requires Consistent(s) && Balanced(s, base)
    requires l < |s.leases| && s.leases[l].isActive && c < |s.chunks| && s.chunks[c].id == s.leases[l].chunkId
    requires w < |s.workers| && s.workers[w].id == s.leases[l].workerId
    ensures s.workers[w].reservCpu >= s.chunks[c].cpu && s.workers[w].reservMemMb >= s.chunks[c].memMb
  {
    var id := s.workers[w].id;
    assert BalancedAt(s, base, w, Cpu) && BalancedAt(s, base, w, Memory);
    forall kind ensures Amount(kind, s.chunks[c]) <= Outstanding(s.chunks, s.leases, id, kind, |s.leases|) {
      WeightIsOutstanding(s.chunks, s.leases, id, kind, |s.leases|, l);
      DemandOfQueued(s.chunks, c, kind);
    }
    assert Reserved(Cpu, s.workers[w]) >= Amount(Cpu, s.chunks[c]);
    assert Reserved(Memory, s.workers[w]) >= Amount(Memory, s.chunks[c]);
  }

  lemma RefundAmount(worker: Worker, chunk: Chunk, kind: Kind)
    requires worker.reservCpu >= chunk.cpu && worker.reservMemMb >= chunk.memMb
    ensures Reserved(kind, Refund(worker, chunk)) == Reserved(kind, worker) - Amount(kind, chunk)
  {
  }

  lemma EndLeaseBalanced(s: Sched, base: Baseline, l: nat, c: nat, after: Sched)
    requires Consistent(s) && Balanced(s, base)
    requires l < |s.leases| && s.leases[l].isActive && c < |s.chunks| && s.chunks[c].id == s.leases[l].chunkId
    requires after == EndLease(s, l, s.chunks[c])
    ensures Balanced(after, base)
  {
    assert HasWorker(s.workers, s.leases[l].workerId);
    var v := WorkerFrom(s.workers, s.leases[l].workerId, 0);
    GuardsHold(s, base, l, c, v);
    forall w, kind | 0 <= w < |after.workers| ensures BalancedAt(after, base, w, kind) {
      var id := s.workers[w].id;
      assert BalancedAt(s, base, w, kind);
      OneWeightChanged(s.chunks, s.leases, s.chunks, after.leases, id, kind, |s.leases|, l);
      DemandOfQueued(s.chunks, c, kind);
      if w == v {
        RefundAmount(s.workers[w], s.chunks[c], kind);
      } else {
        assert id != s.leases[l].workerId;
      }
    }
  }

  // ----- Placing a chunk -----

  lemma ChargeAmount(worker: Worker, chunk: Chunk, kind: Kind)
    requires HardFilters(chunk, worker)
    ensures Reserved(kind, Charge(worker, chunk)) == Reserved(kind, worker) + Amount(kind, chunk)
  {
    ChargeNeverWraps(worker, chunk);
  }

  lemma SlotOutstanding(chunks: seq<Chunk>, leases: seq<Lease>, lease: Lease, slot: nat, id: WorkerId, kind: Kind)
    requires slot < |leases| && !leases[slot].isActive
    ensures Outstanding(chunks, leases[slot := lease], id, kind, |leases|)
         == Outstanding(chunks, leases, id, kind, |leases|) + Weight(chunks, lease, id, kind)
  {
    OneWeightChanged(chunks, leases, chunks, leases[slot := lease], id, kind, |leases|, slot);
  }

  lemma SnocOutstanding(chunks: seq<Chunk>, leases: seq<Lease>, lease: Lease, id: WorkerId, kind: Kind)
    ensures Outstanding(chunks, leases + [lease], id, kind, |leases| + 1)
         == Outstanding(chunks, leases, id, kind, |leases|) + Weight(chunks, lease, id, kind)
  {
    var after := leases + [lease];
    SameWeights(chunks, leases, chunks, after, id, kind, |leases|);
    assert after[|leases|] == lease;
  }

  /** Recording a new active lease adds exactly its own weight. */
  lemma RecordOutstanding(chunks: seq<Chunk>, leases: seq<Lease>, lease: Lease, after: seq<Lease>, id: WorkerId,
                          kind: Kind)
    requires Record(leases, lease) == Some(after)
    ensures Outstanding(chunks, after, id, kind, |after|)
         == Outstanding(chunks, leases, id, kind, |leases|) + Weight(chunks, lease, id, kind)
  {
    var slot := FreeSlotFrom(leases, 0);
    if slot >= 0 {
      assert after == leases[slot := lease] && |after| == |leases|;
      SlotOutstanding(chunks, leases, lease, slot, id, kind);
    } else {
      assert after == leases + [lease] && |after| == |leases| + 1;
      SnocOutstanding(chunks, leases, lease, id, kind);
    }
  }

  lemma PlaceBalanced(t: Ticking, base: Baseline, c: nat, nowMs: u64, after: Ticking)
    requires Consistent(t.s) && Balanced(t.s, base) && c < |t.s.chunks| && Unleased(t.s.leases, t.s.chunks[c].id)
    requires after == Place(t, c, nowMs)
    ensures Balanced(after.s, base)
  {
    PlaceKeepsConsistent(t, c, nowMs, after);
    var s, chunk := t.s, t.s.chunks[c];
    var b := Best(s.workers, chunk, |s.workers|);
    if b >= 0 {
      var lease := NewLease(chunk, s.workers[b], nowMs);
      forall w, kind | 0 <= w < |after.s.workers| ensures BalancedAt(after.s, base, w, kind) {
        var id := s.workers[w].id;
        assert BalancedAt(s, base, w, kind);
        RecordOutstanding(s.chunks, s.leases, lease, after.s.leases, id, kind);
        DemandOfQueued(s.chunks, c, kind);
        if w == b {
          ChargeAmount(s.workers[w], chunk, kind);
        } else {
          assert id != lease.workerId;
        }
      }
    }
  }

  lemma TurnBalanced(t: Ticking, base: Baseline, c: nat, nowMs: u64, maxLeases: int, after: Ticking)
    requires Consistent(t.s) && Balanced(t.s, base) && c < |t.s.chunks| && after == LimitedTurn(t, c, nowMs, maxLeases)
    ensures Balanced(after.s, base)
  {
    if |t.out| < maxLeases && !t.s.chunks[c].isBlocked && AfterExpiry(t.s, c, nowMs).Some? {
      var ready := AfterExpiry(t.s, c, nowMs).value;
      ExpiryKeepsConsistent(t.s, c, nowMs, ready);
      var l := ActiveLeaseFrom(t.s.leases, t.s.chunks[c].id, 0);
      if l >= 0 {
        EndLeaseBalanced(t.s, base, l, c, ready);
      }
      PlaceBalanced(t.(s := ready), base, c, nowMs, after);
    }
  }

  lemma {:induction false} TickBalanced(s: Sched, base: Baseline, nowMs: u64, maxLeases: int, c: nat)
    requires Consistent(s) && Balanced(s, base) && c <= |s.chunks|
    ensures Balanced(TicksTo(s, nowMs, maxLeases, c).s, base)
    decreases c
  {
    if c > 0 {
      TickBalanced(s, base, nowMs, maxLeases, c - 1);
      TickKeepsConsistent(s, nowMs, maxLeases, c - 1);
      TurnBalanced(TicksTo(s, nowMs, maxLeases, c - 1), base, c - 1, nowMs, maxLeases, TicksTo(s, nowMs, maxLeases, c));
    }
  }

  // ----- Releasing, registering, submitting -----

  lemma DemandWithout(chunks: seq<Chunk>, c: nat, id: u64, kind: Kind)
    requires DistinctChunks(chunks) && c < |chunks| && id != chunks[c].id
    ensures Demand(chunks[..c] + chunks[c + 1..], id, kind) == Demand(chunks, id, kind)
  {
    var rest := chunks[..c] + chunks[c + 1..];
    var k := ChunkFrom(chunks, id, 0);
    if k >= 0 {
      var k' := if k < c then k else k - 1;
      assert rest[k'] == chunks[k];
      assert DistinctChunks(rest);
      DemandOfQueued(rest, k', kind);
    } else {
      assert forall m :: 0 <= m < |rest| ==> rest[m] == chunks[if m < c then m else m + 1];
    }
  }

  lemma RemovalBalanced(s: Sched, base: Baseline, c: nat, after: Sched)
    requires Consistent(s) && Balanced(s, base) && c < |s.chunks| && Unleased(s.leases, s.chunks[c].id)
    requires after == s.(chunks := s.chunks[..c] + s.chunks[c + 1..])
    ensures Balanced(after, base)
  {
    forall w, kind | 0 <= w < |after.workers| ensures BalancedAt(after, base, w, kind) {
      var id := s.workers[w].id;
      assert BalancedAt(s, base, w, kind);
      forall l | 0 <= l < |s.leases|
        ensures Weight(s.chunks, s.leases[l], id, kind) == Weight(after.chunks, s.leases[l], id, kind)
      {
        if s.leases[l].isActive {
          assert !Covers(s.leases[l], s.chunks[c].id);
          DemandWithout(s.chunks, c, s.leases[l].chunkId, kind);
        }
      }
      SameWeights(s.chunks, s.leases, after.chunks, s.leases, id, kind, |s.leases|);
    }
  }

  lemma ReleaseBalanced(s: Sched, base: Baseline, chunkId: u64, after: Sched)
    requires Consistent(s) && Balanced(s, base) && after == Release(s, chunkId)
    ensures Balanced(after, base)
  {
    var l := ActiveLeaseFrom(s.leases, chunkId, 0);
    if l >= 0 {
      assert HasChunk(s.chunks, chunkId);
      var c := ChunkFrom(s.chunks, chunkId, 0);
      var ended := EndLease(s, l, s.chunks[c]);
      EndLeaseKeepsConsistent(s, l, s.chunks[c], ended);
      EndLeaseBalanced(s, base, l, c, ended);
      RemovalBalanced(ended, base, c, after);
    }
  }

  /** The baseline gains the view of each newly registered worker. */
  function Rebased(base: Baseline, s: Sched, op: Op): Baseline {
    if op.RegisterOp? && Register(s, op.worker).1 then base[op.worker.id := op.worker] else base
  }

  lemma RegisterNewBalanced(s: Sched, base: Baseline, worker: Worker, after: Sched)
    requires Consistent(s) && Balanced(s, base) && !HasWorker(s.workers, worker.id)
    requires after == Register(s, worker).0
    ensures Balanced(after, Rebased(base, s, RegisterOp(worker)))
  {
    var base' := Rebased(base, s, RegisterOp(worker));
    forall w, kind | 0 <= w < |after.workers| ensures BalancedAt(after, base', w, kind) {
      if w < |s.workers| {
        assert after.workers[w] == s.workers[w] && BalancedAt(s, base, w, kind);
        assert s.workers[w].id != worker.id;
      } else {
        forall l | 0 <= l < |s.leases| && s.leases[l].isActive ensures s.leases[l].workerId != worker.id {
          assert HasWorker(s.workers, s.leases[l].workerId);
        }
        NothingOutstanding(s.chunks, s.leases, worker.id, kind, |s.leases|);
      }
    }
  }

  /** Resubmitting a chunk does not change the demand of any active lease. */
  ghost predicate DemandKept(s: Sched, chunk: Chunk) {
    forall c :: 0 <= c < |s.chunks| && s.chunks[c].id == chunk.id && !Unleased(s.leases, chunk.id) ==>
      s.chunks[c].cpu == chunk.cpu && s.chunks[c].memMb == chunk.memMb
  }

  lemma SubmitDemand(s: Sched, chunk: Chunk, after: Sched, id: u64, kind: Kind)
    requires DistinctChunks(s.chunks) && after == Submit(s, chunk).0 && HasChunk(s.chunks, id)
    requires id == chunk.id ==> Demand(s.chunks, id, kind) == Amount(kind, chunk)
    ensures Demand(after.chunks, id, kind) == Demand(s.chunks, id, kind)
  {
    var k := ChunkFrom(s.chunks, id, 0);
    assert after.chunks[k].id == id;
    assert ChunkFrom(after.chunks, id, 0) == k;
  }

  lemma SubmitBalanced(s: Sched, base: Baseline, chunk: Chunk, after: Sched)
    requires Consistent(s) && Balanced(s, base) && DemandKept(s, chunk) && after == Submit(s, chunk).0
    ensures Balanced(after, base)
  {
    forall w, kind | 0 <= w < |after.workers| ensures BalancedAt(after, base, w, kind) {
      var id := s.workers[w].id;
      assert BalancedAt(s, base, w, kind);
      forall l | 0 <= l < |s.leases|
        ensures Weight(s.chunks, s.leases[l], id, kind) == Weight(after.chunks, s.leases[l], id, kind)
      {
        var lease := s.leases[l];
        if lease.isActive {
          assert HasChunk(s.chunks, lease.chunkId);
          if lease.chunkId == chunk.id {
            assert Covers(s.leases[l], chunk.id);
            assert s.chunks[ChunkFrom(s.chunks, chunk.id, 0)].id == chunk.id;
          }
          SubmitDemand(s, chunk, after, lease.chunkId, kind);
        }
      }
      SameWeights(s.chunks, s.leases, after.chunks, s.leases, id, kind, |s.leases|);
    }
  }

  // ----- Runs -----

  /** The call neither registers a worker again nor changes the demand of a leased chunk. */
  ghost predicate Careful(s: Sched, op: Op) {
    match op
    case RegisterOp(worker) => !HasWorker(s.workers, worker.id)
    case SubmitOp(chunk) => DemandKept(s, chunk)
    case TickOp(_, _) => true
    case ReleaseOp(_) => true
  }

  lemma StepBalanced(s: Sched, base: Baseline, op: Op, after: Sched)
    requires Consistent(s) && Balanced(s, base) && Careful(s, op) && after == Step(s, op)
    ensures Balanced(after, Rebased(base, s, op))
  {
    match op
    case RegisterOp(worker) => RegisterNewBalanced(s, base, worker, after);
    case SubmitOp(chunk) => SubmitBalanced(s, base, chunk, after);
    case TickOp(nowMs, maxLeases) => TickBalanced(s, base, nowMs, maxLeases, |s.chunks|);
    case ReleaseOp(chunkId) => ReleaseBalanced(s, base, chunkId, after);
  }

  /** The views the workers were registered with in the first t calls of a run. */
  ghost function BaselineAt(ops: seq<Op>, trace: seq<Sched>, t: nat): Baseline
    requires t <= |ops| && |trace| == |ops| + 1
  {
    if t == 0 then map[] else Rebased(BaselineAt(ops, trace, t - 1), trace[t - 1], ops[t - 1])
  }

  ghost predicate CarefulStep(ops: seq<Op>, trace: seq<Sched>, t: int)
    requires 0 <= t < |ops| && |trace| == |ops| + 1
  {
    Careful(trace[t], ops[t])
  }

  /** Conservation over every careful run: at all times each worker's reserved CPU, reserved memory
      and active chunk count are its registered ones plus what the active leases naming it hold. */
  lemma {:induction false} RunsConserve(ops: seq<Op>, trace: seq<Sched>, t: nat)
    requires IsRun(ops, trace) && t <= |ops|
    requires forall u :: 0 <= u < |ops| ==> CarefulStep(ops, trace, u)
    ensures Balanced(trace[t], BaselineAt(ops, trace, t))
    decreases t
  {
    if t > 0 {
      RunsConserve(ops, trace, t - 1);
      RunsAreConsistent(ops, trace, t - 1);
      assert RunStep(ops, trace, t - 1) && CarefulStep(ops, trace, t - 1);
      StepBalanced(trace[t - 1], BaselineAt(ops, trace, t - 1), ops[t - 1], trace[t]);
    }
  }

  // ----- The two hypotheses are exact -----

  /** Registering a known worker again keeps the ledger exactly when the new view reports the
      reservations it overwrites. */
  lemma ReRegisterBalancedIff(s: Sched, base: Baseline, worker: Worker, w: nat)
    requires Consistent(s) && Balanced(s, base) && w < |s.workers| && s.workers[w].id == worker.id
    ensures Balanced(Register(s, worker).0, base) <==>
            forall kind :: Reserved(kind, worker) == Reserved(kind, s.workers[w])
  {
    var after := Register(s, worker).0;
    assert WorkerFrom(s.workers, worker.id, 0) == w;
    forall kind ensures BalancedAt(after, base, w, kind) <==> Reserved(kind, worker) == Reserved(kind, s.workers[w]) {
      assert BalancedAt(s, base, w, kind);
    }
    forall v, kind | 0 <= v < |s.workers| && v != w ensures BalancedAt(after, base, v, kind) {
      assert BalancedAt(s, base, v, kind);
    }
    if forall kind :: Reserved(kind, worker) == Reserved(kind, s.workers[w]) {
      forall v, kind | 0 <= v < |after.workers| ensures BalancedAt(after, base, v, kind) {
        assert Reserved(kind, worker) == Reserved(kind, s.workers[w]);
      }
    }
    if Balanced(after, base) {
      forall kind ensures Reserved(kind, worker) == Reserved(kind, s.workers[w]) {
        assert BalancedAt(after, base, w, kind);
      }
    }
  }

  /** Resubmitting a chunk while it is leased keeps the ledger exactly when its demand stays. */
  lemma ResubmitBalancedIff(s: Sched, base: Baseline, chunk: Chunk, c: nat)
    requires Consistent(s) && Balanced(s, base) && c < |s.chunks| && s.chunks[c].id == chunk.id
    requires !Unleased(s.leases, chunk.id)
    ensures Balanced(Submit(s, chunk).0, base) <==> s.chunks[c].cpu == chunk.cpu && s.chunks[c].memMb == chunk.memMb
  {
    var after := Submit(s, chunk).0;
    if Balanced(after, base) {
      forall kind ensures Amount(kind, chunk) == Amount(kind, s.chunks[c]) {
        LeasedDemandPinned(s, base, chunk, c, after, kind);
      }
      assert Amount(Cpu, chunk) == Amount(Cpu, s.chunks[c]) && Amount(Memory, chunk) == Amount(Memory, s.chunks[c]);
    } else if s.chunks[c].cpu == chunk.cpu && s.chunks[c].memMb == chunk.memMb {
      assert DemandKept(s, chunk) by {
        forall k | 0 <= k < |s.chunks| && s.chunks[k].id == chunk.id ensures k == c {
        }
      }
      SubmitBalanced(s, base, chunk, after);
    }
  }

  lemma LeasedDemandPinned(s: Sched, base: Baseline, chunk: Chunk, c: nat, after: Sched, kind: Kind)
    requires Consistent(s) && Balanced(s, base) && c < |s.chunks| && s.chunks[c].id == chunk.id
    requires !Unleased(s.leases, chunk.id) && after == Submit(s, chunk).0 && Balanced(after, base)
    ensures Amount(kind, chunk) == Amount(kind, s.chunks[c])
  {
    var l: nat :| l < |s.leases| && Covers(s.leases[l], chunk.id);
    assert HasWorker(s.workers, s.leases[l].workerId);
    var w := WorkerFrom(s.workers, s.leases[l].workerId, 0);
    var id := s.workers[w].id;
    assert BalancedAt(s, base, w, kind) && BalancedAt(after, base, w, kind);
    forall m | 0 <= m < |s.leases| && m != l
      ensures Weight(s.chunks, s.leases[m], id, kind) == Weight(after.chunks, s.leases[m], id, kind)
    {
      if s.leases[m].isActive {
        assert HasChunk(s.chunks, s.leases[m].chunkId);
        SubmitDemand(s, chunk, after, s.leases[m].chunkId, kind);
      }
    }
    OneWeightChanged(s.chunks, s.leases, after.chunks, s.leases, id, kind, |s.leases|, l);
    DemandOfQueued(s.chunks, c, kind);
    assert ChunkFrom(s.chunks, chunk.id, 0) == c && after.chunks[c] == chunk;
    assert ChunkFrom(after.chunks, chunk.id, 0) == c;
  }

  // ----- Both failures happen in runs -----

  /** The state after a worker has been registered, a chunk queued and the chunk leased. */
  function OneLease(worker: Worker, chunk: Chunk): Sched {
    Sched([Charge(worker, chunk)], [chunk], [NewLease(chunk, worker, 0)])
  }

  lemma OneLeaseTick(worker: Worker, chunk: Chunk)
    requires Placeable(chunk, worker) && !chunk.isBlocked
    ensures Tick(Sched([worker], [chunk], []), 0, 1).s == OneLease(worker, chunk)
  {
    var s := Sched([worker], [chunk], []);
    assert TicksTo(s, 0, 1, 0) == Ticking(s, []);
    assert Best([worker], chunk, 1) == 0 by {
      assert Placeable(chunk, s.workers[0]);
    }
    assert s.workers[0 := Charge(worker, chunk)] == [Charge(worker, chunk)];
  }

  /** Every worker and every chunk it can take make such a run, and its ledger balances. */
  lemma OneLeaseRun(worker: Worker, chunk: Chunk) returns (ops: seq<Op>, trace: seq<Sched>)
    requires Placeable(chunk, worker) && !chunk.isBlocked
    ensures IsRun(ops, trace) && |ops| == 3 && trace[3] == OneLease(worker, chunk)
    ensures Consistent(trace[3]) && Balanced(trace[3], BaselineAt(ops, trace, 3))
  {
    OneLeaseTick(worker, chunk);
    ops := [RegisterOp(worker), SubmitOp(chunk), TickOp(0, 1)];
    trace := [EMPTY, Sched([worker], [], []), Sched([worker], [chunk], []), OneLease(worker, chunk)];
    assert RunStep(ops, trace, 0) && RunStep(ops, trace, 1) && RunStep(ops, trace, 2);
    assert CarefulStep(ops, trace, 0) && CarefulStep(ops, trace, 1) && CarefulStep(ops, trace, 2);
    RunsConserve(ops, trace, 3);
    RunsAreConsistent(ops, trace, 3);
  }

  /** In each of these runs, registering the worker again as it was loses the lease's reservations. */
  lemma ReRegisterCounterexample(worker: Worker, chunk: Chunk) returns (ops: seq<Op>, trace: seq<Sched>)
    requires Placeable(chunk, worker) && !chunk.isBlocked
    ensures IsRun(ops, trace) && |ops| == 3 && Balanced(trace[3], BaselineAt(ops, trace, 3))
    ensures !Balanced(Register(trace[3], worker).0, BaselineAt(ops, trace, 3))
  {
    ops, trace := OneLeaseRun(worker, chunk);
    ReRegisterBalancedIff(trace[3], BaselineAt(ops, trace, 3), worker, 0);
    assert Reserved(Slots, worker) != Reserved(Slots, trace[3].workers[0]);
  }

  /** In each of these runs, resubmitting the leased chunk with another demand unbalances the ledger. */
  lemma ResubmitCounterexample(worker: Worker, chunk: Chunk, changed: Chunk) returns (ops: seq<Op>, trace: seq<Sched>)
    requires Placeable(chunk, worker) && !chunk.isBlocked
    requires changed.id == chunk.id && (changed.cpu != chunk.cpu || changed.memMb != chunk.memMb)
    ensures IsRun(ops, trace) && |ops| == 3 && Balanced(trace[3], BaselineAt(ops, trace, 3))
    ensures !Balanced(Submit(trace[3], changed).0, BaselineAt(ops, trace, 3))
  {
    ops, trace := OneLeaseRun(worker, chunk);
    assert Covers(trace[3].leases[0], chunk.id);
    ResubmitBalancedIff(trace[3], BaselineAt(ops, trace, 3), changed, 0);
  }
}
