/** The scheduler's in-place tables and entry points (master/src/scheduler.c). Every method is proved
    to have exactly the effect that SchedulerModel describes, so the invariants, the ledger and the
    greedy properties proved there hold of the tables. */
module Scheduler {
  import opened MachineInts
  import opened SchedulerModel
  import opened SchedulerInvariants

  lemma ReleasedWithChunk(s: Sched, chunkId: u64, l: nat, c: nat)
    requires l == ActiveLeaseFrom(s.leases, chunkId, 0) && c == ChunkFrom(s.chunks, chunkId, 0)
    ensures Release(s, chunkId) == EndLease(s, l, s.chunks[c]).(chunks := s.chunks[..c] + s.chunks[c + 1..])
  {
  }

  lemma ReleasedAlone(s: Sched, chunkId: u64, l: nat)
    requires l == ActiveLeaseFrom(s.leases, chunkId, 0) && ChunkFrom(s.chunks, chunkId, 0) < 0
    ensures Release(s, chunkId) == s.(leases := s.leases[l := s.leases[l].(isActive := false)])
  {
  }

  lemma DroppedIs(was: seq<Chunk>, c: nat, now: seq<Chunk>)
    requires c < |was| && |now| == |was| - 1
    requires (forall k :: 0 <= k < c ==> now[k] == was[k]) && (forall k :: c <= k < |now| ==> now[k] == was[k + 1])
    ensures now == was[..c] + was[c + 1..]
  {
  }

  /** The highest score the search has met among the first n workers. */
  ghost function Peak(workers: seq<Worker>, chunk: Chunk, n: nat): real
    requires n <= |workers|
  {
    var b := Best(workers, chunk, n);
    if b < 0 then SCORE_FLOOR else Score(chunk, workers[b]).value
  }

  lemma PeakNext(workers: seq<Worker>, chunk: Chunk, n: nat)
    requires n < |workers|
    ensures var better := HardFilters(chunk, workers[n]) && Score(chunk, workers[n]).Some?
                          && Score(chunk, workers[n]).value > Peak(workers, chunk, n);
            && Best(workers, chunk, n + 1) == (if better then n else Best(workers, chunk, n))
            && Peak(workers, chunk, n + 1) == if better then Score(chunk, workers[n]).value else Peak(workers, chunk, n)
  {
  }

  class Tables {
    const workers: array<Worker>
    var workerCount: nat
    const chunks: array<Chunk>
    var chunkCount: nat
    const leases: array<Lease>
    var leaseCount: nat

    ghost predicate InRange()
      reads this
    {
      && workers.Length == MAX_WORKERS && chunks.Length == MAX_CHUNKS && leases.Length == MAX_CHUNKS
      && workerCount <= MAX_WORKERS && chunkCount <= MAX_CHUNKS && leaseCount <= MAX_CHUNKS
    }

    ghost function Model(): Sched
      requires InRange()
      reads this, workers, chunks, leases
    {
      Sched(workers[..workerCount], chunks[..chunkCount], leases[..leaseCount])
    }

    ghost predicate Valid()
      reads this, workers, chunks, leases
    {
      InRange() && Consistent(Model())
    }

    constructor ()
      ensures Valid() && Model() == EMPTY
      ensures fresh(workers) && fresh(chunks) && fresh(leases)
    {
      workers := new Worker[MAX_WORKERS](_ => Worker("", 0, 0, 0, 0, 0, 0, 0.0, 0, false, false, false, 0.0));
      chunks := new Chunk[MAX_CHUNKS](_ => Chunk(0, 0, 0, 0, 0, false, false, 0));
      leases := new Lease[MAX_CHUNKS](_ => Lease(0, "", 0, false));
      workerCount, chunkCount, leaseCount := 0, 0, 0;
    }

    method FindWorker(id: WorkerId) returns (k: int)
      requires InRange()
      ensures k == WorkerFrom(Model().workers, id, 0)
    {
      for i := 0 to workerCount
        invariant forall m :: 0 <= m < i ==> workers[m].id != id
      {
        if workers[i].id == id {
          assert Model().workers[i] == workers[i];
          return i;
        }
      }
      k := -1;
    }

    method FindChunk(id: u64) returns (k: int)
      requires InRange()
      ensures k == ChunkFrom(Model().chunks, id, 0)
    {
      for i := 0 to chunkCount
        invariant forall m :: 0 <= m < i ==> chunks[m].id != id
      {
        if chunks[i].id == id {
          assert Model().chunks[i] == chunks[i];
          return i;
        }
      }
      k := -1;
    }

    method FindActiveLease(chunkId: u64) returns (k: int)
      requires InRange()
      ensures k == ActiveLeaseFrom(Model().leases, chunkId, 0)
    {
      for l := 0 to leaseCount
        invariant forall m :: 0 <= m < l ==> !Covers(leases[m], chunkId)
      {
        if leases[l].chunkId == chunkId && leases[l].isActive {
          assert Covers(Model().leases[l], chunkId);
          return l;
        }
      }
      k := -1;
    }

    method FindFreeSlot() returns (k: int)
      requires InRange()
      ensures k == FreeSlotFrom(Model().leases, 0)
    {
      for i := 0 to leaseCount
        invariant forall m :: 0 <= m < i ==> leases[m].isActive
      {
        if !leases[i].isActive {
          assert Model().leases[i] == leases[i];
          return i;
        }
      }
      k := -1;
    }

    /** The search for the best worker keeps the highest score so far and replaces it only by a
        strictly higher one. */
    method FindBestWorker(chunk: Chunk) returns (best: int)
      requires InRange()
      ensures best == Best(Model().workers, chunk, workerCount)
    {
      best := -1;
      var highest := SCORE_FLOOR;
      ghost var ws := Model().workers;
      for w := 0 to workerCount
        invariant best == Best(ws, chunk, w) && highest == Peak(ws, chunk, w)
      {
        PeakNext(ws, chunk, w);
        if HardFilters(chunk, workers[w]) {
          var score := Score(chunk, workers[w]);
          if score.Some? && score.value > highest {
            highest := score.value;
            best := w;
          }
        }
      }
    }

    method RegisterWorker(worker: Worker) returns (ok: bool)
      requires Valid()
      modifies this, workers
      ensures Valid() && (Model(), ok) == Register(old(Model()), worker)
    {
      var i := FindWorker(worker.id);
      RegisterKeepsConsistent(Model(), worker, Register(Model(), worker).0);
      if i >= 0 {
        workers[i] := worker;
        assert workers[..workerCount] == old(workers[..workerCount])[i := worker];
        return true;
      }
      if workerCount >= MAX_WORKERS {
        return false;
      }
      workers[workerCount] := worker;
      workerCount := workerCount + 1;
      assert workers[..workerCount] == old(workers[..workerCount]) + [worker];
      return true;
    }

    method SubmitReadyChunk(chunk: Chunk) returns (ok: bool)
      requires Valid()
      modifies this, chunks
      ensures Valid() && (Model(), ok) == Submit(old(Model()), chunk)
    {
      var i := FindChunk(chunk.id);
      SubmitKeepsConsistent(Model(), chunk, Submit(Model(), chunk).0);
      if i >= 0 {
        chunks[i] := chunk;
        assert chunks[..chunkCount] == old(chunks[..chunkCount])[i := chunk];
        return true;
      }
      if chunkCount >= MAX_CHUNKS {
        return false;
      }
      chunks[chunkCount] := chunk;
      chunkCount := chunkCount + 1;
      assert chunks[..chunkCount] == old(chunks[..chunkCount]) + [chunk];
      return true;
    }

    /** Lease l becomes inactive and its worker is refunded. */
    method EndLeaseAt(l: nat, chunk: Chunk)
      requires InRange() && l < leaseCount
      modifies leases, workers
      ensures Model() == EndLease(old(Model()), l, chunk)
    {
      leases[l] := leases[l].(isActive := false);
      assert leases[..leaseCount] == old(leases[..leaseCount])[l := old(leases[l]).(isActive := false)];
      var w := FindWorker(leases[l].workerId);
      if w >= 0 {
        workers[w] := Refund(workers[w], chunk);
        assert workers[..workerCount] == old(workers[..workerCount])[w := Refund(old(workers[w]), chunk)];
      }
    }

    /** Charge the best worker and record the lease. */
    method PlaceChunk(c: nat, nowMs: u64, out: seq<Lease>) returns (out': seq<Lease>)
      requires InRange() && c < chunkCount
      modifies this`leaseCount, leases, workers
      ensures InRange() && Ticking(Model(), out') == Place(old(Ticking(Model(), out)), c, nowMs)
    {
      out' := out;
      var chunk := chunks[c];
      var best := FindBestWorker(chunk);
      if best >= 0 {
        var lease := NewLease(chunk, workers[best], nowMs);
        workers[best] := Charge(workers[best], chunk);
        assert workers[..workerCount] == old(workers[..workerCount])[best := Charge(old(workers[best]), chunk)];
        var recorded := RecordLease(lease);
        if recorded {
          out' := out + [lease];
        }
      }
    }

    /** The lease goes to the first free slot, or to the end of the table while there is room. */
    method RecordLease(lease: Lease) returns (recorded: bool)
      requires InRange()
      modifies this`leaseCount, leases
      ensures InRange() && recorded == Record(old(Model()).leases, lease).Some?
      ensures Model()
          == if recorded then old(Model()).(leases := Record(old(Model()).leases, lease).value) else old(Model())
    {
      var slot := FindFreeSlot();
      if slot >= 0 {
        leases[slot] := lease;
        assert leases[..leaseCount] == old(leases[..leaseCount])[slot := lease];
      } else if leaseCount < MAX_CHUNKS {
        leases[leaseCount] := lease;
        leaseCount := leaseCount + 1;
        assert leases[..leaseCount] == old(leases[..leaseCount]) + [lease];
      } else {
        return false;
      }
      recorded := true;
    }

    method TakeTurn(c: nat, nowMs: u64, out: seq<Lease>) returns (out': seq<Lease>)
      requires InRange() && c < chunkCount
      modifies this`leaseCount, leases, workers
      ensures InRange() && Ticking(Model(), out') == Turn(old(Ticking(Model(), out)), c, nowMs)
    {
      if chunks[c].isBlocked {
        return out;
      }
      assert chunks[c] == Model().chunks[c];
      var l := FindActiveLease(chunks[c].id);
      if l >= 0 {
        assert leases[l] == Model().leases[l];
        if nowMs > leases[l].expiresMs {
          EndLeaseAt(l, chunks[c]);
        } else {
          return out;
        }
      }
      out' := PlaceChunk(c, nowMs, out);
    }

    method RunTick(nowMs: u64, maxLeases: int) returns (out: seq<Lease>)
      requires Valid()
      modifies this`leaseCount, leases, workers
      ensures Valid() && Ticking(Model(), out) == Tick(old(Model()), nowMs, maxLeases)
    {
      TickKeepsConsistent(Model(), nowMs, maxLeases, chunkCount);
      out := TakeTurns(nowMs, maxLeases);
    }

    /** The chunks in queue order, until enough leases are out. */
    method TakeTurns(nowMs: u64, maxLeases: int) returns (out: seq<Lease>)
      requires InRange()
      modifies this`leaseCount, leases, workers
      ensures InRange() && Ticking(Model(), out) == Tick(old(Model()), nowMs, maxLeases)
    {
      out := [];
      var c := 0;
      while c < chunkCount
        invariant InRange() && c <= chunkCount
        invariant Ticking(Model(), out) == TicksTo(old(Model()), nowMs, maxLeases, c)
      {
        if |out| >= maxLeases {
          break;
        }
        out := TakeTurn(c, nowMs, out);
        c := c + 1;
      }
      TicksStop(old(Model()), nowMs, maxLeases, c, chunkCount);
    }

    method ReleaseLease(chunkId: u64)
      requires InRange()
      modifies this`chunkCount, chunks, leases, workers
      ensures InRange() && Model() == Release(old(Model()), chunkId)
      ensures old(Valid()) ==> Valid()
    {
      var l := FindActiveLease(chunkId);
      if l >= 0 {
        FinishLease(l, chunkId);
      }
      if old(Valid()) {
        ReleaseKeepsConsistent(old(Model()), chunkId, Model());
      }
    }

    /** End lease l and drop its chunk from the queue. */
    method FinishLease(l: nat, chunkId: u64)
      requires InRange() && l < leaseCount && l == ActiveLeaseFrom(Model().leases, chunkId, 0)
      modifies this`chunkCount, chunks, leases, workers
      ensures InRange() && Model() == Release(old(Model()), chunkId)
    {
      ghost var s := Model();
      var c := FindChunk(chunkId);
      if c >= 0 {
        FinishChunk(l, c);
        ReleasedWithChunk(s, chunkId, l, c);
      } else {
        Deactivate(l);
        ReleasedAlone(s, chunkId, l);
      }
    }

    method Deactivate(l: nat)
      requires InRange() && l < leaseCount
      modifies leases
      ensures Model() == old(Model()).(leases := old(Model()).leases[l := old(Model()).leases[l].(isActive := false)])
    {
      leases[l] := leases[l].(isActive := false);
      assert leases[..leaseCount] == old(leases[..leaseCount])[l := old(leases[l]).(isActive := false)];
    }

    /** End lease l, which holds chunk c, and take the chunk off the queue. */
    method FinishChunk(l: nat, c: nat)
      requires InRange() && l < leaseCount && c < chunkCount
      modifies this`chunkCount, chunks, leases, workers
      ensures InRange()
      ensures var s := old(Model());
              Model() == EndLease(s, l, s.chunks[c]).(chunks := s.chunks[..c] + s.chunks[c + 1..])
    {
      assert chunks[c] == Model().chunks[c];
      EndLeaseAt(l, chunks[c]);
      RemoveChunk(c);
    }

    /** The entries behind c move down by one. */
    method RemoveChunk(c: nat)
      requires InRange() && c < chunkCount
      modifies this`chunkCount, chunks
      ensures InRange()
      ensures Model() == old(Model()).(chunks := old(Model()).chunks[..c] + old(Model()).chunks[c + 1..])
    {
      for i := c to chunkCount - 1
        invariant chunkCount == old(chunkCount)
        invariant forall k :: 0 <= k < c ==> chunks[k] == old(chunks[k])
        invariant forall k :: c <= k < i ==> chunks[k] == old(chunks[k + 1])
        invariant forall k :: i <= k < chunkCount ==> chunks[k] == old(chunks[k])
      {
        chunks[i] := chunks[i + 1];
      }
      chunkCount := chunkCount - 1;
      DroppedIs(old(chunks[..chunkCount]), c, chunks[..chunkCount]);
    }
  }

  /** Once enough leases are out the remaining turns change nothing. */
  lemma {:induction false} TicksStop(s: Sched, nowMs: u64, maxLeases: int, c: nat, d: nat)
    requires c <= d <= |s.chunks|
    requires c == d || |TicksTo(s, nowMs, maxLeases, c).out| >= maxLeases
    ensures TicksTo(s, nowMs, maxLeases, d) == TicksTo(s, nowMs, maxLeases, c)
    decreases d - c
  {
    if c < d {
      TicksStop(s, nowMs, maxLeases, c, d - 1);
    }
  }
}
