/** The cluster state context in place (master/src/cluster_state.c): the master record, the snapshot
    ring and the calls on them, each with exactly the effect ClusterModel describes. */
module ClusterState {
  import opened MachineInts
  import opened ClusterModel

  class Context {
    var uuid: seq<u8>
    var epoch: u64
    var generation: u64
    var status: Status
    const workers: array<Worker>
    var totalWorkers: nat
    const leases: array<Lease>
    var totalLeases: nat
    var metrics: Metrics
    const pool: array<Snapshot>
    const refs: array<u32>
    var tail: nat

    ghost predicate InRange()
      reads this
    {
      && |uuid| == UUID_BYTES && workers.Length == MAX_WORKERS && leases.Length == MAX_LEASES
      && totalWorkers <= MAX_WORKERS && totalLeases <= MAX_LEASES
      && pool.Length == RING_SIZE && refs.Length == RING_SIZE && tail < RING_SIZE
    }

    /** The master record as a value: what a copy of its memory holds. */
    function Master(): Snapshot
      reads this, workers, leases
    {
      Snapshot(uuid, epoch, generation, status, workers[..], totalWorkers, leases[..], totalLeases, metrics)
    }

    ghost function RingOf(): Ring
      reads this, pool, refs
    {
      Ring(pool[..], refs[..], tail)
    }

    constructor (text: seq<u8>, initialEpoch: u64)
      ensures InRange() && Master() == Created(UuidField(text), initialEpoch)
      ensures RingOf().refs == [0, 0, 0, 0] && tail == 0
      ensures fresh(workers) && fresh(leases) && fresh(pool) && fresh(refs)
    {
      uuid, epoch, generation, status := UuidField(text), initialEpoch, 1, Bootstrap;
      workers := new Worker[MAX_WORKERS](_ => ZERO_WORKER);
      totalWorkers := 0;
      leases := new Lease[MAX_LEASES](_ => ZERO_LEASE);
      totalLeases := 0;
      metrics := ZERO_METRICS;
      pool := new Snapshot[RING_SIZE](_ => Created([], 0));
      refs := new u32[RING_SIZE](_ => 0);
      tail := 0;
      new;
      assert refs[..] == [0, 0, 0, 0];
      assert workers[..] == Created(uuid, epoch).workers && leases[..] == Created(uuid, epoch).leases;
    }

    /** The accumulation over all workers, with wrapping counters. */
    method RecalculateAggregates()
      requires InRange()
      modifies this`metrics
      ensures metrics == MetricsOf(workers[..], totalWorkers)
    {
      metrics := ZERO_METRICS;
      for i := 0 to totalWorkers
        invariant metrics == MetricsOf(workers[..], i)
      {
        if workers[i].health == Online || workers[i].health == Draining {
          Accumulates(workers[..], i);
          metrics := Added(metrics, workers[i]);
        }
      }
    }

    method FindWorker(id: u32) returns (k: int)
      requires InRange()
      ensures k == WorkerFrom(workers[..], id, totalWorkers, 0)
    {
      for i := 0 to totalWorkers
        invariant forall j :: 0 <= j < i ==> workers[j].id != id
      {
        if workers[i].id == id {
          assert workers[..][i] == workers[i];
          return i;
        }
      }
      k := -1;
    }

    method FindLease(chunkId: u64) returns (k: int)
      requires InRange()
      ensures k == LeaseFrom(leases[..], chunkId, totalLeases, 0)
    {
      for i := 0 to totalLeases
        invariant forall j :: 0 <= j < i ==> leases[j].chunkId != chunkId
      {
        if leases[i].chunkId == chunkId {
          assert leases[..][i] == leases[i];
          return i;
        }
      }
      k := -1;
    }

    method RegisterWorker(worker: Worker) returns (ok: bool)
      requires InRange()
      modifies this`totalWorkers, this`generation, this`status, this`metrics, workers
      ensures InRange() && (Master(), ok) == Register(old(Master()), worker)
    {
      if totalWorkers >= MAX_WORKERS {
        return false;
      }
      var k := FindWorker(worker.id);
      if k >= 0 {
        return false;
      }
      workers[totalWorkers] := worker;
      assert workers[..] == old(workers[..])[totalWorkers := worker];
      totalWorkers := totalWorkers + 1;
      generation := Bumped(generation);
      if status == Bootstrap && totalWorkers >= 1 {
        status := Operational;
      }
      RecalculateAggregates();
      return true;
    }

    method UpdateLeaseStatus(chunkId: u64, newStatus: LeaseStatus, progressBits: u32) returns (ok: bool)
      requires InRange()
      modifies this`totalLeases, this`generation, leases
      ensures InRange() && (Master(), ok) == UpdateLease(old(Master()), chunkId, newStatus, progressBits)
    {
      var k := FindLease(chunkId);
      if k == -1 {
        if totalLeases >= MAX_LEASES {
          return false;
        }
        k := totalLeases;
        totalLeases := totalLeases + 1;
        leases[k] := ZERO_LEASE.(chunkId := chunkId);
      }
      leases[k] := leases[k].(status := newStatus, progressBits := progressBits);
      if newStatus == Failed || newStatus == TimedOut {
        leases[k] := leases[k].(retries := (leases[k].retries + 1) % TWO_32);
      }
      assert leases[..] == old(leases[..])[k := leases[k]];
      generation := Bumped(generation);
      return true;
    }

    method ProcessHeartbeat(id: u32, nowMs: u64) returns (found: bool)
      requires InRange()
      modifies this`generation, this`metrics, workers
      ensures InRange() && (Master(), found) == Heartbeat(old(Master()), id, nowMs)
    {
      var k := FindWorker(id);
      found := k >= 0;
      if found {
        workers[k] := workers[k].(lastSeenMs := nowMs);
        if workers[k].health == Offline {
          workers[k] := workers[k].(health := Online);
        }
        assert workers[..] == old(workers[..])[k := Beaten(old(workers[k]), nowMs)];
        generation := Bumped(generation);
        RecalculateAggregates();
      }
    }

    /** The ring search: from the tail on, for as long as slots are taken, at most once around. */
    method FindSlot() returns (slot: nat)
      requires InRange()
      ensures slot < RING_SIZE && slot == SlotFrom(RingOf().refs, tail, 0)
    {
      slot := tail;
      var searched := 0;
      while refs[slot] > 0
        invariant searched < RING_SIZE && slot == RingAt(tail, searched)
        invariant SlotFrom(refs[..], tail, searched) == SlotFrom(refs[..], tail, 0)
        decreases RING_SIZE - searched
      {
        slot := (slot + 1) % RING_SIZE;
        searched := searched + 1;
        if searched >= RING_SIZE {
          break;
        }
      }
    }

    /** Search the ring from the tail for a slot nobody holds, and copy the master record there. */
    method AcquireSnapshot() returns (slot: nat)
      requires InRange()
      modifies this`tail, pool, refs
      ensures InRange() && (RingOf(), slot) == Acquire(old(RingOf()), Master())
      ensures Master() == old(Master())
    {
      slot := FindSlot();
      pool[slot] := Master();
      refs[slot] := (refs[slot] + 1) % TWO_32;
      tail := (slot + 1) % RING_SIZE;
      assert pool[..] == old(pool[..])[slot := Master()];
      assert refs[..] == old(refs[..])[slot := (old(refs[..])[slot] + 1) % TWO_32];
    }

    method ReleaseSnapshot(slot: nat)
      requires InRange()
      modifies refs
      ensures RingOf() == Release(old(RingOf()), slot)
    {
      for i := 0 to RING_SIZE
        invariant refs[..] == old(refs[..]) && i <= slot
      {
        if i == slot {
          if refs[i] > 0 {
            refs[i] := refs[i] - 1;
            assert refs[..] == old(refs[..])[slot := old(refs[..])[slot] - 1];
          }
          return;
        }
      }
    }
  }

  /** The counters after one more worker. */
  function Added(m: Metrics, w: Worker): Metrics {
    Metrics((m.aggMemory + w.totalMemory) % TWO_64, (m.allocMemory + w.reservedMemory) % TWO_64,
            (m.aggCores + w.totalCores) % TWO_32, (m.allocCores + w.reservedCores) % TWO_32,
            (m.activeWorkers + 1) % TWO_32)
  }

  lemma Wraps64(a: nat, b: nat)
    ensures (a % TWO_64 + b) % TWO_64 == (a + b) % TWO_64
  {
  }

  lemma Wraps32(a: nat, b: nat)
    ensures (a % TWO_32 + b) % TWO_32 == (a + b) % TWO_32
  {
  }

  lemma CachedAdded(f: Figure, m: Metrics, w: Worker)
    requires Counts(w)
    ensures Cached(f, Added(m, w)) == (Cached(f, m) + Contribution(f, w)) % Width(f)
  {
  }

  lemma WrappedTotal(f: Figure, workers: seq<Worker>, i: nat)
    requires i < |workers|
    ensures Total(f, workers, i + 1) % Width(f)
        == (Total(f, workers, i) % Width(f) + Contribution(f, workers[i])) % Width(f)
  {
    if Width(f) == TWO_64 {
      Wraps64(Total(f, workers, i), Contribution(f, workers[i]));
    } else {
      Wraps32(Total(f, workers, i), Contribution(f, workers[i]));
    }
  }

  lemma SameFigures(a: Metrics, b: Metrics)
    requires forall f :: Cached(f, a) == Cached(f, b)
    ensures a == b
  {
    assert Cached(AggMemory, a) == Cached(AggMemory, b) && Cached(AllocMemory, a) == Cached(AllocMemory, b);
    assert Cached(AggCores, a) == Cached(AggCores, b) && Cached(AllocCores, a) == Cached(AllocCores, b);
    assert Cached(ActiveWorkers, a) == Cached(ActiveWorkers, b);
  }

  /** Adding a worker to wrapped counters is wrapping the exact totals. */
  lemma Accumulates(workers: seq<Worker>, i: nat)
    requires i < |workers| && Counts(workers[i])
    ensures MetricsOf(workers, i + 1) == Added(MetricsOf(workers, i), workers[i])
  {
    var before, next := MetricsOf(workers, i), MetricsOf(workers, i + 1);
    forall f ensures Cached(f, next) == Cached(f, Added(before, workers[i])) {
      WrappedTotal(f, workers, i);
      CachedAdded(f, before, workers[i]);
    }
    SameFigures(next, Added(before, workers[i]));
  }
}
