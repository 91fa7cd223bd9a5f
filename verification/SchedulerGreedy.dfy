/** What a scheduling tick achieves (master/src/scheduler.c): every returned lease is recorded, every
    placement goes to the first best worker, and a tick that was not cut short leaves no chunk
    waiting that some worker could still take. */
module SchedulerGreedy {
  import opened MachineInts
  import opened Options
  import opened SchedulerModel
  import opened SchedulerInvariants
  import opened SchedulerScore

  // ----- Returned leases are recorded -----

  ghost predicate QueuedBefore(chunks: seq<Chunk>, c: nat, id: u64)
    requires c <= |chunks|
  {
    exists k :: 0 <= k < c && chunks[k].id == id
  }

  /** The leases handed out for the first c chunks. */
  ghost predicate HandedOut(t: Ticking, c: nat) {
    && |t.out| <= c <= |t.s.chunks|
    && (forall i :: 0 <= i < |t.out| ==> t.out[i] in t.s.leases && t.out[i].isActive)
    && (forall i :: 0 <= i < |t.out| ==> QueuedBefore(t.s.chunks, c, t.out[i].chunkId))
    && (forall i, j :: 0 <= i < j < |t.out| ==> t.out[i].chunkId != t.out[j].chunkId)
  }

  lemma ExpiryKeepsLease(s: Sched, c: nat, nowMs: u64, ready: Sched, lease: Lease)
    requires c < |s.chunks| && AfterExpiry(s, c, nowMs) == Some(ready)
    requires lease in s.leases && lease.isActive && lease.chunkId != s.chunks[c].id
    ensures lease in ready.leases
  {
    var l :| 0 <= l < |s.leases| && s.leases[l] == lease;
    assert ready.leases[l] == lease;
  }

  lemma PlaceKeepsLease(t: Ticking, c: nat, nowMs: u64, after: Ticking, lease: Lease)
    requires Consistent(t.s) && c < |t.s.chunks| && Unleased(t.s.leases, t.s.chunks[c].id)
    requires after == Place(t, c, nowMs) && lease in t.s.leases && lease.isActive
    ensures lease in after.s.leases
  {
    PlaceKeepsConsistent(t, c, nowMs, after);
    var b := Best(t.s.workers, t.s.chunks[c], |t.s.workers|);
    if b >= 0 {
      RecordKeeps(t.s.leases, NewLease(t.s.chunks[c], t.s.workers[b], nowMs), after.s.leases);
      var l :| 0 <= l < |t.s.leases| && t.s.leases[l] == lease;
      assert after.s.leases[l] == lease;
    }
  }

  /** Leases for other chunks survive the turn of chunk c. */
  lemma TurnKeepsOtherLeases(t: Ticking, c: nat, nowMs: u64, after: Ticking, lease: Lease)
    requires Consistent(t.s) && c < |t.s.chunks| && after == Turn(t, c, nowMs)
    requires lease in t.s.leases && lease.isActive && lease.chunkId != t.s.chunks[c].id
    ensures lease in after.s.leases
  {
    if !t.s.chunks[c].isBlocked && AfterExpiry(t.s, c, nowMs).Some? {
      var ready := AfterExpiry(t.s, c, nowMs).value;
      ExpiryKeepsConsistent(t.s, c, nowMs, ready);
      ExpiryKeepsLease(t.s, c, nowMs, ready, lease);
      PlaceKeepsLease(t.(s := ready), c, nowMs, after, lease);
    }
  }

  /** A turn hands out nothing, or one recorded lease for its own chunk. */
  lemma TurnOutput(t: Ticking, c: nat, nowMs: u64, after: Ticking)
    requires Consistent(t.s) && c < |t.s.chunks| && after == Turn(t, c, nowMs)
    ensures after.out == t.out ||
            (|after.out| == |t.out| + 1 && after.out[..|t.out|] == t.out
             && after.out[|t.out|] in after.s.leases && after.out[|t.out|].isActive
             && after.out[|t.out|].chunkId == t.s.chunks[c].id)
  {
    if !t.s.chunks[c].isBlocked && AfterExpiry(t.s, c, nowMs).Some? {
      var ready := AfterExpiry(t.s, c, nowMs).value;
      ExpiryKeepsConsistent(t.s, c, nowMs, ready);
      PlaceKeepsConsistent(t.(s := ready), c, nowMs, after);
      var b := Best(ready.workers, ready.chunks[c], |ready.workers|);
      if b >= 0 {
        RecordKeeps(ready.leases, NewLease(ready.chunks[c], ready.workers[b], nowMs), after.s.leases);
      }
    }
  }

  lemma TurnHandsOut(t: Ticking, c: nat, nowMs: u64, after: Ticking)
    requires Consistent(t.s) && c < |t.s.chunks| && after == Turn(t, c, nowMs) && HandedOut(t, c)
    ensures HandedOut(after, c + 1)
  {
    TurnOutput(t, c, nowMs, after);
    TurnKeepsConsistent(t, c, nowMs, |t.out| + 1, after);
    forall i | 0 <= i < |t.out| ensures t.out[i] in after.s.leases && t.out[i].chunkId != t.s.chunks[c].id {
      var k :| 0 <= k < c && t.s.chunks[k].id == t.out[i].chunkId;
      TurnKeepsOtherLeases(t, c, nowMs, after, t.out[i]);
    }
    forall i | 0 <= i < |after.out|
      ensures after.out[i] in after.s.leases && after.out[i].isActive
      ensures QueuedBefore(after.s.chunks, c + 1, after.out[i].chunkId)
    {
      if i < |t.out| {
        assert after.out[i] == t.out[i] && QueuedBefore(t.s.chunks, c, t.out[i].chunkId);
      } else {
        assert after.s.chunks[c].id == after.out[i].chunkId;
      }
    }
    forall i, j | 0 <= i < j < |after.out| ensures after.out[i].chunkId != after.out[j].chunkId {
      assert after.out[i] == t.out[i];
      if j < |t.out| {
        assert after.out[j] == t.out[j];
      }
    }
  }

  lemma HandedOutLater(t: Ticking, c: nat)
    requires HandedOut(t, c) && c < |t.s.chunks|
    ensures HandedOut(t, c + 1)
  {
    forall i | 0 <= i < |t.out| ensures QueuedBefore(t.s.chunks, c + 1, t.out[i].chunkId) {
      assert QueuedBefore(t.s.chunks, c, t.out[i].chunkId);
    }
  }

  lemma LimitedTurnHandsOut(t: Ticking, c: nat, nowMs: u64, maxLeases: int, after: Ticking)
    requires Consistent(t.s) && c < |t.s.chunks| && after == LimitedTurn(t, c, nowMs, maxLeases)
    requires HandedOut(t, c) && (|t.out| == 0 || |t.out| <= maxLeases)
    ensures HandedOut(after, c + 1) && (|after.out| == 0 || |after.out| <= maxLeases)
  {
    if |t.out| >= maxLeases {
      HandedOutLater(t, c);
    } else {
      TurnHandsOut(t, c, nowMs, after);
      TurnOutput(t, c, nowMs, after);
    }
  }

  /** A tick returns at most the requested number of leases, for distinct queued chunks, and each of
      them stands in the table as an active lease when the tick ends. */
  lemma {:induction false} TickHandsOut(s: Sched, nowMs: u64, maxLeases: int, c: nat)
    requires Consistent(s) && c <= |s.chunks|
    ensures var t := TicksTo(s, nowMs, maxLeases, c);
            HandedOut(t, c) && (|t.out| == 0 || |t.out| <= maxLeases)
    decreases c
  {
    if c > 0 {
      TickHandsOut(s, nowMs, maxLeases, c - 1);
      TickKeepsConsistent(s, nowMs, maxLeases, c - 1);
      LimitedTurnHandsOut(TicksTo(s, nowMs, maxLeases, c - 1), c - 1, nowMs, maxLeases,
                          TicksTo(s, nowMs, maxLeases, c));
    }
  }

  // ----- Placements go to the first best worker -----

  /** When the turn of chunk c hands out a lease, it names the first worker with the highest score
      among those that pass the filters once the chunk's own expired lease has been refunded, and
      only that worker is charged. */
  lemma PlacementIsBest(t: Ticking, c: nat, nowMs: u64, after: Ticking) returns (ready: Sched, b: nat)
    requires Consistent(t.s) && c < |t.s.chunks| && after == Turn(t, c, nowMs) && after.out != t.out
    ensures AfterExpiry(t.s, c, nowMs) == Some(ready)
    ensures IsBest(ready.workers, t.s.chunks[c], |ready.workers|, b)
    ensures after.out == t.out + [NewLease(t.s.chunks[c], ready.workers[b], nowMs)]
    ensures after.s.workers == ready.workers[b := Charge(ready.workers[b], t.s.chunks[c])]
  {
    ready := AfterExpiry(t.s, c, nowMs).value;
    ExpiryKeepsConsistent(t.s, c, nowMs, ready);
    PlaceKeepsConsistent(t.(s := ready), c, nowMs, after);
    b := Best(ready.workers, ready.chunks[c], |ready.workers|);
  }

  /** What a chunk asks of the worker it is placed on, in plain terms. */
  ghost predicate Suits(chunk: Chunk, worker: Worker) {
    && worker.healthy && !worker.draining
    && worker.platform == chunk.platform && worker.runtime == chunk.runtime
    && (chunk.requiresTouch ==> worker.hasTouchInput)
    && (chunk.cpu > 0 ==> worker.reservCpu <= worker.cpuUnits)
    && (chunk.memMb > 0 ==> worker.reservMemMb <= worker.freeMemMb)
  }

  /** A worker that passes the filters still suits the chunk once it has been charged for it. */
  lemma ChargedSuits(chunk: Chunk, worker: Worker)
    requires HardFilters(chunk, worker)
    ensures Suits(chunk, Charge(worker, chunk))
  {
    ChargeNeverWraps(worker, chunk);
  }

  /** The worker a lease names, as the turn leaves it, meets the chunk's requirements: with the chunk
      already charged it is still within the capacity the chunk draws on. */
  lemma PlacementSuits(t: Ticking, c: nat, nowMs: u64, after: Ticking) returns (b: nat, lease: Lease)
    requires Consistent(t.s) && c < |t.s.chunks| && after == Turn(t, c, nowMs) && after.out != t.out
    ensures after.out == t.out + [lease] && lease.chunkId == t.s.chunks[c].id
    ensures b < |after.s.workers| && after.s.workers[b].id == lease.workerId
    ensures Suits(t.s.chunks[c], after.s.workers[b])
  {
    var ready, best := PlacementIsBest(t, c, nowMs, after);
    b, lease := best, NewLease(t.s.chunks[c], ready.workers[best], nowMs);
    ChargedSuits(t.s.chunks[c], ready.workers[b]);
  }

  // ----- The score -----

  lemma RatioRange(x: real, y: real)
    requires 0.0 <= x <= y && y > 0.0
    ensures 0.0 <= x / y <= 1.0
  {
  }

  lemma RatioIsOne(x: real, y: real)
    requires y > 0.0
    ensures x / y == 1.0 <==> x == y
  {
    if x / y == 1.0 {
      assert x == x / y * y;
    }
  }

  /** The four parts weigh 40, 30, 20 and 10: within the intended ranges scores run from 0 to 100,
      and 100 is reached exactly by an idle, fully reliable, preferred worker on full or no battery. */
  lemma ScoreRange(chunk: Chunk, worker: Worker)
    requires worker.cpuUnits > 0 && WithinCapacity(worker) && 0.0 <= worker.reliability <= 1.0
        && worker.batteryPct <= 100.0
    ensures 0.0 <= Score(chunk, worker).value <= 100.0
    ensures Score(chunk, worker).value == 100.0 <==>
              && worker.reservCpu == 0 && worker.reliability == 1.0 && NodeNumber(worker.id) == chunk.preferredNode
              && (worker.batteryPct == 100.0 || worker.batteryPct < 0.0)
  {
    var free, all := (worker.cpuUnits - worker.reservCpu) as real, worker.cpuUnits as real;
    RatioRange(free, all);
    RatioIsOne(free, all);
  }

  lemma RatioGrows(x: real, x': real, y: real)
    requires x < x' && y > 0.0
    ensures x / y < x' / y
  {
  }

  /** Of two otherwise equal workers the one with less reserved scores strictly higher. */
  lemma FreerScoresHigher(chunk: Chunk, worker: Worker, reserved: u8)
    requires worker.cpuUnits > 0 && reserved < worker.reservCpu
    ensures Score(chunk, worker.(reservCpu := reserved)).value > Score(chunk, worker).value
  {
    RatioGrows((worker.cpuUnits - worker.reservCpu) as real, (worker.cpuUnits - reserved) as real,
               worker.cpuUnits as real);
  }

  // ----- Releasing undoes placing -----

  lemma RefundUndoesCharge(worker: Worker, chunk: Chunk)
    requires HardFilters(chunk, worker)
    ensures Refund(Charge(worker, chunk), chunk) == worker
  {
    ChargeNeverWraps(worker, chunk);
  }

  /** The recorded lease is the one a release of its chunk finds. */
  lemma RecordedIsFound(leases: seq<Lease>, lease: Lease, after: seq<Lease>) returns (l: nat)
    requires lease.isActive && Unleased(leases, lease.chunkId) && Record(leases, lease) == Some(after)
    ensures l < |after| && after[l] == lease && ActiveLeaseFrom(after, lease.chunkId, 0) == l
    ensures forall m :: 0 <= m < |leases| && m != l ==> m < |after| && after[m] == leases[m]
    ensures l < |leases| ==> !leases[l].isActive
  {
    var slot := FreeSlotFrom(leases, 0);
    l := if slot >= 0 then slot else |leases|;
    forall m | 0 <= m < |after| && m != l ensures !Covers(after[m], lease.chunkId) {
      assert after[m] == leases[m];
    }
  }

  /** Placing a chunk and releasing it leaves every worker as it was, takes the chunk off the queue and
      leaves every other active lease in place. */
  lemma ReleaseUndoesPlace(t: Ticking, c: nat, nowMs: u64, placed: Ticking, released: Sched)
    requires Consistent(t.s) && c < |t.s.chunks| && Unleased(t.s.leases, t.s.chunks[c].id)
    requires placed == Place(t, c, nowMs) && placed.out != t.out
    requires released == Release(placed.s, t.s.chunks[c].id)
    ensures released.workers == t.s.workers
    ensures released.chunks == t.s.chunks[..c] + t.s.chunks[c + 1..]
    ensures forall m :: 0 <= m < |t.s.leases| && t.s.leases[m].isActive ==>
        m < |released.leases| && released.leases[m] == t.s.leases[m]
    ensures forall m :: 0 <= m < |released.leases| && released.leases[m].isActive ==>
        m < |t.s.leases| && released.leases[m] == t.s.leases[m]
  {
    var s, chunk := t.s, t.s.chunks[c];
    PlaceKeepsConsistent(t, c, nowMs, placed);
    var b := Best(s.workers, chunk, |s.workers|);
    var lease := NewLease(chunk, s.workers[b], nowMs);
    var l := RecordedIsFound(s.leases, lease, placed.s.leases);
    assert ChunkFrom(placed.s.chunks, chunk.id, 0) == c;
    assert WorkerFrom(placed.s.workers, lease.workerId, 0) == b;
    RefundUndoesCharge(s.workers[b], chunk);
    assert released.workers == s.workers;
  }

  // ----- How long a lease holds -----

  lemma FreshLease(t: Ticking, c: nat, nowMs: u64, placed: Ticking) returns (l: nat)
    requires Consistent(t.s) && c < |t.s.chunks| && Unleased(t.s.leases, t.s.chunks[c].id)
    requires placed == Place(t, c, nowMs) && placed.out != t.out && nowMs + 30000 < TWO_64
    ensures placed.s.chunks == t.s.chunks && l < |placed.s.leases| && placed.s.leases[l].expiresMs == nowMs + 30000
    ensures ActiveLeaseFrom(placed.s.leases, t.s.chunks[c].id, 0) == l
  {
    PlaceKeepsConsistent(t, c, nowMs, placed);
    var b := Best(t.s.workers, t.s.chunks[c], |t.s.workers|);
    var lease := NewLease(t.s.chunks[c], t.s.workers[b], nowMs);
    ThirtySeconds(t.s.chunks[c], t.s.workers[b], nowMs);
    l := RecordedIsFound(t.s.leases, lease, placed.s.leases);
  }

  lemma ThirtySeconds(chunk: Chunk, worker: Worker, nowMs: u64)
    requires nowMs + 30000 < TWO_64
    ensures var lease := NewLease(chunk, worker, nowMs);
            lease.expiresMs == nowMs + 30000 && lease.isActive && lease.chunkId == chunk.id
  {
  }

  lemma ExpiryOf(s: Sched, c: nat, l: nat, laterMs: u64)
    requires c < |s.chunks| && l < |s.leases| && ActiveLeaseFrom(s.leases, s.chunks[c].id, 0) == l
    ensures AfterExpiry(s, c, laterMs) == None <==> laterMs <= s.leases[l].expiresMs
  {
  }

  lemma HeldTurnIsIdle(t: Ticking, c: nat, laterMs: u64)
    requires c < |t.s.chunks| && AfterExpiry(t.s, c, laterMs) == None
    ensures Turn(t, c, laterMs) == t
  {
  }

  /** A lease handed out at nowMs holds for thirty seconds and no longer: until then the chunk's turn in a
      tick changes nothing, and after that the lease is ended. */
  lemma LeaseHolds(t: Ticking, c: nat, nowMs: u64, placed: Ticking, laterMs: u64)
    requires Consistent(t.s) && c < |t.s.chunks| && Unleased(t.s.leases, t.s.chunks[c].id)
    requires placed == Place(t, c, nowMs) && placed.out != t.out && nowMs + 30000 < TWO_64
    ensures placed.s.chunks == t.s.chunks
    ensures AfterExpiry(placed.s, c, laterMs) == None <==> laterMs <= nowMs + 30000
    ensures laterMs <= nowMs + 30000 ==> Turn(placed, c, laterMs) == placed
  {
    var l := FreshLease(t, c, nowMs, placed);
    ExpiryOf(placed.s, c, l, laterMs);
    if laterMs <= nowMs + 30000 {
      HeldTurnIsIdle(placed, c, laterMs);
    }
  }

  // ----- Greedy maximality -----

  /** A worker whose score cannot fall to the floor. */
  ghost predicate Fair(worker: Worker) {
    worker.cpuUnits > 0 && WithinCapacity(worker) && worker.reliability >= 0.0
  }

  ghost predicate AllFair(workers: seq<Worker>) {
    forall w :: 0 <= w < |workers| ==> Fair(workers[w])
  }

  lemma RatioNonNegative(x: real, y: real)
    requires x >= 0.0 && y > 0.0
    ensures x / y * 40.0 >= 0.0
  {
  }

  /** For a fair worker the filters alone decide. */
  lemma FairIsPlaceable(chunk: Chunk, worker: Worker)
    requires Fair(worker) && HardFilters(chunk, worker)
    ensures Placeable(chunk, worker)
  {
    RatioNonNegative((worker.cpuUnits - worker.reservCpu) as real, worker.cpuUnits as real);
  }

  /** b is a with more reserved. */
  ghost predicate Grown(a: Worker, b: Worker) {
    && b == a.(reservCpu := b.reservCpu, reservMemMb := b.reservMemMb, activeChunks := b.activeChunks)
    && a.reservCpu <= b.reservCpu && a.reservMemMb <= b.reservMemMb
  }

  ghost predicate AllGrown(a: seq<Worker>, b: seq<Worker>) {
    |a| == |b| && forall w :: 0 <= w < |a| ==> Grown(a[w], b[w])
  }

  lemma ChargeGrows(worker: Worker, chunk: Chunk)
    requires HardFilters(chunk, worker)
    ensures Grown(worker, Charge(worker, chunk))
    ensures Fair(worker) ==> Fair(Charge(worker, chunk))
  {
    ChargeNeverWraps(worker, chunk);
  }

  /** Reserving more never lets a chunk in. */
  lemma FiltersAntitone(chunk: Chunk, a: Worker, b: Worker)
    requires Grown(a, b) && !HardFilters(chunk, a)
    ensures !HardFilters(chunk, b)
  {
  }

  /** No unblocked chunk from position c on has a lease that ran out. */
  ghost predicate NoneExpired(s: Sched, nowMs: u64, c: nat) {
    forall i, l :: c <= i < |s.chunks| && 0 <= l < |s.leases|
                   && !s.chunks[i].isBlocked && Covers(s.leases[l], s.chunks[i].id) ==>
      nowMs <= s.leases[l].expiresMs
  }

  ghost predicate NobodyTakes(workers: seq<Worker>, chunk: Chunk) {
    forall w :: 0 <= w < |workers| ==> !HardFilters(chunk, workers[w])
  }

  /** Chunk i needs nothing further: it is blocked, leased, or nobody can take it. */
  ghost predicate Served(s: Sched, i: nat)
    requires i < |s.chunks|
  {
    s.chunks[i].isBlocked || !Unleased(s.leases, s.chunks[i].id) || NobodyTakes(s.workers, s.chunks[i])
  }

  /** What a later state must keep for served chunks to stay served. */
  ghost predicate OnlyGrew(s: Sched, after: Sched) {
    && after.chunks == s.chunks && AllGrown(s.workers, after.workers) && |s.leases| <= |after.leases|
    && forall l :: 0 <= l < |s.leases| && s.leases[l].isActive ==> after.leases[l] == s.leases[l]
  }

  lemma ServedStays(s: Sched, after: Sched, i: nat)
    requires OnlyGrew(s, after) && i < |s.chunks| && Served(s, i)
    ensures Served(after, i)
  {
    var chunk := s.chunks[i];
    if !Unleased(s.leases, chunk.id) {
      var l :| 0 <= l < |s.leases| && Covers(s.leases[l], chunk.id);
      assert Covers(after.leases[l], chunk.id);
    } else if !chunk.isBlocked {
      forall w | 0 <= w < |after.workers| ensures !HardFilters(chunk, after.workers[w]) {
        FiltersAntitone(chunk, s.workers[w], after.workers[w]);
      }
    }
  }

  /** Without an expired lease the turn of chunk c only adds reservations and leases, and serves c. */
  lemma PlaceServes(t: Ticking, c: nat, nowMs: u64, after: Ticking)
    requires Consistent(t.s) && AllFair(t.s.workers) && c < |t.s.chunks| && Unleased(t.s.leases, t.s.chunks[c].id)
    requires after == Place(t, c, nowMs)
    ensures OnlyGrew(t.s, after.s) && AllFair(after.s.workers) && Served(after.s, c)
    ensures forall l :: 0 <= l < |after.s.leases| && after.s.leases[l].isActive ==>
              after.s.leases[l] in t.s.leases || after.s.leases[l].chunkId == t.s.chunks[c].id
  {
    var s, chunk := t.s, t.s.chunks[c];
    PlaceKeepsConsistent(t, c, nowMs, after);
    var b := Best(s.workers, chunk, |s.workers|);
    if b >= 0 {
      ChargeGrows(s.workers[b], chunk);
      LeaseServes(s.leases, NewLease(chunk, s.workers[b], nowMs), after.s.leases);
    } else {
      NoneFits(s.workers, chunk);
    }
  }

  lemma LeaseServes(leases: seq<Lease>, lease: Lease, after: seq<Lease>)
    requires OneLeasePerChunk(leases) && Unleased(leases, lease.chunkId) && lease.isActive
    requires Record(leases, lease) == Some(after)
    ensures !Unleased(after, lease.chunkId) && |leases| <= |after|
    ensures forall l :: 0 <= l < |leases| && leases[l].isActive ==> after[l] == leases[l]
    ensures forall l :: 0 <= l < |after| && after[l].isActive ==>
        after[l] in leases || after[l].chunkId == lease.chunkId
  {
    RecordKeeps(leases, lease, after);
    var l :| 0 <= l < |after| && after[l] == lease;
    assert Covers(after[l], lease.chunkId);
  }

  lemma NoneFits(workers: seq<Worker>, chunk: Chunk)
    requires AllFair(workers) && Best(workers, chunk, |workers|) < 0
    ensures NobodyTakes(workers, chunk)
  {
    forall w | 0 <= w < |workers| ensures !HardFilters(chunk, workers[w]) {
      if HardFilters(chunk, workers[w]) {
        FairIsPlaceable(chunk, workers[w]);
      }
    }
  }

  lemma TurnServes(t: Ticking, c: nat, nowMs: u64, after: Ticking)
    requires Consistent(t.s) && AllFair(t.s.workers) && c < |t.s.chunks| && NoneExpired(t.s, nowMs, c)
    requires after == Turn(t, c, nowMs)
    ensures OnlyGrew(t.s, after.s) && AllFair(after.s.workers) && Served(after.s, c)
    ensures NoneExpired(after.s, nowMs, c + 1)
  {
    var chunk := t.s.chunks[c];
    if !chunk.isBlocked {
      var l := ActiveLeaseFrom(t.s.leases, chunk.id, 0);
      if l < 0 {
        assert Unleased(t.s.leases, chunk.id);
        PlaceServes(t, c, nowMs, after);
        forall i, m | c + 1 <= i < |after.s.chunks| && !after.s.chunks[i].isBlocked
                      && 0 <= m < |after.s.leases| && Covers(after.s.leases[m], after.s.chunks[i].id)
          ensures nowMs <= after.s.leases[m].expiresMs
        {
          assert after.s.leases[m] in t.s.leases;
        }
      } else {
        assert Covers(t.s.leases[l], chunk.id);
      }
    }
  }

  /** Ending a lease frees capacity and hands out none. */
  lemma EndLeaseKeepsFair(s: Sched, l: nat, chunk: Chunk)
    requires l < |s.leases| && AllFair(s.workers)
    ensures AllFair(EndLease(s, l, chunk).workers)
  {
  }

  lemma EndLeaseKeepsNoneExpired(s: Sched, l: nat, chunk: Chunk, nowMs: u64, i: nat)
    requires l < |s.leases| && NoneExpired(s, nowMs, i)
    ensures NoneExpired(EndLease(s, l, chunk), nowMs, i)
  {
    var after := EndLease(s, l, chunk);
    forall k, m | i <= k < |after.chunks| && !after.chunks[k].isBlocked
                  && 0 <= m < |after.leases| && Covers(after.leases[m], after.chunks[k].id)
      ensures nowMs <= after.leases[m].expiresMs
    {
      assert after.leases[m] == s.leases[m];
    }
  }

  lemma ReadyKeeps(s: Sched, c: nat, nowMs: u64, i: nat, ready: Sched)
    requires AllFair(s.workers) && c < |s.chunks| && NoneExpired(s, nowMs, i)
    requires AfterExpiry(s, c, nowMs) == Some(ready)
    ensures AllFair(ready.workers) && NoneExpired(ready, nowMs, i)
  {
    var l := ActiveLeaseFrom(s.leases, s.chunks[c].id, 0);
    if l >= 0 {
      EndLeaseKeepsFair(s, l, s.chunks[c]);
      EndLeaseKeepsNoneExpired(s, l, s.chunks[c], nowMs, i);
    }
  }

  lemma PlaceKeepsNoneExpired(t: Ticking, c: nat, nowMs: u64, i: nat, after: Ticking)
    requires Consistent(t.s) && AllFair(t.s.workers) && c < |t.s.chunks| && Unleased(t.s.leases, t.s.chunks[c].id)
    requires NoneExpired(t.s, nowMs, i) && c < i && after == Place(t, c, nowMs)
    ensures NoneExpired(after.s, nowMs, i)
  {
    PlaceServes(t, c, nowMs, after);
    forall k, m | i <= k < |after.s.chunks| && !after.s.chunks[k].isBlocked
                  && 0 <= m < |after.s.leases| && Covers(after.s.leases[m], after.s.chunks[k].id)
      ensures nowMs <= after.s.leases[m].expiresMs
    {
      assert after.s.leases[m] in t.s.leases;
    }
  }

  /** A turn serves its chunk, whether or not the chunk's own lease runs out in it. */
  lemma AnyTurnServes(t: Ticking, c: nat, nowMs: u64, i: nat, after: Ticking)
    requires Consistent(t.s) && AllFair(t.s.workers) && c < |t.s.chunks| && NoneExpired(t.s, nowMs, i) && c < i
    requires after == Turn(t, c, nowMs)
    ensures AllFair(after.s.workers) && NoneExpired(after.s, nowMs, i) && Served(after.s, c)
  {
    if !t.s.chunks[c].isBlocked {
      match AfterExpiry(t.s, c, nowMs)
      case None =>
        var l := ActiveLeaseFrom(t.s.leases, t.s.chunks[c].id, 0);
        assert Covers(t.s.leases[l], t.s.chunks[c].id);
      case Some(ready) =>
        ExpiryKeepsConsistent(t.s, c, nowMs, ready);
        ReadyKeeps(t.s, c, nowMs, i, ready);
        PlaceServes(t.(s := ready), c, nowMs, after);
        PlaceKeepsNoneExpired(t.(s := ready), c, nowMs, i, after);
    }
  }

  /** Once chunk i has had its turn it stays served, as long as no later lease runs out. */
  lemma {:induction false} TickServes(s: Sched, nowMs: u64, maxLeases: int, i: nat, c: nat)
    requires Consistent(s) && AllFair(s.workers) && i < |s.chunks| && NoneExpired(s, nowMs, i + 1) && c <= |s.chunks|
    requires |TicksTo(s, nowMs, maxLeases, c).out| < maxLeases
    ensures var t := TicksTo(s, nowMs, maxLeases, c);
            && AllFair(t.s.workers) && NoneExpired(t.s, nowMs, if c <= i then i + 1 else c)
            && (i < c ==> Served(t.s, i))
    decreases c
  {
    if c > 0 {
      var t, after := TicksTo(s, nowMs, maxLeases, c - 1), TicksTo(s, nowMs, maxLeases, c);
      TickKeepsConsistent(s, nowMs, maxLeases, c - 1);
      if |t.out| < maxLeases {
        TickServes(s, nowMs, maxLeases, i, c - 1);
        if c - 1 <= i {
          AnyTurnServes(t, c - 1, nowMs, i + 1, after);
        } else {
          TurnServes(t, c - 1, nowMs, after);
          ServedStays(t.s, after.s, i);
        }
      }
    }
  }

  /** Greedy maximality: if a tick returns fewer leases than it was allowed to and no lease of a chunk
      behind chunk i runs out in it, then chunk i, unless it is blocked or leased, is one that no
      worker can take in the final state. Its own lease and those of earlier chunks may run out. */
  lemma TickIsMaximal(s: Sched, nowMs: u64, maxLeases: int, i: nat, w: nat)
    requires Consistent(s) && AllFair(s.workers) && i < |s.chunks| && NoneExpired(s, nowMs, i + 1)
    requires |Tick(s, nowMs, maxLeases).out| < maxLeases
    requires !s.chunks[i].isBlocked
    requires Unleased(Tick(s, nowMs, maxLeases).s.leases, s.chunks[i].id)
    requires w < |Tick(s, nowMs, maxLeases).s.workers|
    ensures !Eligible(s.chunks[i], Tick(s, nowMs, maxLeases).s.workers[w])
  {
    TickServes(s, nowMs, maxLeases, i, |s.chunks|);
    FiltersMean(s.chunks[i], Tick(s, nowMs, maxLeases).s.workers[w]);
  }
}
