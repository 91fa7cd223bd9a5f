/** Exactly when a scheduling tick is sure to leave no chunk waiting that some worker could still take
    (master/src/scheduler.c): the queue and the lease table decide it, before the tick. */
module SchedulerMaximality {
  import opened MachineInts
  import opened Options
  import opened SchedulerModel
  import opened SchedulerInvariants
  import opened SchedulerGreedy

  /** A tick that is not cut short leaves chunk i blocked, leased, or without a worker for it. */
  ghost predicate MaximalAt(s: Sched, nowMs: u64, maxLeases: int, i: nat)
    requires i < |s.chunks|
  {
    |Tick(s, nowMs, maxLeases).out| < maxLeases ==> Served(Tick(s, nowMs, maxLeases).s, i)
  }

  /** The same chunks queued and blocked, and leases of the same chunks ending at the same times;
      workers, demands and who holds which lease may differ. */
  ghost predicate SameQueue(a: Sched, b: Sched) {
    && |a.chunks| == |b.chunks| && |a.leases| == |b.leases|
    && (forall k :: 0 <= k < |a.chunks| ==>
          a.chunks[k].id == b.chunks[k].id && a.chunks[k].isBlocked == b.chunks[k].isBlocked)
    && (forall m :: 0 <= m < |a.leases| ==>
          && a.leases[m].chunkId == b.leases[m].chunkId && a.leases[m].expiresMs == b.leases[m].expiresMs
          && a.leases[m].isActive == b.leases[m].isActive)
  }

  /** The queue and the lease table alone make sure that the tick is maximal at chunk i. */
  ghost predicate Guaranteed(s: Sched, nowMs: u64, i: nat)
    requires i < |s.chunks|
  {
    forall a, maxLeases :: SameQueue(s, a) && Consistent(a) && AllFair(a.workers) ==> MaximalAt(a, nowMs, maxLeases, i)
  }

  /** Chunk i has a lease that still holds. */
  ghost predicate HoldsLease(s: Sched, nowMs: u64, i: nat)
    requires i < |s.chunks|
  {
    exists l :: 0 <= l < |s.leases| && Covers(s.leases[l], s.chunks[i].id) && nowMs <= s.leases[l].expiresMs
  }

  // ----- The condition suffices -----

  /** A lease that holds is left alone by every turn. */
  lemma HeldTurn(t: Ticking, c: nat, nowMs: u64, maxLeases: int, i: nat, lease: Lease, after: Ticking)
    requires Consistent(t.s) && i < |t.s.chunks| && c < |t.s.chunks| && after == LimitedTurn(t, c, nowMs, maxLeases)
    requires lease in t.s.leases && Covers(lease, t.s.chunks[i].id) && nowMs <= lease.expiresMs
    ensures lease in after.s.leases
  {
    if |t.out| < maxLeases {
      if c != i {
        assert t.s.chunks[c].id != t.s.chunks[i].id;
        TurnKeepsOtherLeases(t, c, nowMs, after, lease);
      } else {
        HeldLeaseFound(t.s, i, nowMs, lease);
      }
    }
  }

  lemma {:induction false} HeldLeaseStays(s: Sched, nowMs: u64, maxLeases: int, i: nat, lease: Lease, c: nat)
    requires Consistent(s) && i < |s.chunks| && c <= |s.chunks|
    requires lease in s.leases && Covers(lease, s.chunks[i].id) && nowMs <= lease.expiresMs
    ensures lease in TicksTo(s, nowMs, maxLeases, c).s.leases
    decreases c
  {
    if c > 0 {
      HeldLeaseStays(s, nowMs, maxLeases, i, lease, c - 1);
      TickKeepsConsistent(s, nowMs, maxLeases, c - 1);
      HeldTurn(TicksTo(s, nowMs, maxLeases, c - 1), c - 1, nowMs, maxLeases, i, lease, TicksTo(s, nowMs, maxLeases, c));
    }
  }

  lemma HeldLeaseFound(s: Sched, i: nat, nowMs: u64, lease: Lease)
    requires Consistent(s) && i < |s.chunks|
    requires lease in s.leases && Covers(lease, s.chunks[i].id) && nowMs <= lease.expiresMs
    ensures AfterExpiry(s, i, nowMs) == None
  {
    var m :| 0 <= m < |s.leases| && s.leases[m] == lease;
    var l := ActiveLeaseFrom(s.leases, s.chunks[i].id, 0);
    assert l == m;
  }

  lemma HeldIsMaximal(s: Sched, nowMs: u64, maxLeases: int, i: nat)
    requires Consistent(s) && i < |s.chunks| && HoldsLease(s, nowMs, i)
    ensures MaximalAt(s, nowMs, maxLeases, i)
  {
    var l :| 0 <= l < |s.leases| && Covers(s.leases[l], s.chunks[i].id) && nowMs <= s.leases[l].expiresMs;
    HeldLeaseStays(s, nowMs, maxLeases, i, s.leases[l], |s.chunks|);
    var after := Tick(s, nowMs, maxLeases).s;
    var m :| 0 <= m < |after.leases| && after.leases[m] == s.leases[l];
    assert Covers(after.leases[m], s.chunks[i].id);
  }

  lemma SameQueueSameLeases(a: Sched, b: Sched, nowMs: u64, i: nat)
    requires SameQueue(a, b) && i < |a.chunks|
    ensures HoldsLease(a, nowMs, i) ==> HoldsLease(b, nowMs, i)
    ensures NoneExpired(a, nowMs, i + 1) ==> NoneExpired(b, nowMs, i + 1)
  {
    if HoldsLease(a, nowMs, i) {
      var l :| 0 <= l < |a.leases| && Covers(a.leases[l], a.chunks[i].id) && nowMs <= a.leases[l].expiresMs;
      assert Covers(b.leases[l], b.chunks[i].id);
    }
    if NoneExpired(a, nowMs, i + 1) {
      forall k, m | i + 1 <= k < |b.chunks| && !b.chunks[k].isBlocked
                    && 0 <= m < |b.leases| && Covers(b.leases[m], b.chunks[k].id)
        ensures nowMs <= b.leases[m].expiresMs
      {
        assert Covers(a.leases[m], a.chunks[k].id);
      }
    }
  }

  lemma ConditionSuffices(s: Sched, nowMs: u64, maxLeases: int, i: nat)
    requires Consistent(s) && AllFair(s.workers) && i < |s.chunks|
    requires s.chunks[i].isBlocked || HoldsLease(s, nowMs, i) || NoneExpired(s, nowMs, i + 1)
    ensures MaximalAt(s, nowMs, maxLeases, i)
  {
    if HoldsLease(s, nowMs, i) {
      HeldIsMaximal(s, nowMs, maxLeases, i);
    } else if NoneExpired(s, nowMs, i + 1) && |Tick(s, nowMs, maxLeases).out| < maxLeases {
      TickServes(s, nowMs, maxLeases, i, |s.chunks|);
    }
  }

  // ----- The condition is needed: the same queue with demands for which the tick is not maximal -----

  const HOST: WorkerId := "worker-1"
  const DOWN: WorkerId := "worker-2"

  function HostWith(reserved: u8): Worker { Worker(HOST, 0, 0, 1, reserved, 0, 0, 0.0, 0, false, false, true, 0.0) }

  /** Chunks i and j need the host's only CPU, but j no longer finds its platform there; the others
      find theirs nowhere. */
  function ContestedChunk(chunk: Chunk, waiting: bool, leaving: bool): Chunk {
    Chunk(chunk.id, if waiting then 0 else 7, 0, if waiting || leaving then 1 else 0, 0, false, chunk.isBlocked, 0)
  }

  function ContestedLease(lease: Lease, leaving: u64): Lease {
    lease.(workerId := if lease.chunkId == leaving then HOST else DOWN)
  }

  function Contested(s: Sched, i: nat, j: nat): (a: Sched)
    requires i < j < |s.chunks|
    ensures |a.chunks| == |s.chunks| && |a.leases| == |s.leases|
    ensures forall k :: 0 <= k < |s.chunks| ==> a.chunks[k] == ContestedChunk(s.chunks[k], k == i, k == j)
    ensures forall m :: 0 <= m < |s.leases| ==> a.leases[m] == ContestedLease(s.leases[m], s.chunks[j].id)
  {
    Sched([HostWith(1), HostWith(0).(id := DOWN, healthy := false)],
          seq(|s.chunks|, k requires 0 <= k < |s.chunks| => ContestedChunk(s.chunks[k], k == i, k == j)),
          seq(|s.leases|, m requires 0 <= m < |s.leases| => ContestedLease(s.leases[m], s.chunks[j].id)))
  }

  lemma ContestedIsConsistent(s: Sched, i: nat, j: nat, a: Sched)
    requires Consistent(s) && i < j < |s.chunks| && a == Contested(s, i, j)
    ensures Consistent(a) && AllFair(a.workers) && SameQueue(s, a)
  {
    assert a.workers[0].id == HOST && a.workers[1].id == DOWN;
    assert HOST[7] != DOWN[7];
    forall m | 0 <= m < |a.leases| && a.leases[m].isActive
      ensures HasChunk(a.chunks, a.leases[m].chunkId) && HasWorker(a.workers, a.leases[m].workerId)
    {
      assert HasChunk(s.chunks, s.leases[m].chunkId);
      var c :| 0 <= c < |s.chunks| && s.chunks[c].id == s.leases[m].chunkId;
      assert a.chunks[c].id == s.leases[m].chunkId;
    }
  }

  /** The two workers while the tick runs: the host is free again once chunk j has had its turn. */
  ghost predicate ContestedWorkers(workers: seq<Worker>, free: bool) {
    && |workers| == 2 && workers[0] == HostWith(if free then 0 else 1).(activeChunks := workers[0].activeChunks)
    && workers[1].id == DOWN && !workers[1].healthy
  }

  /** The lease is as it was, or it was for one of the first c chunks and has ended. */
  ghost predicate LeaseDuring(chunks: seq<Chunk>, was: Lease, now: Lease, c: nat)
    requires c <= |chunks|
  {
    now == was || (now == was.(isActive := false) && QueuedBefore(chunks, c, was.chunkId))
  }

  lemma LeaseLater(chunks: seq<Chunk>, was: Lease, now: Lease, c: nat)
    requires c < |chunks| && LeaseDuring(chunks, was, now, c)
    ensures LeaseDuring(chunks, was, now, c + 1)
  {
    if QueuedBefore(chunks, c, was.chunkId) {
      var k :| 0 <= k < c && chunks[k].id == was.chunkId;
      assert QueuedBefore(chunks, c + 1, was.chunkId);
    }
  }

  /** No lease is new, those of chunks from c on are untouched, and chunk i loses its lease. */
  ghost predicate ContestedLeases(a: Sched, leases: seq<Lease>, i: nat, c: nat)
    requires i < |a.chunks|
  {
    && |leases| == |a.leases| && c <= |a.chunks|
    && (forall m :: 0 <= m < |leases| ==> LeaseDuring(a.chunks, a.leases[m], leases[m], c))
    && (i < c ==> Unleased(leases, a.chunks[i].id))
  }

  ghost predicate During(a: Sched, t: Ticking, i: nat, j: nat, c: nat)
    requires i < |a.chunks|
  {
    t.out == [] && t.s.chunks == a.chunks && ContestedWorkers(t.s.workers, j < c)
        && ContestedLeases(a, t.s.leases, i, c)
  }

  lemma NobodyPlaces(workers: seq<Worker>, chunk: Chunk, free: bool)
    requires ContestedWorkers(workers, free) && (chunk.platform == 7 || (!free && chunk.cpu == 1))
    ensures Best(workers, chunk, |workers|) == -1
  {
    forall w | 0 <= w < 2 ensures !HardFilters(chunk, workers[w]) {
      assert w == 0 || w == 1;
    }
  }

  /** The first active lease of chunk c during the tick is one of the original table. */
  lemma StillFound(a: Sched, leases: seq<Lease>, i: nat, c: nat)
    requires i < |a.chunks| && c < |a.chunks| && DistinctChunks(a.chunks) && ContestedLeases(a, leases, i, c)
    ensures ActiveLeaseFrom(leases, a.chunks[c].id, 0) == ActiveLeaseFrom(a.leases, a.chunks[c].id, 0)
  {
    forall m | 0 <= m < |leases| ensures Covers(leases[m], a.chunks[c].id) <==> Covers(a.leases[m], a.chunks[c].id) {
      assert LeaseDuring(a.chunks, a.leases[m], leases[m], c);
    }
    SameFound(leases, a.leases, a.chunks[c].id, 0);
  }

  lemma {:induction false} SameFound(a: seq<Lease>, b: seq<Lease>, id: u64, k: nat)
    requires |a| == |b| && k <= |a| && forall m :: 0 <= m < |a| ==> (Covers(a[m], id) <==> Covers(b[m], id))
    ensures ActiveLeaseFrom(a, id, k) == ActiveLeaseFrom(b, id, k)
    decreases |a| - k
  {
    if k < |a| {
      SameFound(a, b, id, k + 1);
    }
  }

  lemma LeasesAfterEnding(a: Sched, leases: seq<Lease>, i: nat, c: nat, l: nat, after: seq<Lease>)
    requires DistinctChunks(a.chunks) && OneLeasePerChunk(a.leases) && i < |a.chunks| && c < |a.chunks|
    requires ContestedLeases(a, leases, i, c) && l < |leases| && Covers(leases[l], a.chunks[c].id)
    requires after == leases[l := leases[l].(isActive := false)]
    ensures ContestedLeases(a, after, i, c + 1)
  {
    forall m | 0 <= m < |leases| ensures LeaseDuring(a.chunks, a.leases[m], after[m], c + 1) {
      LeaseLater(a.chunks, a.leases[m], leases[m], c);
    }
    assert a.chunks[c].id == a.leases[l].chunkId;
    assert QueuedBefore(a.chunks, c + 1, a.leases[l].chunkId);
    if i == c {
      forall m | 0 <= m < |after| && m != l ensures !Covers(after[m], a.chunks[i].id) {
        OtherLease(a, leases, l, m, c);
      }
    }
  }

  lemma OtherLease(a: Sched, leases: seq<Lease>, l: nat, m: nat, c: nat)
    requires OneLeasePerChunk(a.leases) && |leases| == |a.leases| && c < |a.chunks|
    requires l < |leases| && m < |leases| && l != m && Covers(leases[l], a.chunks[c].id)
    requires LeaseDuring(a.chunks, a.leases[l], leases[l], c) && LeaseDuring(a.chunks, a.leases[m], leases[m], c)
    ensures !Covers(leases[m], a.chunks[c].id)
  {
  }

  lemma LeasesAfterNothing(a: Sched, leases: seq<Lease>, i: nat, c: nat)
    requires i < |a.chunks| && c < |a.chunks| && ContestedLeases(a, leases, i, c)
    requires i == c ==> Unleased(leases, a.chunks[i].id)
    ensures ContestedLeases(a, leases, i, c + 1)
  {
    forall m | 0 <= m < |leases| ensures LeaseDuring(a.chunks, a.leases[m], leases[m], c + 1) {
      LeaseLater(a.chunks, a.leases[m], leases[m], c);
    }
  }

  /** Chunk c is blocked, or its lease is the one the setting says: j's has run out, i's does not hold. */
  ghost predicate Setting(s: Sched, nowMs: u64, i: nat, j: nat, l: nat) {
    && Consistent(s) && i < j < |s.chunks| && !s.chunks[i].isBlocked && !s.chunks[j].isBlocked
    && l < |s.leases| && Covers(s.leases[l], s.chunks[j].id) && nowMs > s.leases[l].expiresMs
    && !HoldsLease(s, nowMs, i)
  }

  lemma ContestedSetting(s: Sched, nowMs: u64, i: nat, j: nat, l: nat, a: Sched)
    requires Setting(s, nowMs, i, j, l) && a == Contested(s, i, j)
    ensures Setting(a, nowMs, i, j, l)
  {
    ContestedIsConsistent(s, i, j, a);
    if HoldsLease(a, nowMs, i) {
      var m :| 0 <= m < |a.leases| && Covers(a.leases[m], a.chunks[i].id) && nowMs <= a.leases[m].expiresMs;
      assert Covers(s.leases[m], s.chunks[i].id);
    }
  }

  /** The demands and lease holders of the contested queue. */
  ghost predicate ContestedDemands(a: Sched, i: nat, j: nat)
    requires i < |a.chunks| && j < |a.chunks|
  {
    && (forall k :: 0 <= k < |a.chunks| ==>
        a.chunks[k].cpu == (if k == i || k == j then 1 else 0) && a.chunks[k].memMb == 0)
    && (forall k :: 0 <= k < |a.chunks| && k != i ==> a.chunks[k].platform == 7)
    && (forall m :: 0 <= m < |a.leases| ==>
        a.leases[m].workerId == if a.leases[m].chunkId == a.chunks[j].id then HOST else DOWN)
  }

  lemma RefundContested(s: Sched, l: nat, chunk: Chunk, leaving: bool, free: bool)
    requires l < |s.leases| && ContestedWorkers(s.workers, free) && (leaving ==> !free)
    requires s.leases[l].workerId == (if leaving then HOST else DOWN)
    requires leaving ==> chunk.cpu == 1 && chunk.memMb == 0
    ensures ContestedWorkers(EndLease(s, l, chunk).workers, free || leaving)
  {
    assert HOST[7] != DOWN[7];
    assert WorkerFrom(s.workers, s.leases[l].workerId, 0) == if leaving then 0 else 1;
  }

  /** A turn with a lease to end. */
  lemma EndingTurn(a: Sched, t: Ticking, nowMs: u64, i: nat, j: nat, l: nat, c: nat, k: nat, after: Ticking)
    requires Setting(a, nowMs, i, j, l) && ContestedDemands(a, i, j) && During(a, t, i, j, c) && c < |a.chunks|
    requires !a.chunks[c].isBlocked && k == ActiveLeaseFrom(t.s.leases, a.chunks[c].id, 0)
    requires nowMs > t.s.leases[k].expiresMs && after == Turn(t, c, nowMs)
    ensures During(a, after, i, j, c + 1)
  {
    var chunk := a.chunks[c];
    var ready := EndLease(t.s, k, chunk);
    assert LeaseDuring(a.chunks, a.leases[k], t.s.leases[k], c);
    assert t.s.leases[k].chunkId == a.leases[k].chunkId == chunk.id && t.s.leases[k].workerId == a.leases[k].workerId;
    assert chunk.id == a.chunks[j].id <==> c == j;
    RefundContested(t.s, k, chunk, c == j, j < c);
    LeasesAfterEnding(a, t.s.leases, i, c, k, ready.leases);
    NobodyPlaces(ready.workers, chunk, j < c + 1);
  }

  /** A turn without a lease. */
  lemma IdleTurn(a: Sched, t: Ticking, nowMs: u64, i: nat, j: nat, l: nat, c: nat, after: Ticking)
    requires Setting(a, nowMs, i, j, l) && ContestedDemands(a, i, j) && During(a, t, i, j, c) && c < |a.chunks|
    requires !a.chunks[c].isBlocked && ActiveLeaseFrom(t.s.leases, a.chunks[c].id, 0) < 0 && after == Turn(t, c, nowMs)
    ensures During(a, after, i, j, c + 1)
  {
    StillFound(a, t.s.leases, i, c);
    assert c != j;
    NobodyPlaces(t.s.workers, a.chunks[c], j < c);
    LeasesAfterNothing(a, t.s.leases, i, c);
  }

  lemma ExpiredNotHeld(s: Sched, nowMs: u64, j: nat, l: nat)
    requires OneLeasePerChunk(s.leases) && j < |s.chunks| && l < |s.leases|
    requires Covers(s.leases[l], s.chunks[j].id) && nowMs > s.leases[l].expiresMs
    ensures !HoldsLease(s, nowMs, j)
  {
  }

  /** A turn of a chunk that is blocked or whose lease holds. */
  lemma SkippedTurn(a: Sched, t: Ticking, nowMs: u64, i: nat, j: nat, l: nat, c: nat)
    requires Setting(a, nowMs, i, j, l) && During(a, t, i, j, c) && c < |a.chunks|
    requires a.chunks[c].isBlocked || HoldsLease(a, nowMs, c)
    ensures c != i && c != j && During(a, t, i, j, c + 1)
  {
    ExpiredNotHeld(a, nowMs, j, l);
    LeasesAfterNothing(a, t.s.leases, i, c);
  }

  lemma ContestedTurn(a: Sched, t: Ticking, nowMs: u64, i: nat, j: nat, l: nat, c: nat, after: Ticking)
    requires Setting(a, nowMs, i, j, l) && ContestedDemands(a, i, j) && During(a, t, i, j, c) && c < |a.chunks|
    requires after == LimitedTurn(t, c, nowMs, 1)
    ensures During(a, after, i, j, c + 1)
  {
    var k := ActiveLeaseFrom(t.s.leases, a.chunks[c].id, 0);
    if a.chunks[c].isBlocked {
      SkippedTurn(a, t, nowMs, i, j, l, c);
    } else if k < 0 {
      IdleTurn(a, t, nowMs, i, j, l, c, after);
    } else if nowMs > t.s.leases[k].expiresMs {
      EndingTurn(a, t, nowMs, i, j, l, c, k, after);
    } else {
      StillFound(a, t.s.leases, i, c);
      assert LeaseDuring(a.chunks, a.leases[k], t.s.leases[k], c);
      assert Covers(a.leases[k], a.chunks[c].id) && a.leases[k].expiresMs == t.s.leases[k].expiresMs;
      SkippedTurn(a, t, nowMs, i, j, l, c);
    }
  }

  lemma ContestedStart(a: Sched, i: nat, j: nat)
    requires i < |a.chunks| && ContestedWorkers(a.workers, false)
    ensures During(a, Ticking(a, []), i, j, 0)
  {
  }

  lemma {:induction false} ContestedTick(a: Sched, nowMs: u64, i: nat, j: nat, l: nat, c: nat)
    requires Setting(a, nowMs, i, j, l) && ContestedDemands(a, i, j) && c <= |a.chunks|
    requires ContestedWorkers(a.workers, false)
    ensures During(a, TicksTo(a, nowMs, 1, c), i, j, c)
    decreases c
  {
    if c == 0 {
      ContestedStart(a, i, j);
    } else {
      ContestedTick(a, nowMs, i, j, l, c - 1);
      ContestedTurn(a, TicksTo(a, nowMs, 1, c - 1), nowMs, i, j, l, c - 1, TicksTo(a, nowMs, 1, c));
    }
  }

  /** In the contested queue chunk i ends up without a lease although the host could take it. */
  lemma ContestedNotMaximal(s: Sched, nowMs: u64, i: nat, j: nat, l: nat, a: Sched)
    requires Setting(s, nowMs, i, j, l) && a == Contested(s, i, j)
    ensures !MaximalAt(a, nowMs, 1, i)
  {
    ContestedSetting(s, nowMs, i, j, l, a);
    ContestedTick(a, nowMs, i, j, l, |a.chunks|);
    var after := Tick(a, nowMs, 1).s;
    assert HardFilters(a.chunks[i], after.workers[0]);
  }

  /** Maximality at chunk i is guaranteed, whatever the workers and demands, if and only if the chunk is
      blocked, its lease still holds, or no unblocked chunk behind it has a lease that has run out. */
  lemma MaximalityGuaranteedIff(s: Sched, nowMs: u64, i: nat)
    requires Consistent(s) && i < |s.chunks|
    ensures Guaranteed(s, nowMs, i) <==>
            s.chunks[i].isBlocked || HoldsLease(s, nowMs, i) || NoneExpired(s, nowMs, i + 1)
  {
    if s.chunks[i].isBlocked || HoldsLease(s, nowMs, i) || NoneExpired(s, nowMs, i + 1) {
      forall a, maxLeases | SameQueue(s, a) && Consistent(a) && AllFair(a.workers)
        ensures MaximalAt(a, nowMs, maxLeases, i)
      {
        SameQueueSameLeases(s, a, nowMs, i);
        ConditionSuffices(a, nowMs, maxLeases, i);
      }
    } else {
      var j, l :| i + 1 <= j < |s.chunks| && !s.chunks[j].isBlocked && 0 <= l < |s.leases|
                  && Covers(s.leases[l], s.chunks[j].id) && !(nowMs <= s.leases[l].expiresMs);
      var a := Contested(s, i, j);
      ContestedIsConsistent(s, i, j, a);
      ContestedNotMaximal(s, nowMs, i, j, l, a);
    }
  }

  // ----- A run that ends in a tick that is not maximal -----

  const LARGE: Worker := Worker("worker-1", 0, 0, 2, 0, 0, 0, 0.0, 0, false, false, true, 0.0)
  const SMALL: Worker := Worker("worker-2", 0, 0, 1, 0, 0, 0, 0.0, 0, false, false, true, 1.0)
  const WIDE: Chunk := Chunk(1, 0, 0, 2, 0, false, false, 0)
  const NARROW: Chunk := Chunk(2, 0, 0, 1, 0, false, false, 0)

  function FirstLease(): Lease { NewLease(NARROW, LARGE, 0) }

  /** The wide chunk waits for the large worker, whose lease of the narrow chunk is about to run out;
      a small worker has joined. */
  function Waiting(): Sched { Sched([Charge(LARGE, NARROW), SMALL], [WIDE, NARROW], [FirstLease()]) }

  /** The wide chunk fits nowhere. */
  lemma WideTurn(s: Sched)
    requires s == Waiting()
    ensures Turn(Ticking(s, []), 0, 40000) == Ticking(s, [])
  {
    assert !HardFilters(WIDE, s.workers[0]) && !HardFilters(WIDE, s.workers[1]);
    assert Best(s.workers, WIDE, 2) == -1;
    assert ActiveLeaseFrom(s.leases, 1, 0) == -1;
  }

  function Released(): Sched { Sched([LARGE, SMALL], [WIDE, NARROW], [FirstLease().(isActive := false)]) }

  lemma NarrowExpires(s: Sched)
    requires s == Waiting()
    ensures AfterExpiry(s, 1, 40000) == Some(Released())
  {
    assert ActiveLeaseFrom(s.leases, 2, 0) == 0;
    assert WorkerFrom(s.workers, "worker-1", 0) == 0;
    assert HardFilters(NARROW, LARGE);
    RefundUndoesCharge(LARGE, NARROW);
    var ended := EndLease(s, 0, NARROW);
    assert ended.workers == [LARGE, SMALL];
    assert ended.leases == [FirstLease().(isActive := false)];
  }

  /** The narrow chunk moves to the small worker. */
  lemma NarrowTurn(s: Sched, after: Ticking)
    requires s == Waiting() && after == Turn(Ticking(s, []), 1, 40000)
    ensures |after.out| == 1 && after.s.leases == [NewLease(NARROW, SMALL, 40000)]
    ensures |after.s.workers| == 2 && after.s.workers[0] == LARGE && after.s.chunks == s.chunks
  {
    NarrowExpires(s);
    SmallIsBest();
    var ready := Released();
    assert FreeSlotFrom(ready.leases, 0) == 0;
    assert after == Place(Ticking(ready, []), 1, 40000);
  }

  lemma TwoTurns(s: Sched, nowMs: u64, one: Ticking, two: Ticking)
    requires |s.chunks| == 2 && one == Turn(Ticking(s, []), 0, nowMs) && one.s.chunks == s.chunks && |one.out| < 2
    requires two == Turn(one, 1, nowMs)
    ensures Tick(s, nowMs, 2) == two
  {
    assert TicksTo(s, nowMs, 2, 0) == Ticking(s, []);
    assert TicksTo(s, nowMs, 2, 1) == one;
  }

  lemma LeftWaiting(s: Sched, nowMs: u64, i: nat, after: Ticking, w: nat)
    requires i < |s.chunks| && after == Tick(s, nowMs, 2) && |after.out| < 2 && !s.chunks[i].isBlocked
    requires Unleased(after.s.leases, s.chunks[i].id)
    requires w < |after.s.workers| && HardFilters(s.chunks[i], after.s.workers[w])
    ensures !MaximalAt(s, nowMs, 2, i)
  {
    assert after.s.chunks == s.chunks;
  }

  lemma WaitingNotMaximal(s: Sched)
    requires s == Waiting()
    ensures AllFair(s.workers) && |s.chunks| == 2 && !MaximalAt(s, 40000, 2, 0)
  {
    WideTurn(s);
    var after := Turn(Ticking(s, []), 1, 40000);
    NarrowTurn(s, after);
    TwoTurns(s, 40000, Ticking(s, []), after);
    LeftWaiting(s, 40000, 0, after, 0);
  }

  lemma SmallIsBest()
    ensures Best([LARGE, SMALL], NARROW, 2) == 1
  {
    var workers := [LARGE, SMALL];
    assert Score(NARROW, LARGE).value <= 60.0 && Score(NARROW, SMALL).value >= 70.0;
    assert Placeable(NARROW, workers[1]);
    var b := Best(workers, NARROW, 2);
    assert b == 0 || b == 1;
  }

  lemma FirstTick()
    ensures Tick(Sched([LARGE], [WIDE.(isBlocked := true), NARROW], []), 0, 2).s
         == Sched([Charge(LARGE, NARROW)], [WIDE.(isBlocked := true), NARROW], [FirstLease()])
  {
    var s := Sched([LARGE], [WIDE.(isBlocked := true), NARROW], []);
    assert TicksTo(s, 0, 2, 0) == Ticking(s, []);
    assert TicksTo(s, 0, 2, 1) == Ticking(s, []);
    assert Best([LARGE], NARROW, 1) == 0 by {
      assert Score(NARROW, LARGE).value >= 40.0;
      assert Placeable(NARROW, [LARGE][0]);
    }
    assert s.workers[0 := Charge(LARGE, NARROW)] == [Charge(LARGE, NARROW)];
  }

  /** The run: a blocked wide chunk, a large worker and a narrow chunk arrive, the narrow one is leased,
      a small worker joins and the wide chunk is unblocked. */
  lemma WaitingIsReached() returns (ops: seq<Op>, trace: seq<Sched>)
    ensures IsRun(ops, trace) && trace[|ops|] == Waiting()
  {
    var blocked := WIDE.(isBlocked := true);
    ops, trace := [], [EMPTY];
    ops, trace := Extended(ops, trace, SubmitOp(blocked), Sched([], [blocked], []));
    ops, trace := Extended(ops, trace, RegisterOp(LARGE), Sched([LARGE], [blocked], []));
    ops, trace := Extended(ops, trace, SubmitOp(NARROW), Sched([LARGE], [blocked, NARROW], []));
    FirstTick();
    var leased := Sched([Charge(LARGE, NARROW)], [blocked, NARROW], [FirstLease()]);
    ops, trace := Extended(ops, trace, TickOp(0, 2), leased);
    assert "worker-1"[7] != "worker-2"[7];
    var joined := leased.(workers := [Charge(LARGE, NARROW), SMALL]);
    assert leased.workers + [SMALL] == joined.workers;
    ops, trace := Extended(ops, trace, RegisterOp(SMALL), joined);
    assert joined.chunks[0 := WIDE] == [WIDE, NARROW];
    ops, trace := Extended(ops, trace, SubmitOp(WIDE), Waiting());
  }

  lemma Extended(ops: seq<Op>, trace: seq<Sched>, op: Op, next: Sched) returns (ops': seq<Op>, trace': seq<Sched>)
    requires IsRun(ops, trace) && next == Step(trace[|ops|], op)
    ensures IsRun(ops', trace') && trace'[|ops'|] == next
  {
    RunSnoc(ops, trace, op, next);
    ops', trace' := ops + [op], trace + [next];
  }

  /** The hypothesis on later leases is needed in a reachable state too: the wide chunk is turned away
      while the large worker still counts the narrow one; then the narrow one's lease runs out and it
      moves to the small worker, and the wide chunk waits although the large worker is idle. */
  lemma ExpiryCounterexample() returns (ops: seq<Op>, trace: seq<Sched>, nowMs: u64)
    ensures IsRun(ops, trace) && AllFair(trace[|ops|].workers) && |trace[|ops|].chunks| == 2
    ensures !MaximalAt(trace[|ops|], nowMs, 2, 0)
  {
    ops, trace := WaitingIsReached();
    nowMs := 40000;
    WaitingNotMaximal(trace[|ops|]);
  }
}
