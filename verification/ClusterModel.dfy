/** The cluster state as values (master/src/cluster_state.c): the master record with its fixed tables
    and cached metrics, the calls that change it, and the ring of snapshots handed to readers. */
module ClusterModel {
  import opened MachineInts
  import opened Counting

  const MAX_WORKERS: nat := 32
  const MAX_LEASES: nat := 128
  const RING_SIZE: nat := 4
  const UUID_BYTES: nat := 64

  datatype Health = Online | Draining | Offline
  datatype Status = Bootstrap | Operational | Degraded
  datatype LeaseStatus = Running | Completed | Failed | TimedOut

  datatype Worker = Worker(
    id: u32,
    health: Health,
    lastSeenMs: u64,
    totalMemory: u64,
    reservedMemory: u64,
    totalCores: u32,
    reservedCores: u32)

  /** The progress is kept as the 32 bits of its floating-point representation. */
  datatype Lease = Lease(chunkId: u64, status: LeaseStatus, progressBits: u32, retries: u32)

  datatype Metrics = Metrics(aggMemory: u64, allocMemory: u64, aggCores: u32, allocCores: u32, activeWorkers: u32)

  datatype Snapshot = Snapshot(
    uuid: seq<u8>,
    epoch: u64,
    generation: u64,
    status: Status,
    workers: seq<Worker>,
    totalWorkers: nat,
    leases: seq<Lease>,
    totalLeases: nat,
    metrics: Metrics)

  // What zeroed memory reads as.
  const ZERO_WORKER: Worker := Worker(0, Online, 0, 0, 0, 0, 0)
  const ZERO_LEASE: Lease := Lease(0, Running, 0, 0)
  const ZERO_METRICS: Metrics := Metrics(0, 0, 0, 0, 0)

  ghost predicate Shaped(m: Snapshot) {
    && |m.uuid| == UUID_BYTES && |m.workers| == MAX_WORKERS && |m.leases| == MAX_LEASES
    && m.totalWorkers <= MAX_WORKERS && m.totalLeases <= MAX_LEASES
  }

  // ----- Cached metrics -----

  datatype Figure = AggMemory | AllocMemory | AggCores | AllocCores | ActiveWorkers

  predicate Counts(w: Worker) { w.health == Online || w.health == Draining }

  function Contribution(f: Figure, w: Worker): nat {
    if !Counts(w) then 0 else
      match f
      case AggMemory => w.totalMemory
      case AllocMemory => w.reservedMemory
      case AggCores => w.totalCores
      case AllocCores => w.reservedCores
      case ActiveWorkers => 1
  }

  /** The exact total over the first n workers. */
  function Total(f: Figure, workers: seq<Worker>, n: nat): nat
    requires n <= |workers|
  {
    if n == 0 then 0 else Total(f, workers, n - 1) + Contribution(f, workers[n - 1])
  }

  function Width(f: Figure): nat { if f == AggMemory || f == AllocMemory then TWO_64 else TWO_32 }

  function Cached(f: Figure, m: Metrics): nat {
    match f
    case AggMemory => m.aggMemory
    case AllocMemory => m.allocMemory
    case AggCores => m.aggCores
    case AllocCores => m.allocCores
    case ActiveWorkers => m.activeWorkers
  }

  /** Metrics as the in-place accumulation leaves them: every total modulo its counter's width. */
  function MetricsOf(workers: seq<Worker>, n: nat): (m: Metrics)
    requires n <= |workers|
    ensures forall f :: Cached(f, m) == Total(f, workers, n) % Width(f)
  {
    Metrics(Total(AggMemory, workers, n) % TWO_64, Total(AllocMemory, workers, n) % TWO_64,
            Total(AggCores, workers, n) % TWO_32, Total(AllocCores, workers, n) % TWO_32,
            Total(ActiveWorkers, workers, n) % TWO_32)
  }

  // ----- Calls on the master record -----

  /** A copied string, cut to leave room for its terminator and padded with zeros. */
  function UuidField(text: seq<u8>): (field: seq<u8>)
    ensures |field| == UUID_BYTES
  {
    var n := if |text| < UUID_BYTES then |text| else UUID_BYTES - 1;
    text[..n] + seq(UUID_BYTES - n, _ => 0)
  }

  function Created(uuid: seq<u8>, epoch: u64): Snapshot {
    Snapshot(uuid, epoch, 1, Bootstrap, seq(MAX_WORKERS, _ => ZERO_WORKER), 0, seq(MAX_LEASES, _ => ZERO_LEASE), 0,
             ZERO_METRICS)
  }

  function WorkerFrom(workers: seq<Worker>, id: u32, n: nat, i: nat): (k: int)
    requires i <= n <= |workers|
    ensures k == -1 || i <= k < n
    ensures k >= 0 ==> workers[k].id == id
    ensures forall j :: i <= j < (if k >= 0 then k else n) ==> workers[j].id != id
    decreases n - i
  {
    if i == n then -1 else if workers[i].id == id then i else WorkerFrom(workers, id, n, i + 1)
  }

  function LeaseFrom(leases: seq<Lease>, id: u64, n: nat, i: nat): (k: int)
    requires i <= n <= |leases|
    ensures k == -1 || i <= k < n
    ensures k >= 0 ==> leases[k].chunkId == id
    ensures forall j :: i <= j < (if k >= 0 then k else n) ==> leases[j].chunkId != id
    decreases n - i
  {
    if i == n then -1 else if leases[i].chunkId == id then i else LeaseFrom(leases, id, n, i + 1)
  }

  function Bumped(generation: u64): u64 { (generation + 1) % TWO_64 }

  function Register(m: Snapshot, w: Worker): (Snapshot, bool)
    requires Shaped(m)
  {
    if m.totalWorkers >= MAX_WORKERS || WorkerFrom(m.workers, w.id, m.totalWorkers, 0) >= 0 then (m, false)
    else
      var workers := m.workers[m.totalWorkers := w];
      (m.(workers := workers,
          totalWorkers := m.totalWorkers + 1,
          generation := Bumped(m.generation),
          status := if m.status == Bootstrap then Operational else m.status,
          metrics := MetricsOf(workers, m.totalWorkers + 1)), true)
  }

  function Reported(l: Lease, status: LeaseStatus, progressBits: u32): Lease {
    l.(status := status, progressBits := progressBits,
       retries := if status == Failed || status == TimedOut then (l.retries + 1) % TWO_32 else l.retries)
  }

  function UpdateLease(m: Snapshot, chunkId: u64, status: LeaseStatus, progressBits: u32): (Snapshot, bool)
    requires Shaped(m)
  {
    var k := LeaseFrom(m.leases, chunkId, m.totalLeases, 0);
    if k >= 0 then
      (m.(leases := m.leases[k := Reported(m.leases[k], status, progressBits)], generation := Bumped(m.generation)),
       true)
    else if m.totalLeases >= MAX_LEASES then (m, false)
    else
      (m.(leases := m.leases[m.totalLeases := Reported(ZERO_LEASE.(chunkId := chunkId), status, progressBits)],
          totalLeases := m.totalLeases + 1,
          generation := Bumped(m.generation)), true)
  }

  function Beaten(w: Worker, nowMs: u64): Worker {
    w.(lastSeenMs := nowMs, health := if w.health == Offline then Online else w.health)
  }

  function Heartbeat(m: Snapshot, id: u32, nowMs: u64): (Snapshot, bool)
    requires Shaped(m)
  {
    var k := WorkerFrom(m.workers, id, m.totalWorkers, 0);
    if k < 0 then (m, false)
    else
      var workers := m.workers[k := Beaten(m.workers[k], nowMs)];
      (m.(workers := workers, generation := Bumped(m.generation), metrics := MetricsOf(workers, m.totalWorkers)), true)
  }

  datatype MasterOp =
    | RegisterOp(worker: Worker)
    | LeaseOp(chunkId: u64, status: LeaseStatus, progressBits: u32)
    | HeartbeatOp(id: u32, nowMs: u64)

  function Apply(m: Snapshot, op: MasterOp): (Snapshot, bool)
    requires Shaped(m)
  {
    match op
    case RegisterOp(w) => Register(m, w)
    case LeaseOp(c, s, p) => UpdateLease(m, c, s, p)
    case HeartbeatOp(id, now) => Heartbeat(m, id, now)
  }

  // ----- The invariant of the master record -----

  ghost predicate UnusedAreZero(m: Snapshot)
    requires Shaped(m)
  {
    && (forall i :: m.totalWorkers <= i < MAX_WORKERS ==> m.workers[i] == ZERO_WORKER)
    && (forall i :: m.totalLeases <= i < MAX_LEASES ==> m.leases[i] == ZERO_LEASE)
  }

  ghost predicate UniqueIds(m: Snapshot)
    requires Shaped(m)
  {
    && (forall i, j :: 0 <= i < j < m.totalWorkers ==> m.workers[i].id != m.workers[j].id)
    && (forall i, j :: 0 <= i < j < m.totalLeases ==> m.leases[i].chunkId != m.leases[j].chunkId)
  }

  /** Tables within bounds, unused slots zero, ids unique, the cached metrics up to date, and out of
      bootstrap as soon as there is a worker. */
  ghost predicate Sound(m: Snapshot) {
    && Shaped(m) && UnusedAreZero(m) && UniqueIds(m)
    && m.metrics == MetricsOf(m.workers, m.totalWorkers)
    && (m.totalWorkers > 0 ==> m.status != Bootstrap)
  }

  lemma CreatedIsSound(uuid: seq<u8>, epoch: u64)
    requires |uuid| == UUID_BYTES
    ensures Sound(Created(uuid, epoch))
  {
  }

  lemma ApplyKeepsSound(m: Snapshot, op: MasterOp, after: Snapshot)
    requires Sound(m) && after == Apply(m, op).0
    ensures Sound(after)
  {
  }

  /** A successful call raises the generation by one, strictly unless the counter wraps; a refused
      call changes nothing. */
  lemma ApplyGeneration(m: Snapshot, op: MasterOp)
    requires Shaped(m)
    ensures var (after, ok) := Apply(m, op);
            && (!ok ==> after == m)
            && (ok ==> after.generation == Bumped(m.generation))
            && (ok ==> (after.generation > m.generation <==> m.generation < TWO_64 - 1))
  {
  }

  lemma FitsUnreduced(x: nat, width: nat)
    requires width > 0
    ensures x % width == x <==> x < width
  {
  }

  /** The cached figures are the exact totals over online and draining workers as soon as those fit
      their counters. */
  lemma MetricsExact(m: Snapshot, f: Figure)
    requires Sound(m)
    ensures Cached(f, m.metrics) == Total(f, m.workers, m.totalWorkers) <==>
        Total(f, m.workers, m.totalWorkers) < Width(f)
  {
    assert Cached(f, m.metrics) == Total(f, m.workers, m.totalWorkers) % Width(f);
    FitsUnreduced(Total(f, m.workers, m.totalWorkers), Width(f));
  }

  // ----- The snapshot ring -----

  datatype Ring = Ring(pool: seq<Snapshot>, refs: seq<u32>, tail: nat)

  ghost predicate RingShaped(r: Ring) {
    |r.pool| == RING_SIZE && |r.refs| == RING_SIZE && r.tail < RING_SIZE
  }

  function Next(slot: nat): nat { (slot + 1) % RING_SIZE }

  /** The slot k steps on from the tail. */
  function RingAt(tail: nat, k: nat): (slot: nat)
    requires tail < RING_SIZE && k <= RING_SIZE
    ensures slot < RING_SIZE
  {
    if tail + k < RING_SIZE then tail + k else tail + k - RING_SIZE
  }

  /** The slot the search stops at: the first free one after k steps from the tail on, or, when none
      is free, the tail again. */
  function SlotFrom(refs: seq<u32>, tail: nat, k: nat): (slot: nat)
    requires |refs| == RING_SIZE && tail < RING_SIZE && k <= RING_SIZE
    ensures slot < RING_SIZE
    ensures refs[slot] != 0 ==> slot == tail && forall j :: k <= j < RING_SIZE ==> refs[RingAt(tail, j)] > 0
    decreases RING_SIZE - k
  {
    if k == RING_SIZE || refs[RingAt(tail, k)] == 0 then RingAt(tail, k) else SlotFrom(refs, tail, k + 1)
  }

  function Acquire(r: Ring, m: Snapshot): (Ring, nat)
    requires RingShaped(r)
  {
    var slot := SlotFrom(r.refs, r.tail, 0);
    (Ring(r.pool[slot := m], r.refs[slot := (r.refs[slot] + 1) % TWO_32], Next(slot)), slot)
  }

  function Release(r: Ring, slot: nat): Ring
    requires RingShaped(r)
  {
    if slot < RING_SIZE && r.refs[slot] > 0 then r.(refs := r.refs[slot := r.refs[slot] - 1]) else r
  }

  /** A snapshot in a reader's hands: where it is, and what it was when it was acquired. */
  datatype Handle = Handle(slot: nat, value: Snapshot)

  /** Every held snapshot still reads as it did when it was acquired; slots are held at most once,
      and the reference counts say which. */
  ghost predicate Isolated(r: Ring, held: seq<Handle>) {
    && RingShaped(r)
    && (forall i :: 0 <= i < |held| ==>
        held[i].slot < RING_SIZE && r.refs[held[i].slot] == 1 && r.pool[held[i].slot] == held[i].value)
    && (forall i, j :: 0 <= i < j < |held| ==> held[i].slot != held[j].slot)
    && (forall s :: 0 <= s < RING_SIZE && (forall i :: 0 <= i < |held| ==> held[i].slot != s) ==> r.refs[s] == 0)
  }

  ghost function Slots(held: seq<Handle>): (r: seq<nat>)
    ensures |r| == |held| && forall i :: 0 <= i < |held| ==> r[i] == held[i].slot
  {
    seq(|held|, i requires 0 <= i < |held| => held[i].slot)
  }

  /** All slots are taken exactly when four snapshots are held. */
  lemma FullIffFour(r: Ring, held: seq<Handle>)
    requires Isolated(r, held)
    ensures |held| <= RING_SIZE
    ensures |held| < RING_SIZE <==> exists s :: 0 <= s < RING_SIZE && r.refs[s] == 0
  {
    DistinctFills(Slots(held), RING_SIZE);
    if |held| < RING_SIZE {
      var s :| 0 <= s < RING_SIZE && s !in Slots(held);
      forall i | 0 <= i < |held| ensures held[i].slot != s {
        assert Slots(held)[i] == held[i].slot;
      }
      assert r.refs[s] == 0;
    } else {
      forall s | 0 <= s < RING_SIZE ensures r.refs[s] != 0 {
        assert s in Slots(held);
      }
    }
  }

  lemma EverySlotVisited(refs: seq<u32>, tail: nat, s: nat)
    requires |refs| == RING_SIZE && tail < RING_SIZE && s < RING_SIZE
    requires forall j :: 0 <= j < RING_SIZE ==> refs[RingAt(tail, j)] > 0
    ensures refs[s] > 0
  {
    assert s == RingAt(tail, if s >= tail then s - tail else s + RING_SIZE - tail);
  }

  lemma SlotIsFreeIff(r: Ring)
    requires RingShaped(r)
    ensures r.refs[SlotFrom(r.refs, r.tail, 0)] == 0 <==> exists s :: 0 <= s < RING_SIZE && r.refs[s] == 0
    ensures r.refs[SlotFrom(r.refs, r.tail, 0)] != 0 ==> SlotFrom(r.refs, r.tail, 0) == r.tail
  {
    var slot := SlotFrom(r.refs, r.tail, 0);
    if r.refs[slot] != 0 {
      forall s | 0 <= s < RING_SIZE ensures r.refs[s] != 0 {
        EverySlotVisited(r.refs, r.tail, s);
      }
    }
  }

  /** With fewer than four snapshots out, acquiring returns the master state of that moment in a free
      slot and leaves every held snapshot alone. */
  lemma AcquireIsolates(r: Ring, m: Snapshot, held: seq<Handle>, after: Ring, slot: nat)
    requires Isolated(r, held) && |held| < RING_SIZE && (after, slot) == Acquire(r, m)
    ensures r.refs[slot] == 0 && after.pool[slot] == m
    ensures Isolated(after, held + [Handle(slot, m)])
  {
    FullIffFour(r, held);
    SlotIsFreeIff(r);
    FreeSlotTaken(r, m, held, after, slot);
  }

  lemma FreeSlotTaken(r: Ring, m: Snapshot, held: seq<Handle>, after: Ring, slot: nat)
    requires Isolated(r, held) && slot < RING_SIZE && r.refs[slot] == 0 && RingShaped(after)
    requires after.pool == r.pool[slot := m] && after.refs == r.refs[slot := 1]
    ensures Isolated(after, held + [Handle(slot, m)])
  {
    var held' := held + [Handle(slot, m)];
    forall s | 0 <= s < RING_SIZE && (forall i :: 0 <= i < |held'| ==> held'[i].slot != s) ensures after.refs[s] == 0 {
      assert held'[|held|].slot != s;
      forall i | 0 <= i < |held| ensures held[i].slot != s {
        assert held'[i] == held[i];
      }
    }
  }

  /** Acquiring leaves all held snapshots as they were if and only if fewer than four are held, or the
      overwritten one happens to equal the current master state. */
  lemma AcquireKeepsHeldIff(r: Ring, m: Snapshot, held: seq<Handle>)
    requires Isolated(r, held)
    ensures (forall i :: 0 <= i < |held| ==> Acquire(r, m).0.pool[held[i].slot] == held[i].value) <==>
            |held| < RING_SIZE || r.pool[r.tail] == m
  {
    FullIffFour(r, held);
    SlotIsFreeIff(r);
    var slot := SlotFrom(r.refs, r.tail, 0);
    if |held| < RING_SIZE {
      forall i | 0 <= i < |held| ensures Acquire(r, m).0.pool[held[i].slot] == held[i].value {
        assert r.refs[held[i].slot] == 1;
      }
    } else {
      DistinctFills(Slots(held), RING_SIZE);
      assert slot in Slots(held);
      var i :| 0 <= i < |held| && held[i].slot == slot;
    }
  }

  /** The ring goes around: with nothing held, an acquisition takes the tail slot, and the next one, after
      its release, the slot behind it. */
  lemma RingRotates(r: Ring, m: Snapshot, m': Snapshot)
    requires RingShaped(r) && forall s :: 0 <= s < RING_SIZE ==> r.refs[s] == 0
    ensures var (held, first) := Acquire(r, m);
            && first == r.tail && RingShaped(held)
            && Acquire(Release(held, first), m').1 == if first == 3 then 0 else first + 1
  {
    var (held, first) := Acquire(r, m);
    var free := Release(held, first);
    assert free.refs == r.refs;
  }

  lemma ReleaseIsolates(r: Ring, held: seq<Handle>, i: nat, after: Ring)
    requires Isolated(r, held) && i < |held| && after == Release(r, held[i].slot)
    ensures Isolated(after, held[..i] + held[i + 1..])
  {
    var rest := held[..i] + held[i + 1..];
    assert forall k :: 0 <= k < |rest| ==> rest[k] == held[if k < i then k else k + 1];
    forall s | 0 <= s < RING_SIZE && (forall k :: 0 <= k < |rest| ==> rest[k].slot != s) ensures after.refs[s] == 0 {
      forall k | 0 <= k < |held| && k != i ensures held[k].slot != s {
        assert rest[if k < i then k else k - 1] == held[k];
      }
    }
  }

  function SumRefs(refs: seq<u32>, n: nat): nat
    requires n <= |refs|
  {
    if n == 0 then 0 else SumRefs(refs, n - 1) + refs[n - 1]
  }

  lemma {:induction false} SumUpdate(refs: seq<u32>, i: nat, v: u32, n: nat)
    requires i < |refs| && n <= |refs|
    ensures SumRefs(refs[i := v], n) == SumRefs(refs, n) + if i < n then v - refs[i] else 0
    decreases n
  {
    if n > 0 {
      SumUpdate(refs, i, v, n - 1);
    }
  }

  // ----- Runs -----

  datatype Op = Mutate(op: MasterOp) | AcquireOp | ReleaseOp(index: nat)

  /** The context together with the snapshots in readers' hands. */
  datatype Context = Context(master: Snapshot, ring: Ring, held: seq<Handle>)

  /** Readers hold at most four snapshots at a time and release only what they hold. */
  ghost predicate Disciplined(c: Context, op: Op) {
    match op
    case Mutate(_) => true
    case AcquireOp => |c.held| < RING_SIZE
    case ReleaseOp(i) => i < |c.held|
  }

  ghost predicate Good(c: Context) {
    && Sound(c.master) && Isolated(c.ring, c.held)
    && SumRefs(c.ring.refs, RING_SIZE) == |c.held|
  }

  ghost function Step(c: Context, op: Op): Context
    requires Shaped(c.master) && RingShaped(c.ring) && Disciplined(c, op)
  {
    match op
    case Mutate(o) => c.(master := Apply(c.master, o).0)
    case AcquireOp =>
      var (ring, slot) := Acquire(c.ring, c.master);
      c.(ring := ring, held := c.held + [Handle(slot, c.master)])
    case ReleaseOp(i) => c.(ring := Release(c.ring, c.held[i].slot), held := c.held[..i] + c.held[i + 1..])
  }

  lemma AcquireKeepsGood(c: Context, after: Context)
    requires Good(c) && Disciplined(c, AcquireOp) && after == Step(c, AcquireOp)
    ensures Good(after)
  {
    var slot := SlotFrom(c.ring.refs, c.ring.tail, 0);
    AcquireIsolates(c.ring, c.master, c.held, after.ring, slot);
    assert after.ring.refs == c.ring.refs[slot := 1];
    SumUpdate(c.ring.refs, slot, 1, RING_SIZE);
  }

  lemma ReleaseKeepsGood(c: Context, i: nat, after: Context)
    requires Good(c) && Disciplined(c, ReleaseOp(i)) && after == Step(c, ReleaseOp(i))
    ensures Good(after)
  {
    ReleaseIsolates(c.ring, c.held, i, after.ring);
    assert after.ring.refs == c.ring.refs[c.held[i].slot := 0];
    SumUpdate(c.ring.refs, c.held[i].slot, 0, RING_SIZE);
  }

  lemma StepKeepsGood(c: Context, op: Op, after: Context)
    requires Good(c) && Disciplined(c, op) && after == Step(c, op)
    ensures Good(after)
  {
    match op
    case Mutate(o) => ApplyKeepsSound(c.master, o, after.master);
    case AcquireOp => AcquireKeepsGood(c, after);
    case ReleaseOp(i) => ReleaseKeepsGood(c, i, after);
  }

  ghost predicate RunStep(ops: seq<Op>, trace: seq<Context>, t: int)
    requires 0 <= t < |ops| && |trace| == |ops| + 1
  {
    var c := trace[t];
    Shaped(c.master) && RingShaped(c.ring) && Disciplined(c, ops[t]) && trace[t + 1] == Step(c, ops[t])
  }

  /** A disciplined run from a newly created context. */
  ghost predicate IsRun(uuid: seq<u8>, epoch: u64, ops: seq<Op>, trace: seq<Context>) {
    && |uuid| == UUID_BYTES && |trace| == |ops| + 1
    && trace[0].master == Created(uuid, epoch) && trace[0].held == []
    && RingShaped(trace[0].ring) && trace[0].ring.refs == [0, 0, 0, 0]
    && forall t :: 0 <= t < |ops| ==> RunStep(ops, trace, t)
  }

  /** Through every interleaving of changes, acquisitions and releases: the master record stays sound,
      every held snapshot reads as it did when it was acquired, and the reference counts add up to the
      snapshots held. */
  lemma {:induction false} RunsAreGood(uuid: seq<u8>, epoch: u64, ops: seq<Op>, trace: seq<Context>, t: nat)
    requires IsRun(uuid, epoch, ops, trace) && t < |trace|
    ensures Good(trace[t])
    decreases t
  {
    if t == 0 {
      CreatedIsSound(uuid, epoch);
      assert SumRefs([0, 0, 0, 0], 2) == 0;
    } else {
      RunsAreGood(uuid, epoch, ops, trace, t - 1);
      assert RunStep(ops, trace, t - 1);
      StepKeepsGood(trace[t - 1], ops[t - 1], trace[t]);
    }
  }

  lemma RunSnoc(uuid: seq<u8>, epoch: u64, ops: seq<Op>, trace: seq<Context>, op: Op, next: Context)
    requires IsRun(uuid, epoch, ops, trace) && Good(trace[|ops|])
    requires Disciplined(trace[|ops|], op) && next == Step(trace[|ops|], op)
    ensures IsRun(uuid, epoch, ops + [op], trace + [next])
  {
    var ops', trace' := ops + [op], trace + [next];
    forall t | 0 <= t < |ops'| ensures RunStep(ops', trace', t) {
      if t < |ops| {
        assert RunStep(ops, trace, t);
      }
    }
  }

  /** The ring after n snapshots have been taken of an unchanged master record. */
  ghost predicate TakenOnly(c: Context, master: Snapshot, n: nat) {
    && c.master == master && |c.held| == n
    && forall i :: 0 <= i < n ==> c.held[i].value == master
  }

  /** A run that takes n snapshots, one after the other. */
  lemma {:induction false} AcquireRun(uuid: seq<u8>, epoch: u64, n: nat) returns (ops: seq<Op>, trace: seq<Context>)
    requires |uuid| == UUID_BYTES && n <= RING_SIZE
    ensures IsRun(uuid, epoch, ops, trace) && Good(trace[|ops|])
    ensures TakenOnly(trace[|ops|], Created(uuid, epoch), n)
    decreases n
  {
    if n == 0 {
      var m := Created(uuid, epoch);
      ops, trace := [], [Context(m, Ring([m, m, m, m], [0, 0, 0, 0], 0), [])];
    } else {
      ops, trace := AcquireRun(uuid, epoch, n - 1);
      var next := Step(trace[|ops|], AcquireOp);
      RunSnoc(uuid, epoch, ops, trace, AcquireOp, next);
      ops, trace := ops + [AcquireOp], trace + [next];
    }
    RunsAreGood(uuid, epoch, ops, trace, |ops|);
  }

  /** From every new context a run leads to a fifth snapshot that overwrites a held one: four are
      taken, the record changes, and the next acquisition changes what some reader holds. */
  lemma FifthSnapshotOverwrites(uuid: seq<u8>, epoch: u64, op: MasterOp) returns (ops: seq<Op>, trace: seq<Context>)
    requires |uuid| == UUID_BYTES && Apply(Created(uuid, epoch), op).1
    ensures IsRun(uuid, epoch, ops, trace) && |trace[|ops|].held| == RING_SIZE
    ensures var c := trace[|ops|];
            && Good(c)
            && (exists i :: 0 <= i < RING_SIZE &&
                  Acquire(c.ring, c.master).0.pool[c.held[i].slot] != c.held[i].value)
  {
    ops, trace := AcquireRun(uuid, epoch, RING_SIZE);
    var before := trace[|ops|];
    ApplyGeneration(before.master, op);
    var c := Step(before, Mutate(op));
    RunSnoc(uuid, epoch, ops, trace, Mutate(op), c);
    ops, trace := ops + [Mutate(op)], trace + [c];
    RunsAreGood(uuid, epoch, ops, trace, |ops|);
    HeldValues(c, before.master);
    AcquireKeepsHeldIff(c.ring, c.master, c.held);
  }

  /** With four snapshots of the same record out, all slots hold that record. */
  lemma HeldValues(c: Context, value: Snapshot)
    requires Isolated(c.ring, c.held) && |c.held| == RING_SIZE
    requires forall i :: 0 <= i < RING_SIZE ==> c.held[i].value == value
    ensures c.ring.pool[c.ring.tail] == value
  {
    DistinctFills(Slots(c.held), RING_SIZE);
    assert c.ring.tail in Slots(c.held);
    var i :| 0 <= i < RING_SIZE && c.held[i].slot == c.ring.tail;
  }
}
