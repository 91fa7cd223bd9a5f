/** What the cluster state remembers of the calls made (master/src/cluster_state.c): every lease is exactly
    the sum of the reports about its chunk, every worker the sum of its registration and heartbeats, and
    the figures count what is there. */
module ClusterHistory {
  import opened MachineInts
  import opened ClusterModel

  /** The lease record that all reports about a chunk among the first t calls add up to. */
  function Folded(ops: seq<MasterOp>, chunkId: u64, t: nat): Lease
    requires t <= |ops|
  {
    if t == 0 then ZERO_LEASE.(chunkId := chunkId) else
      var before := Folded(ops, chunkId, t - 1);
      match ops[t - 1]
      case LeaseOp(c, status, bits) => if c == chunkId then Reported(before, status, bits) else before
      case _ => before
  }

  /** Some of the first t calls reported on the chunk. */
  predicate Mentioned(ops: seq<MasterOp>, chunkId: u64, t: nat)
    requires t <= |ops|
  {
    t > 0 && ((ops[t - 1].LeaseOp? && ops[t - 1].chunkId == chunkId) || Mentioned(ops, chunkId, t - 1))
  }

  /** How many of the first t calls reported a failure or a timeout of the chunk. */
  function Failures(ops: seq<MasterOp>, chunkId: u64, t: nat): nat
    requires t <= |ops|
  {
    if t == 0 then 0 else
      Failures(ops, chunkId, t - 1)
      + match ops[t - 1]
        case LeaseOp(c, status, _) => if c == chunkId && (status == Failed || status == TimedOut) then 1 else 0
        case _ => 0
  }

  lemma Wraps(a: nat)
    ensures (a % TWO_32 + 1) % TWO_32 == (a + 1) % TWO_32
  {
  }

  /** The retry counter counts the failures and timeouts, modulo its width. */
  lemma {:induction false} RetriesAreFailures(ops: seq<MasterOp>, chunkId: u64, t: nat)
    requires t <= |ops|
    ensures Folded(ops, chunkId, t).retries == Failures(ops, chunkId, t) % TWO_32
    ensures Folded(ops, chunkId, t).chunkId == chunkId
    decreases t
  {
    if t > 0 {
      RetriesAreFailures(ops, chunkId, t - 1);
      Wraps(Failures(ops, chunkId, t - 1));
    }
  }

  /** The last of the first t calls that reported on the chunk, or -1. */
  function LastReport(ops: seq<MasterOp>, chunkId: u64, t: nat): (i: int)
    requires t <= |ops|
    ensures -1 <= i < t && (i >= 0 ==> ops[i].LeaseOp? && ops[i].chunkId == chunkId)
    ensures forall j :: i < j < t && ops[j].LeaseOp? ==> ops[j].chunkId != chunkId
  {
    if t == 0 then -1
    else if ops[t - 1].LeaseOp? && ops[t - 1].chunkId == chunkId then t - 1
    else LastReport(ops, chunkId, t - 1)
  }

  /** Status and progress are those of the last report. */
  lemma {:induction false} ShowsLastReport(ops: seq<MasterOp>, chunkId: u64, t: nat)
    requires t <= |ops|
    ensures Mentioned(ops, chunkId, t) <==> LastReport(ops, chunkId, t) >= 0
    ensures var i := LastReport(ops, chunkId, t);
            i >= 0 ==>
                Folded(ops, chunkId, t).status == ops[i].status
                    && Folded(ops, chunkId, t).progressBits == ops[i].progressBits
    decreases t
  {
    if t > 0 {
      ShowsLastReport(ops, chunkId, t - 1);
    }
  }

  ghost predicate RunStep(ops: seq<MasterOp>, trace: seq<Snapshot>, t: int)
    requires 0 <= t < |ops| && |trace| == |ops| + 1
  {
    Shaped(trace[t]) && trace[t + 1] == Apply(trace[t], ops[t]).0
  }

  /** The master record through a run of calls from its creation. */
  ghost predicate IsRun(uuid: seq<u8>, epoch: u64, ops: seq<MasterOp>, trace: seq<Snapshot>) {
    && |uuid| == UUID_BYTES && |trace| == |ops| + 1 && trace[0] == Created(uuid, epoch)
    && forall t :: 0 <= t < |ops| ==> RunStep(ops, trace, t)
  }

  /** The chunk has a lease, and it is what its reports add up to; or it has none, and then it was
      never reported on or every report found the table full. */
  ghost predicate Remembered(m: Snapshot, ops: seq<MasterOp>, chunkId: u64, t: nat)
    requires Shaped(m) && t <= |ops|
  {
    var k := LeaseFrom(m.leases, chunkId, m.totalLeases, 0);
    if k >= 0 then m.leases[k] == Folded(ops, chunkId, t) && Mentioned(ops, chunkId, t)
    else !Mentioned(ops, chunkId, t) || m.totalLeases == MAX_LEASES
  }

  lemma {:induction false} UnmentionedIsZero(ops: seq<MasterOp>, chunkId: u64, t: nat)
    requires t <= |ops| && !Mentioned(ops, chunkId, t)
    ensures Folded(ops, chunkId, t) == ZERO_LEASE.(chunkId := chunkId)
    decreases t
  {
    if t > 0 {
      UnmentionedIsZero(ops, chunkId, t - 1);
    }
  }

  /** A report on one chunk leaves the lookup of the others alone. */
  lemma OtherLookup(m: Snapshot, op: MasterOp, chunkId: u64, after: Snapshot)
    requires Sound(m) && op.LeaseOp? && op.chunkId != chunkId && after == Apply(m, op).0
    ensures Shaped(after)
    ensures var k := LeaseFrom(m.leases, chunkId, m.totalLeases, 0);
            LeaseFrom(after.leases, chunkId, after.totalLeases, 0) == k && (k >= 0 ==> after.leases[k] == m.leases[k])
  {
    ApplyKeepsSound(m, op, after);
    var k := LeaseFrom(m.leases, chunkId, m.totalLeases, 0);
    forall j | 0 <= j < after.totalLeases && after.leases[j].chunkId == chunkId
      ensures j < m.totalLeases && m.leases[j].chunkId == chunkId
    {
    }
    if k >= 0 {
      assert after.leases[k] == m.leases[k];
    }
  }

  lemma OwnLookup(m: Snapshot, op: MasterOp, after: Snapshot)
    requires Sound(m) && op.LeaseOp? && after == Apply(m, op).0
    ensures Shaped(after)
    ensures var k := LeaseFrom(m.leases, op.chunkId, m.totalLeases, 0);
            var k' := LeaseFrom(after.leases, op.chunkId, after.totalLeases, 0);
            if k >= 0 then k' == k && after.leases[k] == Reported(m.leases[k], op.status, op.progressBits)
            else if m.totalLeases == MAX_LEASES then after == m
            else k' == m.totalLeases &&
                 after.leases[k'] == Reported(ZERO_LEASE.(chunkId := op.chunkId), op.status, op.progressBits)
  {
    ApplyKeepsSound(m, op, after);
    var k := LeaseFrom(m.leases, op.chunkId, m.totalLeases, 0);
    if k >= 0 {
      assert after.leases[k].chunkId == op.chunkId;
    } else if m.totalLeases < MAX_LEASES {
      assert after.leases[m.totalLeases].chunkId == op.chunkId;
    }
  }

  lemma StepRemembers(m: Snapshot, ops: seq<MasterOp>, chunkId: u64, t: nat, after: Snapshot)
    requires Sound(m) && t < |ops| && Remembered(m, ops, chunkId, t) && after == Apply(m, ops[t]).0
    ensures Shaped(after) && Remembered(after, ops, chunkId, t + 1)
  {
    if ops[t].LeaseOp? {
      if ops[t].chunkId == chunkId {
        OwnLookup(m, ops[t], after);
        if !Mentioned(ops, chunkId, t) {
          UnmentionedIsZero(ops, chunkId, t);
        }
      } else {
        OtherLookup(m, ops[t], chunkId, after);
      }
    }
  }

  lemma {:induction false} RunRemembers(uuid: seq<u8>, epoch: u64, ops: seq<MasterOp>, trace: seq<Snapshot>, t: nat,
                                        chunkId: u64)
    requires IsRun(uuid, epoch, ops, trace) && t < |trace|
    ensures Sound(trace[t]) && Remembered(trace[t], ops, chunkId, t)
    decreases t
  {
    if t == 0 {
      CreatedIsSound(uuid, epoch);
    } else {
      RunRemembers(uuid, epoch, ops, trace, t - 1, chunkId);
      assert RunStep(ops, trace, t - 1);
      ApplyKeepsSound(trace[t - 1], ops[t - 1], trace[t]);
      StepRemembers(trace[t - 1], ops, chunkId, t - 1, trace[t]);
    }
  }

  /** In every run, each lease in the table carries the last reported status and progress of its chunk
      and as many retries as failures and timeouts were reported for it; and a reported chunk is
      missing from the table only when the table is full. */
  lemma LeasesFollowReports(uuid: seq<u8>, epoch: u64, ops: seq<MasterOp>, trace: seq<Snapshot>, t: nat, chunkId: u64)
    requires IsRun(uuid, epoch, ops, trace) && t < |trace|
    ensures Shaped(trace[t])
    ensures var k, i := LeaseFrom(trace[t].leases, chunkId, trace[t].totalLeases, 0), LastReport(ops, chunkId, t);
            && (k >= 0 ==> i >= 0 && trace[t].leases[k].status == ops[i].status
                           && trace[t].leases[k].progressBits == ops[i].progressBits
                           && trace[t].leases[k].retries == Failures(ops, chunkId, t) % TWO_32)
            && (k < 0 && i >= 0 ==> trace[t].totalLeases == MAX_LEASES)
  {
    RunRemembers(uuid, epoch, ops, trace, t, chunkId);
    RetriesAreFailures(ops, chunkId, t);
    ShowsLastReport(ops, chunkId, t);
  }

  // ----- Workers -----

  /** The first registration of the id among the first t calls, or -1. */
  function FirstRegister(ops: seq<MasterOp>, id: u32, t: nat): (i: int)
    requires t <= |ops|
    ensures -1 <= i < t && (i >= 0 ==> ops[i].RegisterOp? && ops[i].worker.id == id)
    ensures forall j :: 0 <= j < (if i >= 0 then i else t) && ops[j].RegisterOp? ==> ops[j].worker.id != id
  {
    if t == 0 then -1 else
      var i := FirstRegister(ops, id, t - 1);
      if i >= 0 then i else if ops[t - 1].RegisterOp? && ops[t - 1].worker.id == id then t - 1 else -1
  }

  /** The last heartbeat of the id among the first t calls, or -1. */
  function LastBeat(ops: seq<MasterOp>, id: u32, t: nat): (i: int)
    requires t <= |ops|
    ensures -1 <= i < t && (i >= 0 ==> ops[i].HeartbeatOp? && ops[i].id == id)
    ensures forall j :: i < j < t && ops[j].HeartbeatOp? ==> ops[j].id != id
  {
    if t == 0 then -1
    else if ops[t - 1].HeartbeatOp? && ops[t - 1].id == id then t - 1
    else LastBeat(ops, id, t - 1)
  }

  /** The worker as registered by call u, and, if call b is a later heartbeat, stamped with its time and
      no longer offline; a draining worker goes on draining. */
  function AsRegistered(ops: seq<MasterOp>, u: int, b: int): Worker
    requires 0 <= u < |ops| && ops[u].RegisterOp? && b < |ops| && (b > u ==> ops[b].HeartbeatOp?)
  {
    var w := ops[u].worker;
    if b <= u then w
    else w.(lastSeenMs := ops[b].nowMs, health := if w.health == Offline then Online else w.health)
  }

  /** The worker is in the table as its registration and its heartbeats say; or it is not, and then it was
      never registered or the table was full. */
  ghost predicate WorkerRemembered(m: Snapshot, ops: seq<MasterOp>, id: u32, t: nat)
    requires Shaped(m) && t <= |ops|
  {
    var k, u := WorkerFrom(m.workers, id, m.totalWorkers, 0), FirstRegister(ops, id, t);
    if k >= 0 then u >= 0 && m.workers[k] == AsRegistered(ops, u, LastBeat(ops, id, t))
    else u < 0 || m.totalWorkers == MAX_WORKERS
  }

  lemma OtherWorkerLookup(m: Snapshot, op: MasterOp, id: u32, after: Snapshot)
    requires Sound(m) && after == Apply(m, op).0
    requires op.RegisterOp? ==> op.worker.id != id
    requires op.HeartbeatOp? ==> op.id != id
    ensures Shaped(after) && m.totalWorkers <= after.totalWorkers
    ensures var k := WorkerFrom(m.workers, id, m.totalWorkers, 0);
            WorkerFrom(after.workers, id, after.totalWorkers, 0) == k && (k >= 0 ==> after.workers[k] == m.workers[k])
  {
    ApplyKeepsSound(m, op, after);
    var k := WorkerFrom(m.workers, id, m.totalWorkers, 0);
    forall j | 0 <= j < after.totalWorkers && after.workers[j].id == id
      ensures j < m.totalWorkers && m.workers[j].id == id
    {
    }
    if k >= 0 {
      assert after.workers[k].id == id;
    }
  }

  lemma RegisterLookup(m: Snapshot, w: Worker, after: Snapshot)
    requires Sound(m) && after == Apply(m, RegisterOp(w)).0
    ensures Shaped(after)
    ensures var k := WorkerFrom(m.workers, w.id, m.totalWorkers, 0);
            var k' := WorkerFrom(after.workers, w.id, after.totalWorkers, 0);
            if k >= 0 || m.totalWorkers == MAX_WORKERS then after == m
            else k' == m.totalWorkers && after.workers[k'] == w
  {
    ApplyKeepsSound(m, RegisterOp(w), after);
    if WorkerFrom(m.workers, w.id, m.totalWorkers, 0) < 0 && m.totalWorkers < MAX_WORKERS {
      assert after.workers[m.totalWorkers].id == w.id;
    }
  }

  lemma HeartbeatLookup(m: Snapshot, id: u32, nowMs: u64, after: Snapshot)
    requires Sound(m) && after == Apply(m, HeartbeatOp(id, nowMs)).0
    ensures Shaped(after) && after.totalWorkers == m.totalWorkers
    ensures var k := WorkerFrom(m.workers, id, m.totalWorkers, 0);
            && WorkerFrom(after.workers, id, after.totalWorkers, 0) == k
            && (k >= 0 ==> var w := m.workers[k];
                           after.workers[k]
                           == w.(lastSeenMs := nowMs, health := if w.health == Offline then Online else w.health))
  {
    ApplyKeepsSound(m, HeartbeatOp(id, nowMs), after);
    var k := WorkerFrom(m.workers, id, m.totalWorkers, 0);
    if k >= 0 {
      assert after.workers[k].id == id;
      assert forall j :: 0 <= j < k ==> after.workers[j] == m.workers[j];
    }
  }

  lemma StepRemembersWorker(m: Snapshot, ops: seq<MasterOp>, id: u32, t: nat, after: Snapshot)
    requires Sound(m) && t < |ops| && WorkerRemembered(m, ops, id, t) && after == Apply(m, ops[t]).0
    ensures Shaped(after) && WorkerRemembered(after, ops, id, t + 1)
  {
    match ops[t]
    case RegisterOp(w) =>
      if w.id == id {
        RegisterLookup(m, w, after);
      } else {
        OtherWorkerLookup(m, ops[t], id, after);
      }
    case HeartbeatOp(h, now) =>
      if h == id {
        HeartbeatLookup(m, id, now, after);
      } else {
        OtherWorkerLookup(m, ops[t], id, after);
      }
    case LeaseOp(_, _, _) => OtherWorkerLookup(m, ops[t], id, after);
  }

  /** In every run each worker in the table is what it was registered as, seen last at its last heartbeat
      since and brought back online by it if it was offline; a registered worker is missing only when the
      table is full. */
  lemma {:induction false} WorkersFollowHeartbeats(uuid: seq<u8>, epoch: u64, ops: seq<MasterOp>, trace: seq<Snapshot>,
                                                   t: nat, id: u32)
    requires IsRun(uuid, epoch, ops, trace) && t < |trace|
    ensures Sound(trace[t]) && WorkerRemembered(trace[t], ops, id, t)
    decreases t
  {
    if t == 0 {
      CreatedIsSound(uuid, epoch);
    } else {
      WorkersFollowHeartbeats(uuid, epoch, ops, trace, t - 1, id);
      assert RunStep(ops, trace, t - 1);
      ApplyKeepsSound(trace[t - 1], ops[t - 1], trace[t]);
      StepRemembersWorker(trace[t - 1], ops, id, t - 1, trace[t]);
    }
  }

  // ----- The record itself -----

  /** A call succeeds exactly when: a new worker finds one of the 32 places, a heartbeat comes from a known
      worker, a report is about a known chunk or finds one of the 128 places. */
  lemma SucceedsIff(m: Snapshot, op: MasterOp)
    requires Shaped(m)
    ensures Apply(m, op).1 <==>
            match op
            case RegisterOp(w) => m.totalWorkers < 32 && forall k :: 0 <= k < m.totalWorkers ==> m.workers[k].id != w.id
            case HeartbeatOp(id, _) => exists k :: 0 <= k < m.totalWorkers && m.workers[k].id == id
            case LeaseOp(c, _, _) =>
              m.totalLeases < 128 || exists k :: 0 <= k < m.totalLeases && m.leases[k].chunkId == c
  {
  }

  /** How many of the first t calls succeeded. */
  ghost function Successes(ops: seq<MasterOp>, trace: seq<Snapshot>, t: nat): nat
    requires t <= |ops| && |trace| == |ops| + 1 && forall u :: 0 <= u < |ops| ==> RunStep(ops, trace, u)
  {
    if t == 0 then 0 else
      assert RunStep(ops, trace, t - 1);
      Successes(ops, trace, t - 1) + if Apply(trace[t - 1], ops[t - 1]).1 then 1 else 0
  }

  lemma NextGeneration(n: nat)
    ensures ((1 + n) % TWO_64 + 1) % TWO_64 == (1 + n + 1) % TWO_64
  {
  }

  lemma StepOfRecord(m: Snapshot, op: MasterOp, after: Snapshot)
    requires Shaped(m) && after == Apply(m, op).0
    ensures after.uuid == m.uuid && after.epoch == m.epoch
    ensures after.generation == if Apply(m, op).1 then (m.generation + 1) % TWO_64 else m.generation
    ensures m.status == (if m.totalWorkers == 0 then Bootstrap else Operational) ==>
              after.status == if after.totalWorkers == 0 then Bootstrap else Operational
  {
  }

  /** In every run the record keeps its name and epoch, its generation is one plus the number of
      successful calls (modulo its width), and it is operational as soon as there is a worker. */
  lemma {:induction false} RecordFollowsCalls(uuid: seq<u8>, epoch: u64, ops: seq<MasterOp>, trace: seq<Snapshot>,
                                              t: nat)
    requires IsRun(uuid, epoch, ops, trace) && t < |trace|
    ensures trace[t].uuid == uuid && trace[t].epoch == epoch
    ensures trace[t].generation == (1 + Successes(ops, trace, t)) % TWO_64
    ensures trace[t].status == if trace[t].totalWorkers == 0 then Bootstrap else Operational
    decreases t
  {
    if t > 0 {
      RecordFollowsCalls(uuid, epoch, ops, trace, t - 1);
      assert RunStep(ops, trace, t - 1);
      StepOfRecord(trace[t - 1], ops[t - 1], trace[t]);
      NextGeneration(Successes(ops, trace, t - 1));
    }
  }

  // ----- What the cached figures count -----

  /** What a worker brings to the cluster: nothing while it is offline. */
  function Brings(f: Figure, w: Worker): nat {
    if w.health == Offline then 0 else
      match f
      case AggMemory => w.totalMemory
      case AllocMemory => w.reservedMemory
      case AggCores => w.totalCores
      case AllocCores => w.reservedCores
      case ActiveWorkers => 1
  }

  /** What the first n workers bring together. */
  function BroughtBy(f: Figure, workers: seq<Worker>, n: nat): nat
    requires n <= |workers|
  {
    if n == 0 then 0 else BroughtBy(f, workers, n - 1) + Brings(f, workers[n - 1])
  }

  lemma {:induction false} TotalIsBrought(f: Figure, workers: seq<Worker>, n: nat)
    requires n <= |workers|
    ensures Total(f, workers, n) == BroughtBy(f, workers, n)
    decreases n
  {
    if n > 0 {
      TotalIsBrought(f, workers, n - 1);
    }
  }

  /** In every state of every run each cached figure is what the workers that are not offline bring
      together, modulo the width of its counter. */
  lemma FiguresCountWorkers(uuid: seq<u8>, epoch: u64, ops: seq<MasterOp>, trace: seq<Snapshot>, t: nat)
    requires IsRun(uuid, epoch, ops, trace) && t < |trace|
    ensures Shaped(trace[t])
    ensures var m, n := trace[t].metrics, trace[t].totalWorkers;
            && m.aggMemory == BroughtBy(AggMemory, trace[t].workers, n) % TWO_64
            && m.allocMemory == BroughtBy(AllocMemory, trace[t].workers, n) % TWO_64
            && m.aggCores == BroughtBy(AggCores, trace[t].workers, n) % TWO_32
            && m.allocCores == BroughtBy(AllocCores, trace[t].workers, n) % TWO_32
            && m.activeWorkers == BroughtBy(ActiveWorkers, trace[t].workers, n)
  {
    RunRemembers(uuid, epoch, ops, trace, t, 0);
    forall f ensures Total(f, trace[t].workers, trace[t].totalWorkers)
                  == BroughtBy(f, trace[t].workers, trace[t].totalWorkers)
    {
      TotalIsBrought(f, trace[t].workers, trace[t].totalWorkers);
    }
    AtMostOneEach(trace[t].workers, trace[t].totalWorkers);
    CachedFigures(trace[t]);
  }

  lemma {:induction false} AtMostOneEach(workers: seq<Worker>, n: nat)
    requires n <= |workers|
    ensures BroughtBy(ActiveWorkers, workers, n) <= n
    decreases n
  {
    if n > 0 {
      AtMostOneEach(workers, n - 1);
    }
  }

  lemma CachedFigures(m: Snapshot)
    requires Sound(m)
    ensures m.metrics.aggMemory == Total(AggMemory, m.workers, m.totalWorkers) % TWO_64
    ensures m.metrics.allocMemory == Total(AllocMemory, m.workers, m.totalWorkers) % TWO_64
    ensures m.metrics.aggCores == Total(AggCores, m.workers, m.totalWorkers) % TWO_32
    ensures m.metrics.allocCores == Total(AllocCores, m.workers, m.totalWorkers) % TWO_32
    ensures m.metrics.activeWorkers == Total(ActiveWorkers, m.workers, m.totalWorkers) % TWO_32
  {
  }
}
