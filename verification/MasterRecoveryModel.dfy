/** The master's half of lease recovery as values (master/src/recovery.c), and what holds over every
    run of its calls. */
module MasterRecoveryModel {
  import opened MachineInts
  import opened Counting

  const MAX_WORKERS: nat := 64
  const MAX_LEASES: nat := 128
  const MAX_RETRIES: nat := 3

  datatype LeaseState = Active | Uncertain | Expired | Reconciled
  datatype RetryPolicy = NoRetry | Immediate | Backoff | Replan
  datatype Health = Ok | Warn | Critical

  datatype Lease = Lease(
    leaseId: u64,
    chunkId: u64,
    workerId: string,
    expiresMs: u64,
    state: LeaseState,
    retryCount: nat,
    policy: RetryPolicy)

  datatype Observation = Observation(workerId: string, lastHeartbeatMs: u64, healthy: bool)

  datatype State = State(workers: seq<Observation>, leases: seq<Lease>, recoveryJobs: nat, health: Health)

  const START: State := State([], [], 0, Ok)

  // ----- Lookups -----

  function WorkerFrom(workers: seq<Observation>, id: string, i: nat): (k: int)
    requires i <= |workers|
    ensures k == -1 || i <= k < |workers|
    ensures k >= 0 ==> workers[k].workerId == id
    ensures forall m :: i <= m < (if k >= 0 then k else |workers|) ==> workers[m].workerId != id
    decreases |workers| - i
  {
    if i == |workers| then -1 else if workers[i].workerId == id then i else WorkerFrom(workers, id, i + 1)
  }

  function LeaseFrom(leases: seq<Lease>, id: u64, i: nat): (k: int)
    requires i <= |leases|
    ensures k == -1 || i <= k < |leases|
    ensures k >= 0 ==> leases[k].leaseId == id
    ensures forall m :: i <= m < (if k >= 0 then k else |leases|) ==> leases[m].leaseId != id
    decreases |leases| - i
  {
    if i == |leases| then -1 else if leases[i].leaseId == id then i else LeaseFrom(leases, id, i + 1)
  }

  // ----- Heartbeats, injection, results -----

  function Heartbeat(s: State, id: string, nowMs: u64): State {
    var k := WorkerFrom(s.workers, id, 0);
    if k >= 0 then s.(workers := s.workers[k := s.workers[k].(lastHeartbeatMs := nowMs, healthy := true)])
    else if |s.workers| < MAX_WORKERS then s.(workers := s.workers + [Observation(id, nowMs, true)])
    else s
  }

  function Inject(s: State, leaseId: u64, chunkId: u64, workerId: string, expiresMs: u64, policy: RetryPolicy): State {
    if |s.leases| < MAX_LEASES
    then s.(leases := s.leases + [Lease(leaseId, chunkId, workerId, expiresMs, Active, 0, policy)])
    else s
  }

  /** The first lease with the id, if it is still open and the result comes from its worker. */
  function Accepting(s: State, leaseId: u64, workerId: string): (k: int)
    ensures k == -1 || 0 <= k < |s.leases|
    ensures k >= 0 ==> k == LeaseFrom(s.leases, leaseId, 0)
  {
    var k := LeaseFrom(s.leases, leaseId, 0);
    if k < 0 || s.leases[k].state == Expired || s.leases[k].state == Reconciled || s.leases[k].workerId != workerId
    then -1 else k
  }

  function Result(s: State, leaseId: u64, workerId: string): (State, bool) {
    var k := Accepting(s, leaseId, workerId);
    if k < 0 then (s, false) else (s.(leases := s.leases[k := s.leases[k].(state := Reconciled)]), true)
  }

  // ----- Sweeping -----

  /** The worker counted as healthy but its last heartbeat is too old; the difference of the two
      unsigned times wraps as in the source. */
  predicate Missed(w: Observation, nowMs: u64, timeoutMs: u64) {
    w.healthy && (nowMs - w.lastHeartbeatMs) % TWO_64 > timeoutMs
  }

  function Observed(w: Observation, nowMs: u64, timeoutMs: u64): Observation {
    if Missed(w, nowMs, timeoutMs) then w.(healthy := false) else w
  }

  /** One of the first n workers carries the id and missed its window in this sweep. */
  predicate Lost(workers: seq<Observation>, nowMs: u64, timeoutMs: u64, n: nat, id: string)
    requires n <= |workers|
    ensures Lost(workers, nowMs, timeoutMs, n, id) <==>
            exists i :: 0 <= i < n && workers[i].workerId == id && Missed(workers[i], nowMs, timeoutMs)
  {
    n > 0 && ((workers[n - 1].workerId == id && Missed(workers[n - 1], nowMs, timeoutMs))
              || Lost(workers, nowMs, timeoutMs, n - 1, id))
  }

  function MarkLost(l: Lease, lost: bool): Lease {
    if lost && l.state == Active then l.(state := Uncertain) else l
  }

  /** The lease is taken off its worker by this sweep. */
  predicate Due(l: Lease, nowMs: u64) {
    l.state == Uncertain || (l.state == Active && nowMs > l.expiresMs)
  }

  function Retire(l: Lease): Lease {
    l.(retryCount := l.retryCount + 1,
       state := if l.policy != NoRetry && l.retryCount + 1 <= MAX_RETRIES then Expired else Reconciled)
  }

  function RetireDue(l: Lease, nowMs: u64): Lease {
    if Due(l, nowMs) then Retire(l) else l
  }

  /** What the sweep makes of one lease. */
  function SweptLease(workers: seq<Observation>, l: Lease, nowMs: u64, timeoutMs: u64): Lease {
    RetireDue(MarkLost(l, Lost(workers, nowMs, timeoutMs, |workers|, l.workerId)), nowMs)
  }

  function UncertainCount(leases: seq<Lease>, n: nat): (c: nat)
    requires n <= |leases|
    ensures c <= n
    ensures c == 0 <==> forall i :: 0 <= i < n ==> leases[i].state != Uncertain
  {
    if n == 0 then 0 else UncertainCount(leases, n - 1) + if leases[n - 1].state == Uncertain then 1 else 0
  }

  function DueCount(leases: seq<Lease>, nowMs: u64, n: nat): nat
    requires n <= |leases|
  {
    if n == 0 then 0 else DueCount(leases, nowMs, n - 1) + if Due(leases[n - 1], nowMs) then 1 else 0
  }

  function Monus(a: int, b: int): nat { if a >= b then a - b else 0 }

  /** The leases after the first loop. */
  function MarkedLeases(s: State, nowMs: u64, timeoutMs: u64): (r: seq<Lease>)
    ensures |r| == |s.leases|
    ensures forall i :: 0 <= i < |r| ==>
        r[i] == MarkLost(s.leases[i], Lost(s.workers, nowMs, timeoutMs, |s.workers|, s.leases[i].workerId))
  {
    seq(|s.leases|, i requires 0 <= i < |s.leases| =>
          MarkLost(s.leases[i], Lost(s.workers, nowMs, timeoutMs, |s.workers|, s.leases[i].workerId)))
  }

  function SweptLeases(s: State, nowMs: u64, timeoutMs: u64): (r: seq<Lease>)
    ensures |r| == |s.leases|
    ensures forall i :: 0 <= i < |r| ==> r[i] == SweptLease(s.workers, s.leases[i], nowMs, timeoutMs)
  {
    seq(|s.leases|, i requires 0 <= i < |s.leases| => SweptLease(s.workers, s.leases[i], nowMs, timeoutMs))
  }

  function SweptWorkers(s: State, nowMs: u64, timeoutMs: u64): (r: seq<Observation>)
    ensures |r| == |s.workers|
    ensures forall i :: 0 <= i < |r| ==> r[i] == Observed(s.workers[i], nowMs, timeoutMs)
  {
    seq(|s.workers|, i requires 0 <= i < |s.workers| => Observed(s.workers[i], nowMs, timeoutMs))
  }

  predicate HealthyUpTo(workers: seq<Observation>, n: nat)
    requires n <= |workers|
    ensures HealthyUpTo(workers, n) <==> forall i :: 0 <= i < n ==> workers[i].healthy
  {
    n == 0 || (HealthyUpTo(workers, n - 1) && workers[n - 1].healthy)
  }

  /** A sweep judges every worker and every lease on the state it starts from; the job counter gains
      one per newly uncertain lease and loses one per lease taken off, stopping at zero. */
  function Sweep(s: State, nowMs: u64, timeoutMs: u64): State {
    var marked := MarkedLeases(s, nowMs, timeoutMs);
    State(SweptWorkers(s, nowMs, timeoutMs),
          SweptLeases(s, nowMs, timeoutMs),
          Monus(s.recoveryJobs + UncertainCount(marked, |marked|) - UncertainCount(s.leases, |s.leases|),
                DueCount(marked, nowMs, |marked|)),
          if HealthyUpTo(SweptWorkers(s, nowMs, timeoutMs), |s.workers|) then Ok else Warn)
  }

  // ----- Runs -----

  datatype Op =
    | HeartbeatOp(worker: string, nowMs: u64)
    | SweepOp(nowMs: u64, timeoutMs: u64)
    | ResultOp(leaseId: u64, worker: string)
    | InjectOp(leaseId: u64, chunkId: u64, worker: string, expiresMs: u64, policy: RetryPolicy)

  function Step(s: State, op: Op): State {
    match op
    case HeartbeatOp(w, now) => Heartbeat(s, w, now)
    case SweepOp(now, timeout) => Sweep(s, now, timeout)
    case ResultOp(l, w) => Result(s, l, w).0
    case InjectOp(l, c, w, e, p) => Inject(s, l, c, w, e, p)
  }

  /** The call is a result for the lease id, and it is accepted. */
  predicate Commits(s: State, op: Op, leaseId: u64) {
    op.ResultOp? && op.leaseId == leaseId && Result(s, leaseId, op.worker).1
  }

  ghost predicate RunStep(ops: seq<Op>, trace: seq<State>, t: int)
    requires 0 <= t < |ops| && |trace| == |ops| + 1
  {
    trace[t + 1] == Step(trace[t], ops[t])
  }

  /** A run of calls from any state. */
  ghost predicate IsRun(ops: seq<Op>, trace: seq<State>) {
    |trace| == |ops| + 1 && forall t :: 0 <= t < |ops| ==> RunStep(ops, trace, t)
  }

  // ----- Closed leases stay closed -----

  predicate Closed(l: Lease) { l.state == Expired || l.state == Reconciled }

  /** Slots are never removed or renamed, and a closed lease is never touched again. */
  ghost predicate SlotsPersist(a: seq<Lease>, b: seq<Lease>) {
    && |a| <= |b|
    && forall i :: 0 <= i < |a| ==> a[i].leaseId == b[i].leaseId && (Closed(a[i]) ==> b[i] == a[i])
  }

  lemma StepPersists(s: State, op: Op)
    ensures SlotsPersist(s.leases, Step(s, op).leases)
  {
  }

  lemma {:induction false} RunPersists(ops: seq<Op>, trace: seq<State>, t: nat, u: nat)
    requires IsRun(ops, trace) && t <= u < |trace|
    ensures SlotsPersist(trace[t].leases, trace[u].leases)
    decreases u - t
  {
    if t < u {
      RunPersists(ops, trace, t, u - 1);
      assert RunStep(ops, trace, u - 1);
      StepPersists(trace[u - 1], ops[u - 1]);
    }
  }

  /** The slot a lease id leads to never changes. */
  lemma FirstSlotPersists(a: seq<Lease>, b: seq<Lease>, leaseId: u64)
    requires SlotsPersist(a, b) && LeaseFrom(a, leaseId, 0) >= 0
    ensures LeaseFrom(b, leaseId, 0) == LeaseFrom(a, leaseId, 0)
  {
    var k := LeaseFrom(a, leaseId, 0);
    assert b[k].leaseId == leaseId;
    assert forall m :: 0 <= m < k ==> b[m].leaseId == a[m].leaseId;
  }

  /** In every run at most one result is accepted per lease id (also when ids repeat). */
  lemma AcceptedAtMostOnce(ops: seq<Op>, trace: seq<State>, t: nat, u: nat, leaseId: u64)
    requires IsRun(ops, trace) && t < u < |ops| && Commits(trace[t], ops[t], leaseId)
    ensures !Commits(trace[u], ops[u], leaseId)
  {
    var k := LeaseFrom(trace[t].leases, leaseId, 0);
    assert RunStep(ops, trace, t);
    var committed := trace[t + 1].leases;
    assert committed[k].state == Reconciled && committed[k].leaseId == leaseId;
    StepPersists(trace[t], ops[t]);
    FirstSlotPersists(trace[t].leases, committed, leaseId);
    RunPersists(ops, trace, t + 1, u);
    FirstSlotPersists(committed, trace[u].leases, leaseId);
  }

  /** The slot whose result is committed is at no time of the run, before or after, requeued. */
  lemma CommittedNeverRequeued(ops: seq<Op>, trace: seq<State>, t: nat, u: nat, leaseId: u64)
    requires IsRun(ops, trace) && t < |ops| && u < |trace| && Commits(trace[t], ops[t], leaseId)
    ensures var k := LeaseFrom(trace[t].leases, leaseId, 0);
            k < |trace[u].leases| ==> trace[u].leases[k].state != Expired
  {
    var k := LeaseFrom(trace[t].leases, leaseId, 0);
    assert RunStep(ops, trace, t);
    if u <= t {
      RunPersists(ops, trace, u, t);
    } else {
      RunPersists(ops, trace, t + 1, u);
    }
  }

  ghost predicate DistinctLeaseIds(leases: seq<Lease>) {
    forall i, j :: 0 <= i < j < |leases| ==> leases[i].leaseId != leases[j].leaseId
  }

  /** While lease ids are distinct, no lease id is both requeued and committed in one run. */
  lemma NoRequeueAndCommit(ops: seq<Op>, trace: seq<State>, t: nat, u: nat, leaseId: u64, m: nat)
    requires IsRun(ops, trace) && t < |ops| && u < |trace| && Commits(trace[t], ops[t], leaseId)
    requires DistinctLeaseIds(trace[|ops|].leases)
    requires m < |trace[u].leases| && trace[u].leases[m].leaseId == leaseId
    ensures trace[u].leases[m].state != Expired
  {
    var k := LeaseFrom(trace[t].leases, leaseId, 0);
    RunPersists(ops, trace, t, |ops|);
    RunPersists(ops, trace, u, |ops|);
    assert trace[|ops|].leases[k].leaseId == trace[|ops|].leases[m].leaseId;
    CommittedNeverRequeued(ops, trace, t, u, leaseId);
  }

  // ----- Distinct ids are exactly what that takes -----

  ghost function IdsOf(leases: seq<Lease>): (ids: seq<u64>)
    ensures |ids| == |leases| && forall i :: 0 <= i < |leases| ==> ids[i] == leases[i].leaseId
  {
    seq(|leases|, i requires 0 <= i < |leases| => leases[i].leaseId)
  }

  /** Call t commits a result for a lease id that at time u is also requeued, in slot m. */
  ghost predicate CommittedAndRequeued(ops: seq<Op>, trace: seq<State>, t: int, u: int, m: int) {
    && 0 <= t < |ops| && |trace| == |ops| + 1 && 0 <= u < |trace| && 0 <= m < |trace[u].leases|
    && Commits(trace[t], ops[t], trace[u].leases[m].leaseId) && trace[u].leases[m].state == Expired
  }

  /** A run from the start in which leases with these ids, in this order, are handed out. */
  ghost predicate HandsOut(ops: seq<Op>, trace: seq<State>, ids: seq<u64>) {
    IsRun(ops, trace) && trace[0] == START && IdsOf(trace[|ops|].leases) == ids
  }

  /** No such run commits and requeues one of the ids. */
  ghost predicate NeverBoth(ids: seq<u64>) {
    forall ops, trace, t, u, m :: HandsOut(ops, trace, ids) ==> !CommittedAndRequeued(ops, trace, t, u, m)
  }

  function Injected(id: u64): Lease { Lease(id, 0, "a", 0, Active, 0, Immediate) }

  function AllInjected(ids: seq<u64>, n: nat): (leases: seq<Lease>)
    requires n <= |ids|
    ensures |leases| == n && forall i :: 0 <= i < n ==> leases[i] == Injected(ids[i])
  {
    seq(n, i requires 0 <= i < n => Injected(ids[i]))
  }

  lemma RunSnoc(ops: seq<Op>, trace: seq<State>, op: Op, next: State)
    requires IsRun(ops, trace) && next == Step(trace[|ops|], op)
    ensures IsRun(ops + [op], trace + [next])
  {
    var ops', trace' := ops + [op], trace + [next];
    forall t | 0 <= t < |ops'| ensures RunStep(ops', trace', t) {
      if t < |ops| {
        assert RunStep(ops, trace, t);
      }
    }
  }

  /** The run that injects the ids one after the other. */
  lemma {:induction false} InjectRun(ids: seq<u64>, n: nat) returns (ops: seq<Op>, trace: seq<State>)
    requires n <= |ids| <= MAX_LEASES
    ensures IsRun(ops, trace) && trace[0] == START && trace[|ops|] == START.(leases := AllInjected(ids, n))
    decreases n
  {
    if n == 0 {
      ops, trace := [], [START];
    } else {
      ops, trace := InjectRun(ids, n - 1);
      var op := InjectOp(ids[n - 1], 0, "a", 0, Immediate);
      var next := Step(trace[|ops|], op);
      assert AllInjected(ids, n - 1) + [Injected(ids[n - 1])] == AllInjected(ids, n);
      RunSnoc(ops, trace, op, next);
      ops, trace := ops + [op], trace + [next];
    }
  }

  /** The first lease with the repeated id is committed; the sweep then requeues the second. */
  lemma CommitThenSweep(ids: seq<u64>, i: nat, j: nat, s: State, committed: State, swept: State)
    requires i < j < |ids| && ids[i] == ids[j] && s == START.(leases := AllInjected(ids, |ids|))
    requires committed == Step(s, ResultOp(ids[i], "a")) && swept == Step(committed, SweepOp(1, 0))
    ensures Commits(s, ResultOp(ids[i], "a"), ids[i])
    ensures IdsOf(swept.leases) == ids && swept.leases[j].state == Expired
  {
    var k := LeaseFrom(s.leases, ids[i], 0);
    assert s.leases[i].leaseId == ids[i];
    assert 0 <= k <= i;
    assert committed.leases == s.leases[k := s.leases[k].(state := Reconciled)];
    assert committed.leases[j] == Injected(ids[j]);
  }

  /** Every list with a repeated id that fits the table has such a run: inject all ids, report a result
      for the repeated one, and sweep. */
  lemma RepeatedLeaseIdCounterexample(ids: seq<u64>) returns (ops: seq<Op>, trace: seq<State>, t: nat, u: nat, m: nat)
    requires |ids| <= MAX_LEASES && !Distinct(ids)
    ensures HandsOut(ops, trace, ids) && CommittedAndRequeued(ops, trace, t, u, m)
  {
    var i, j :| 0 <= i < j < |ids| && ids[i] == ids[j];
    ops, trace := InjectRun(ids, |ids|);
    t := |ops|;
    var s := trace[t];
    var committed := Step(s, ResultOp(ids[i], "a"));
    var swept := Step(committed, SweepOp(1, 0));
    CommitThenSweep(ids, i, j, s, committed, swept);
    RunSnoc(ops, trace, ResultOp(ids[i], "a"), committed);
    ops, trace := ops + [ResultOp(ids[i], "a")], trace + [committed];
    RunSnoc(ops, trace, SweepOp(1, 0), swept);
    ops, trace := ops + [SweepOp(1, 0)], trace + [swept];
    u, m := t + 2, j;
  }

  lemma DistinctNeverBoth(ops: seq<Op>, trace: seq<State>, ids: seq<u64>, t: int, u: int, m: int)
    requires HandsOut(ops, trace, ids) && Distinct(ids)
    ensures !CommittedAndRequeued(ops, trace, t, u, m)
  {
    if CommittedAndRequeued(ops, trace, t, u, m) {
      var leases := trace[|ops|].leases;
      forall i, j | 0 <= i < j < |leases| ensures leases[i].leaseId != leases[j].leaseId {
        assert ids[i] != ids[j];
      }
      NoRequeueAndCommit(ops, trace, t, u, trace[u].leases[m].leaseId, m);
    }
  }

  /** Over all runs from the start: no lease id is both committed and requeued if and only if the ids
      handed out are distinct. */
  lemma NeverBothIffDistinct(ids: seq<u64>)
    requires |ids| <= MAX_LEASES
    ensures NeverBoth(ids) <==> Distinct(ids)
  {
    if Distinct(ids) {
      forall ops, trace, t, u, m | HandsOut(ops, trace, ids) ensures !CommittedAndRequeued(ops, trace, t, u, m) {
        DistinctNeverBoth(ops, trace, ids, t, u, m);
      }
    } else {
      var ops, trace, t, u, m := RepeatedLeaseIdCounterexample(ids);
    }
  }

  // ----- The invariant between calls -----

  /** Open leases have never been retried, closed ones at most once. */
  ghost predicate LeaseOk(l: Lease) {
    && l.state != Uncertain && l.retryCount <= 1
    && (l.state == Active ==> l.retryCount == 0)
    && (l.state == Expired ==> l.policy != NoRetry && l.retryCount == 1)
  }

  ghost predicate Valid(s: State) {
    && |s.workers| <= MAX_WORKERS && |s.leases| <= MAX_LEASES
    && (forall i, j :: 0 <= i < j < |s.workers| ==> s.workers[i].workerId != s.workers[j].workerId)
    && (forall i :: 0 <= i < |s.leases| ==> LeaseOk(s.leases[i]))
    && s.recoveryJobs == 0
  }

  lemma {:induction false} UncertainIsDue(leases: seq<Lease>, nowMs: u64, n: nat)
    requires n <= |leases|
    ensures UncertainCount(leases, n) <= DueCount(leases, nowMs, n)
    decreases n
  {
    if n > 0 {
      UncertainIsDue(leases, nowMs, n - 1);
    }
  }

  /** The job counter ends at zero whenever it did not exceed the uncertain leases before. */
  lemma SweepClearsJobs(s: State, nowMs: u64, timeoutMs: u64)
    requires s.recoveryJobs <= UncertainCount(s.leases, |s.leases|)
    ensures Sweep(s, nowMs, timeoutMs).recoveryJobs == 0
  {
    var marked := MarkedLeases(s, nowMs, timeoutMs);
    UncertainIsDue(marked, nowMs, |marked|);
  }

  /** From any state, a sweep leaves no uncertain lease, no active lease past its time, and no active
      lease on a worker that missed its window in this sweep. */
  lemma SweepResolves(s: State, nowMs: u64, timeoutMs: u64, i: nat)
    requires i < |s.leases|
    ensures var l := Sweep(s, nowMs, timeoutMs).leases[i];
            && l.state != Uncertain
            && (l.state == Active ==>
                nowMs <= l.expiresMs && !Lost(s.workers, nowMs, timeoutMs, |s.workers|, l.workerId))
    ensures s.leases[i].state == Active ==>
              (Sweep(s, nowMs, timeoutMs).leases[i] == s.leases[i] <==>
               nowMs <= s.leases[i].expiresMs && !Lost(s.workers, nowMs, timeoutMs, |s.workers|, s.leases[i].workerId))
  {
  }

  lemma SweepKeepsLeaseOk(s: State, nowMs: u64, timeoutMs: u64, i: nat)
    requires i < |s.leases| && LeaseOk(s.leases[i])
    ensures LeaseOk(Sweep(s, nowMs, timeoutMs).leases[i])
  {
  }

  lemma SweepKeepsValid(s: State, nowMs: u64, timeoutMs: u64)
    requires Valid(s)
    ensures Valid(Sweep(s, nowMs, timeoutMs))
  {
    SweepClearsJobs(s, nowMs, timeoutMs);
    var after := Sweep(s, nowMs, timeoutMs);
    forall i | 0 <= i < |after.leases| ensures LeaseOk(after.leases[i]) {
      assert LeaseOk(s.leases[i]);
      SweepKeepsLeaseOk(s, nowMs, timeoutMs, i);
    }
  }

  lemma StepKeepsValid(s: State, op: Op, after: State)
    requires Valid(s) && after == Step(s, op)
    ensures Valid(after)
  {
    if op.SweepOp? {
      SweepKeepsValid(s, op.nowMs, op.timeoutMs);
    }
  }

  /** After every call of every run from the start: no lease is uncertain, no recovery job is open,
      and every lease has been retried at most once. */
  lemma {:induction false} RunsAreValid(ops: seq<Op>, trace: seq<State>, t: nat)
    requires IsRun(ops, trace) && trace[0] == START && t < |trace|
    ensures Valid(trace[t])
    decreases t
  {
    if t > 0 {
      RunsAreValid(ops, trace, t - 1);
      assert RunStep(ops, trace, t - 1);
      StepKeepsValid(trace[t - 1], ops[t - 1], trace[t]);
    }
  }

  /** The worker with the id is known and counts as healthy, last heard of at the given time. */
  ghost predicate HeardOf(s: State, id: string, nowMs: u64) {
    exists k :: 0 <= k < |s.workers| && s.workers[k] == Observation(id, nowMs, true)
  }

  /** A heartbeat is recorded unless the worker is new and the table is full; no other observation and
      no lease changes. */
  lemma HeartbeatRecorded(s: State, id: string, nowMs: u64)
    requires Valid(s)
    ensures HeardOf(Heartbeat(s, id, nowMs), id, nowMs) <==>
        WorkerFrom(s.workers, id, 0) >= 0 || |s.workers| < MAX_WORKERS
    ensures Heartbeat(s, id, nowMs).leases == s.leases
    ensures forall k :: 0 <= k < |s.workers| && s.workers[k].workerId != id ==>
        Heartbeat(s, id, nowMs).workers[k] == s.workers[k]
  {
    var after := Heartbeat(s, id, nowMs);
    var k := WorkerFrom(s.workers, id, 0);
    if k >= 0 {
      assert after.workers[k] == Observation(id, nowMs, true);
    } else if |s.workers| < MAX_WORKERS {
      assert after.workers[|s.workers|] == Observation(id, nowMs, true);
    }
  }

  /** A worker heard of within the timeout survives a sweep: it stays healthy, and its active leases
      are taken off only when their own time has run out. */
  lemma HeartbeatProtects(s: State, id: string, beatMs: u64, nowMs: u64, timeoutMs: u64, i: nat)
    requires Valid(s) && HeardOf(s, id, beatMs) && beatMs <= nowMs && nowMs - beatMs <= timeoutMs
    requires i < |s.leases| && s.leases[i].workerId == id && s.leases[i].state == Active
    ensures HeardOf(Sweep(s, nowMs, timeoutMs), id, beatMs)
    ensures Sweep(s, nowMs, timeoutMs).leases[i].state == Active <==> nowMs <= s.leases[i].expiresMs
  {
    var k :| 0 <= k < |s.workers| && s.workers[k] == Observation(id, beatMs, true);
    assert !Missed(s.workers[k], nowMs, timeoutMs);
    assert Sweep(s, nowMs, timeoutMs).workers[k] == s.workers[k];
    assert !Lost(s.workers, nowMs, timeoutMs, |s.workers|, id);
    SweepResolves(s, nowMs, timeoutMs, i);
  }

  /** A lease leaves the active state at most once, so the retry limit never decides anything: whether
      a lease taken off is requeued depends on its policy alone. */
  lemma RetryLimitNeverBinds(ops: seq<Op>, trace: seq<State>, t: nat, i: nat)
    requires IsRun(ops, trace) && trace[0] == START && t < |ops| && ops[t].SweepOp?
    requires i < |trace[t].leases| && i < |trace[t + 1].leases|
    requires trace[t].leases[i].state == Active && trace[t + 1].leases[i].state != Active
    ensures trace[t + 1].leases[i].state == (if trace[t].leases[i].policy == NoRetry then Reconciled else Expired)
    ensures trace[t + 1].leases[i].retryCount == 1
  {
    RunsAreValid(ops, trace, t);
    assert RunStep(ops, trace, t);
    assert LeaseOk(trace[t].leases[i]);
  }
}
