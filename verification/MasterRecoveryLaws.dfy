/** Who may close a lease on the master, and when a worker counts as lost, in terms of the calls made
    (master/src/recovery.c). */
module MasterRecoveryLaws {
  import opened MachineInts
  import opened MasterRecoveryModel

  // ----- Where leases come from -----

  /** The injections among the first t calls that found room in the table of 128. */
  function Injections(ops: seq<Op>, t: nat): (r: seq<Op>)
    requires t <= |ops|
    ensures forall k :: 0 <= k < |r| ==> r[k].InjectOp?
    ensures forall k :: 0 <= k < |r| ==> exists u :: 0 <= u < t && ops[u] == r[k]
  {
    if t == 0 then [] else
      var r := Injections(ops, t - 1);
      assert forall k :: 0 <= k < |r| ==> exists u :: 0 <= u < t && ops[u] == r[k];
      if ops[t - 1].InjectOp? && |r| < 128 then r + [ops[t - 1]] else r
  }

  /** The lease is the injected one; only its state and its retries may have changed. */
  ghost predicate ComesFrom(l: Lease, op: Op) {
    && op.InjectOp?
    && l.leaseId == op.leaseId && l.chunkId == op.chunkId && l.workerId == op.worker
    && l.expiresMs == op.expiresMs && l.policy == op.policy
  }

  ghost predicate AllComeFrom(leases: seq<Lease>, injected: seq<Op>) {
    |leases| == |injected| && forall k :: 0 <= k < |leases| ==> ComesFrom(leases[k], injected[k])
  }

  lemma StepKeepsOrigin(s: State, op: Op, injected: seq<Op>, after: State)
    requires AllComeFrom(s.leases, injected) && after == Step(s, op)
    ensures AllComeFrom(after.leases, if op.InjectOp? && |injected| < 128 then injected + [op] else injected)
  {
    if op.SweepOp? {
      forall k | 0 <= k < |after.leases| ensures ComesFrom(after.leases[k], injected[k]) {
        assert ComesFrom(s.leases[k], injected[k]);
      }
    }
  }

  /** In every run the lease table lists the injected leases in order, each with its own chunk, worker,
      expiry and policy. */
  lemma {:induction false} LeasesAreInjected(ops: seq<Op>, trace: seq<State>, t: nat)
    requires IsRun(ops, trace) && trace[0] == START && t < |trace|
    ensures AllComeFrom(trace[t].leases, Injections(ops, t))
    decreases t
  {
    if t > 0 {
      LeasesAreInjected(ops, trace, t - 1);
      assert RunStep(ops, trace, t - 1);
      StepKeepsOrigin(trace[t - 1], ops[t - 1], Injections(ops, t - 1), trace[t]);
    }
  }

  /** Call k is the first injection with the lease id. */
  ghost predicate FirstWith(injected: seq<Op>, id: u64, k: int) {
    && 0 <= k < |injected| && injected[k].InjectOp? && injected[k].leaseId == id
    && forall m :: 0 <= m < k ==> injected[m].InjectOp? && injected[m].leaseId != id
  }

  // ----- Whose result is accepted -----

  /** In every run a result is accepted if and only if it comes from the worker that the first lease with
      the id was injected for, and that lease has neither been requeued nor been closed. */
  lemma AcceptedIff(ops: seq<Op>, trace: seq<State>, t: nat, id: u64)
    requires IsRun(ops, trace) && trace[0] == START && t < |ops| && ops[t].ResultOp? && ops[t].leaseId == id
    ensures Commits(trace[t], ops[t], id) <==>
            exists k :: FirstWith(Injections(ops, t), id, k) && Injections(ops, t)[k].worker == ops[t].worker
                        && k < |trace[t].leases| && trace[t].leases[k].state in {Active, Uncertain}
  {
    LeasesAreInjected(ops, trace, t);
    var injected, leases := Injections(ops, t), trace[t].leases;
    var k := LeaseFrom(leases, id, 0);
    assert forall m :: 0 <= m < |leases| ==> ComesFrom(leases[m], injected[m]);
    if k >= 0 {
      assert FirstWith(injected, id, k);
      forall m | FirstWith(injected, id, m) ensures m == k {
        assert leases[m].leaseId == id;
      }
    } else {
      forall m | 0 <= m < |injected| ensures injected[m].leaseId != id {
        assert ComesFrom(leases[m], injected[m]);
      }
    }
  }

  /** An accepted result was sent by a worker that the lease had been handed to before. */
  lemma AcceptedWasAssigned(ops: seq<Op>, trace: seq<State>, t: nat, id: u64) returns (u: nat)
    requires IsRun(ops, trace) && trace[0] == START && t < |ops| && Commits(trace[t], ops[t], id)
    ensures u < t && ops[u].InjectOp? && ops[u].leaseId == id && ops[u].worker == ops[t].worker
  {
    AcceptedIff(ops, trace, t, id);
    var k :| FirstWith(Injections(ops, t), id, k) && Injections(ops, t)[k].worker == ops[t].worker;
    u :| 0 <= u < t && ops[u] == Injections(ops, t)[k];
  }

  /** The result of the named worker for a lease that is still active is accepted; it closes that lease
      and changes nothing else. */
  lemma AssignedIsAccepted(s: State, id: u64, k: nat)
    requires k < |s.leases| && s.leases[k].leaseId == id && s.leases[k].state == Active
    requires forall m :: 0 <= m < k ==> s.leases[m].leaseId != id
    ensures var (after, ok) := Result(s, id, s.leases[k].workerId);
            ok && after == s.(leases := s.leases[k := s.leases[k].(state := Reconciled)])
  {
    assert LeaseFrom(s.leases, id, 0) == k;
  }

  /** A result from anybody else leaves everything as it was. */
  lemma StrangerIsRejected(s: State, id: u64, worker: string)
    requires forall k :: 0 <= k < |s.leases| && s.leases[k].leaseId == id ==> s.leases[k].workerId != worker
    ensures Result(s, id, worker) == (s, false)
  {
  }

  // ----- Who is lost -----

  lemma ObservedAt(s: State, k: nat, nowMs: u64, timeoutMs: u64)
    requires k < |s.workers| && s.workers[k].lastHeartbeatMs <= nowMs
    ensures var w := s.workers[k];
            Sweep(s, nowMs, timeoutMs).workers[k]
            == w.(healthy := w.healthy && nowMs - w.lastHeartbeatMs <= timeoutMs)
  {
  }

  /** A worker heard of at beatMs is still healthy after a sweep if and only if no more than the timeout
      has passed since. */
  lemma SweepJudges(s: State, id: string, beatMs: u64, nowMs: u64, timeoutMs: u64)
    requires Valid(s) && HeardOf(s, id, beatMs) && beatMs <= nowMs
    ensures HeardOf(Sweep(s, nowMs, timeoutMs), id, beatMs) <==> nowMs - beatMs <= timeoutMs
  {
    var k :| 0 <= k < |s.workers| && s.workers[k] == Observation(id, beatMs, true);
    var after := Sweep(s, nowMs, timeoutMs);
    ObservedAt(s, k, nowMs, timeoutMs);
    forall m | 0 <= m < |after.workers| && after.workers[m].workerId == id ensures m == k {
      assert s.workers[m].workerId == s.workers[k].workerId;
    }
    assert after.workers[k] == Observation(id, beatMs, nowMs - beatMs <= timeoutMs);
  }

  /** Too late is lost: the worker's active leases are all taken off it, for a retry exactly when their
      policy allows one. */
  lemma LateLosesLeases(s: State, id: string, beatMs: u64, nowMs: u64, timeoutMs: u64, i: nat)
    requires Valid(s) && HeardOf(s, id, beatMs) && beatMs <= nowMs && nowMs - beatMs > timeoutMs
    requires i < |s.leases| && s.leases[i].workerId == id && s.leases[i].state == Active
    ensures var l := Sweep(s, nowMs, timeoutMs).leases[i];
            l.state == if s.leases[i].policy == NoRetry then Reconciled else Expired
  {
    var k :| 0 <= k < |s.workers| && s.workers[k] == Observation(id, beatMs, true);
    assert Missed(s.workers[k], nowMs, timeoutMs);
    assert Lost(s.workers, nowMs, timeoutMs, |s.workers|, id);
    assert LeaseOk(s.leases[i]);
  }

  /** A worker is lost once: leases handed to a worker that counts as lost already are only taken off when
      their own time is over. */
  lemma LostOnlyOnce(s: State, id: string, nowMs: u64, timeoutMs: u64, i: nat)
    requires i < |s.leases| && s.leases[i].workerId == id && s.leases[i].state == Active
    requires forall k :: 0 <= k < |s.workers| && s.workers[k].workerId == id ==> !s.workers[k].healthy
    ensures Sweep(s, nowMs, timeoutMs).leases[i].state == Active <==> nowMs <= s.leases[i].expiresMs
  {
  }

  /** After a sweep the summary is a warning if and only if some known worker counts as lost. */
  lemma SweepHealth(s: State, nowMs: u64, timeoutMs: u64)
    ensures var after := Sweep(s, nowMs, timeoutMs);
            && (after.health == Warn <==> exists k :: 0 <= k < |after.workers| && !after.workers[k].healthy)
            && (after.health == Ok <==> forall k :: 0 <= k < |after.workers| ==> after.workers[k].healthy)
  {
  }

  /** A lost worker comes back with its next heartbeat, and not before: sweeps never heal anyone. */
  lemma OnlyHeartbeatsHeal(s: State, op: Op, k: nat)
    requires k < |s.workers| && !s.workers[k].healthy
    ensures k < |Step(s, op).workers|
    ensures Step(s, op).workers[k].healthy <==> op.HeartbeatOp? && WorkerFrom(s.workers, op.worker, 0) == k
  {
  }

  // ----- What a sweep does with retries and recovery jobs, from any state -----

  /** The lease is taken off its worker: its fate was uncertain, its time is over, or the worker is lost. */
  ghost predicate TakenOff(s: State, nowMs: u64, timeoutMs: u64, i: nat)
    requires i < |s.leases|
  {
    var l := s.leases[i];
    || l.state == Uncertain
    || (l.state == Active && (nowMs > l.expiresMs || Lost(s.workers, nowMs, timeoutMs, |s.workers|, l.workerId)))
  }

  /** From any state: a lease taken off counts one more retry and goes back to the queue if its policy
      allows retries and it has had fewer than three, otherwise it is closed; all others stay. */
  lemma RetryRule(s: State, nowMs: u64, timeoutMs: u64, i: nat)
    requires i < |s.leases|
    ensures var l, after := s.leases[i], Sweep(s, nowMs, timeoutMs).leases[i];
            after == if !TakenOff(s, nowMs, timeoutMs, i) then l
                     else l.(retryCount := l.retryCount + 1,
                             state := if l.policy != NoRetry && l.retryCount < 3 then Expired else Reconciled)
  {
  }

  /** The leases that become uncertain in the sweep, and those it takes off. */
  ghost function NewlyUncertain(s: State, nowMs: u64, timeoutMs: u64): set<nat> {
    set i: nat | i < |s.leases| && s.leases[i].state == Active
                 && Lost(s.workers, nowMs, timeoutMs, |s.workers|, s.leases[i].workerId)
  }

  ghost function AllTakenOff(s: State, nowMs: u64, timeoutMs: u64): set<nat> {
    set i: nat | i < |s.leases| && TakenOff(s, nowMs, timeoutMs, i)
  }

  ghost function UncertainPlaces(leases: seq<Lease>, n: nat): (r: set<nat>)
    requires n <= |leases|
    ensures forall i :: i in r ==> i < n
  {
    if n == 0 then {} else UncertainPlaces(leases, n - 1) + if leases[n - 1].state == Uncertain then {n - 1} else {}
  }

  ghost function DuePlaces(leases: seq<Lease>, nowMs: u64, n: nat): (r: set<nat>)
    requires n <= |leases|
    ensures forall i :: i in r ==> i < n
  {
    if n == 0 then {} else DuePlaces(leases, nowMs, n - 1) + if Due(leases[n - 1], nowMs) then {n - 1} else {}
  }

  lemma {:induction false} PlacesAre(leases: seq<Lease>, nowMs: u64, n: nat, i: nat)
    requires n <= |leases|
    ensures i in UncertainPlaces(leases, n) <==> i < n && leases[i].state == Uncertain
    ensures i in DuePlaces(leases, nowMs, n) <==> i < n && Due(leases[i], nowMs)
    decreases n
  {
    if n > 0 {
      PlacesAre(leases, nowMs, n - 1, i);
    }
  }

  lemma CountsNext(leases: seq<Lease>, nowMs: u64, n: nat)
    requires n < |leases|
    ensures UncertainCount(leases, n + 1)
         == UncertainCount(leases, n) + if leases[n].state == Uncertain then 1 else 0
    ensures DueCount(leases, nowMs, n + 1) == DueCount(leases, nowMs, n) + if Due(leases[n], nowMs) then 1 else 0
  {
  }

  lemma {:induction false} UncertainIsSize(leases: seq<Lease>, n: nat)
    requires n <= |leases|
    ensures UncertainCount(leases, n) == |UncertainPlaces(leases, n)|
    decreases n
  {
    if n > 0 {
      UncertainIsSize(leases, n - 1);
      CountsNext(leases, 0, n - 1);
    }
  }

  lemma {:induction false} DueIsSize(leases: seq<Lease>, nowMs: u64, n: nat)
    requires n <= |leases|
    ensures DueCount(leases, nowMs, n) == |DuePlaces(leases, nowMs, n)|
    decreases n
  {
    if n > 0 {
      DueIsSize(leases, nowMs, n - 1);
      CountsNext(leases, nowMs, n - 1);
    }
  }

  lemma DisjointSize(a: set<nat>, b: set<nat>, both: set<nat>)
    requires a !! b && both == a + b
    ensures |both| == |a| + |b|
  {
  }

  lemma MarkedPlaces(s: State, nowMs: u64, timeoutMs: u64, marked: seq<Lease>)
    requires marked == MarkedLeases(s, nowMs, timeoutMs)
    ensures UncertainPlaces(marked, |marked|)
         == UncertainPlaces(s.leases, |s.leases|) + NewlyUncertain(s, nowMs, timeoutMs)
    ensures UncertainPlaces(s.leases, |s.leases|) !! NewlyUncertain(s, nowMs, timeoutMs)
    ensures DuePlaces(marked, nowMs, |marked|) == AllTakenOff(s, nowMs, timeoutMs)
  {
    forall i: nat
      ensures i in UncertainPlaces(marked, |marked|) <==>
              i in UncertainPlaces(s.leases, |s.leases|) || i in NewlyUncertain(s, nowMs, timeoutMs)
      ensures !(i in UncertainPlaces(s.leases, |s.leases|) && i in NewlyUncertain(s, nowMs, timeoutMs))
      ensures i in DuePlaces(marked, nowMs, |marked|) <==> i in AllTakenOff(s, nowMs, timeoutMs)
    {
      PlacesAre(marked, nowMs, |marked|, i);
      PlacesAre(s.leases, nowMs, |s.leases|, i);
    }
  }

  /** From any state: the open recovery jobs grow by one for every lease that becomes uncertain and fall by
      one for every lease taken off, stopping at zero. */
  lemma SweepCountsJobs(s: State, nowMs: u64, timeoutMs: u64)
    ensures var left := s.recoveryJobs + |NewlyUncertain(s, nowMs, timeoutMs)| - |AllTakenOff(s, nowMs, timeoutMs)|;
            Sweep(s, nowMs, timeoutMs).recoveryJobs == if left > 0 then left else 0
  {
    var marked := MarkedLeases(s, nowMs, timeoutMs);
    MarkedPlaces(s, nowMs, timeoutMs, marked);
    UncertainIsSize(s.leases, |s.leases|);
    UncertainIsSize(marked, |marked|);
    DueIsSize(marked, nowMs, |marked|);
    DisjointSize(UncertainPlaces(s.leases, |s.leases|), NewlyUncertain(s, nowMs, timeoutMs),
                 UncertainPlaces(marked, |marked|));
  }
}
